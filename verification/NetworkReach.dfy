/** The network model is not idle: whatever an honest tunnel puts on the wire, the network can
    carry to the other side. */
module NetworkReach {
  import opened Machine
  import opened Time
  import opened Terms
  import opened Noise
  import opened Sessions
  import opened Cookie
  import opened Timers
  import opened TunnelModel
  import opened TunnelRuns
  import opened Adversary
  import opened Network

  predicate MacLike(t: Term) { t.Mac? || t.Atom? }

  /** What every honest datagram is made of. */
  predicate HonestShape(p: Packet) {
    match p
    case Initiation(b, mac1, mac2) => b.ephemeral.Pub? && b.encStatic.Seal? && b.encTimestamp.Seal?
        && MacLike(mac1) && MacLike(mac2)
    case Response(b, mac1, mac2) => b.ephemeral.Pub? && b.encNothing.Seal? && MacLike(mac1) && MacLike(mac2)
    case Cookies(reply) =>
      && reply.encrypted.XSeal? && reply.encrypted.key.Hash? && reply.encrypted.key.left == LABEL_COOKIE
      && reply.encrypted.key.right.Pub? && reply.encrypted.aad.Mac? && reply.encrypted.plain.Mac?
    case Transport(_, _, ciphertext) => ciphertext.Seal?
  }

  lemma ShapeIsDerivable(p: Packet, log: set<Term>)
    requires HonestShape(p) && SealsIn(Some(p)) <= log
    ensures PacketDerivable(p, log)
  {
    match p
    case Initiation(b, _, _) => assert b.encStatic in log && b.encTimestamp in log;
    case Response(b, _, _) => assert b.encNothing in log;
    case Cookies(reply) =>
      assert Derivable(reply.encrypted.key.left, log);
      assert Derivable(reply.encrypted.key.right, log);
      assert Derivable(reply.encrypted.key, log);
    case Transport(_, _, ciphertext) => assert ciphertext in log;
  }

  predicate ShapeOk(o: Outcome) { Wire(o).Some? ==> HonestShape(Wire(o).value) }

  lemma SendShape(s: State, now: Now, outLen: nat, rng: Entropy, timerDriven: bool)
    ensures var r := SendInitiation(s, now, outLen, rng, timerDriven).1;
            r.Ok? ==> r.value.Initiation? && HonestShape(r.value)
  {
    hide OutgoingStamp, FreshIndex, DhTerm, InitiationAlpha;
  }

  lemma SealShape(s: State, now: Ticks, plain: seq<u8>, isData: bool)
    requires s.Usable(now)
    ensures HonestShape(SealOnCurrent(s, now, plain, isData).1)
  {}

  lemma CookieShape(s: State, now: Ticks, remote: seq<u8>, sender: u32, mac1: Term, outLen: nat, rng: Entropy)
    requires mac1.Mac?
    ensures ShapeOk(Decapsulation(RespondWithCookie(s, now, remote, sender, mac1, outLen, rng).1))
  {}

  lemma RespondShape(s: State, now: Ticks, remote: seq<u8>, underLoad: bool, p: Packet, outLen: nat, rng: Entropy)
    requires p.Initiation?
    ensures ShapeOk(Decapsulation(ReceiveInitiation(s, now, remote, underLoad, p, outLen, rng).1))
  {
    hide RespondWithCookie, ConsumeInitiation, FreshIndex, LexLessEq, DhTerm, InitiationAlpha, ResponseAlpha,
      VerifyMac2;
    if VerifyMac1(s.Keys(), InitiationAlpha(p.init), p.mac1) {
      CookieShape(s, now, remote, p.init.sender, p.mac1, outLen, rng);
    }
  }

  lemma CompleteShape(s: State, now: Ticks, remote: seq<u8>, underLoad: bool, p: Packet, outLen: nat, rng: Entropy)
    requires p.Response?
    ensures ShapeOk(Decapsulation(ReceiveResponse(s, now, remote, underLoad, p, outLen, rng).1))
  {
    hide RespondWithCookie, ConsumeResponse, ResponseAlpha, VerifyMac2;
    if VerifyMac1(s.Keys(), ResponseAlpha(p.resp), p.mac1) {
      CookieShape(s, now, remote, p.resp.sender, p.mac1, outLen, rng);
    }
  }

  lemma DecapsulateShape(s: State, now: Now, remote: seq<u8>, underLoad: bool, datagram: Option<Packet>, outLen: nat,
      rng: Entropy)
    ensures ShapeOk(Decapsulation(Decapsulate(s, now, remote, underLoad, datagram, outLen, rng).1))
  {
    hide ReceiveInitiation, ReceiveResponse;
    var a, t := AtClock(s, now), ClampTicks(s, now);
    match datagram
    case Some(Initiation(_, _, _)) => RespondShape(a, t, remote, underLoad, datagram.value, outLen, rng);
    case Some(Response(_, _, _)) => CompleteShape(a, t, remote, underLoad, datagram.value, outLen, rng);
    case _ =>
  }

  lemma KeepaliveShape(s: State, now: Ticks, outLen: nat, reason: SendReason)
    requires s.Usable(now)
    ensures ShapeOk(Polled(AsSend(SendKeepalive(s, now, outLen), reason).1))
  {}

  lemma AttemptShape(s: State, now: Now, outLen: nat, rng: Entropy)
    ensures ShapeOk(Polled(StartAttempt(s, now, outLen, rng).1))
  {
    SendShape(s.(timers := s.timers.(attemptStarted := None)), now, outLen, rng, true);
    hide SendInitiation, HonestShape;
  }

  lemma PersistentShape(s: State, now: Now, outLen: nat, rng: Entropy)
    ensures ShapeOk(Polled(PollPersistent(s, now, outLen, rng).1))
  {
    hide StartAttempt, SendKeepalive, HonestShape, PersistentDue;
    AttemptShape(s.(timers := s.timers.(gaveUp := false)), now, outLen, rng);
    if s.Usable(now.ticks) { KeepaliveShape(s, now.ticks, outLen, PersistentSend); }
  }

  lemma PassiveShape(s: State, now: Now, outLen: nat, rng: Entropy)
    ensures ShapeOk(Polled(PollPassive(s, now, outLen, rng).1))
  {
    hide PollPersistent, SendKeepalive, HonestShape;
    PersistentShape(s, now, outLen, rng);
    PersistentShape(s.(timers := s.timers.(lastDataRx := None)), now, outLen, rng);
    if s.Usable(now.ticks) { KeepaliveShape(s, now.ticks, outLen, KeepaliveSend); }
  }

  lemma ConfirmShape(s: State, now: Now, outLen: nat, rng: Entropy)
    ensures ShapeOk(Polled(PollConfirm(s, now, outLen, rng).1))
  {
    hide PollPassive, SendKeepalive, HonestShape;
    PassiveShape(s, now, outLen, rng);
    PassiveShape(s.(timers := s.timers.(confirmKeepaliveDue := false)), now, outLen, rng);
    if s.Usable(now.ticks) { KeepaliveShape(s, now.ticks, outLen, KeepaliveSend); }
  }

  lemma RekeyShape(s: State, now: Now, outLen: nat, rng: Entropy)
    ensures ShapeOk(Polled(PollRekey(s, now, outLen, rng).1))
  {
    hide PollConfirm, StartAttempt, HonestShape;
    var cleared := s.(timers := s.timers.(rekeyDue := false));
    ConfirmShape(s, now, outLen, rng);
    ConfirmShape(cleared, now, outLen, rng);
    AttemptShape(s, now, outLen, rng);
    AttemptShape(cleared, now, outLen, rng);
  }

  lemma PollShape(s: State, now: Now, outLen: nat, rng: Entropy)
    ensures ShapeOk(Polled(Poll(s, now, outLen, rng).1))
  {
    hide PollRekey, SendInitiation, HonestShape;
    var d := DropStaleNext(AtClock(s, now), Clamped(s, now).ticks);
    RekeyShape(d, Clamped(s, now), outLen, rng);
    SendShape(d, Clamped(s, now), outLen, rng, true);
  }

  lemma EncapsulateShape(s: State, now: Now, payload: seq<u8>, outLen: nat, rng: Entropy)
    ensures ShapeOk(Encapsulation(Encapsulate(s, now, payload, outLen, rng).1))
  {
    hide SendInitiation, SealOnCurrent, HonestShape, Pad;
    var a := AtClock(s, now);
    SendShape(a.(timers := a.timers.(gaveUp := false, attemptStarted := None)), Clamped(s, now), outLen, rng, false);
    if a.Usable(ClampTicks(s, now)) { SealShape(a, ClampTicks(s, now), Pad(payload, s.config.mtu), payload != []); }
  }

  /** Whatever a step of an honest party sends, the adversary can replay from then on: the
      honest schedule is one of the runs the safety theorem covers. */
  lemma HonestPacketsDeliverable(n: Net, p: Party, e: Event)
    requires Wire(Step(n.At(p), e).1).Some?
    ensures PacketDerivable(Wire(Step(n.At(p), e).1).value, NetStep(n, p, e).log)
  {
    hide Encapsulate, Decapsulate, Poll, InitiateHandshake, HonestShape, PacketDerivable;
    var s := n.At(p);
    match e {
      case DoEncapsulate(now, payload, outLen, rng) => EncapsulateShape(s, now, payload, outLen, rng);
      case DoDecapsulate(now, remote, underLoad, datagram, outLen, rng) => DecapsulateShape(s, now, remote,
          underLoad, datagram, outLen, rng);
      case DoPoll(now, outLen, rng) => PollShape(s, now, outLen, rng);
      case DoInitiate(now, outLen, rng) => InitiateShape(s, now, outLen, rng);
      case DoReset =>
      case DoSetMtu(mtu) =>
    }
    var o := Step(s, e).1;
    assert SealsIn(Some(Wire(o).value)) == SealsIn(Wire(o));
    ShapeIsDerivable(Wire(o).value, NetStep(n, p, e).log);
  }

  lemma InitiateShape(s: State, now: Now, outLen: nat, rng: Entropy)
    ensures ShapeOk(Initiated(InitiateHandshake(s, now, outLen, rng).1))
  {
    hide SendInitiation, HonestShape;
    var a := AtClock(s, now);
    SendShape(a.(timers := a.timers.(gaveUp := false, attemptStarted := None)), Clamped(s, now), outLen, rng, false);
  }
}
