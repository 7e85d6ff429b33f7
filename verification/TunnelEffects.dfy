/** What each outcome of a step says about the slots and the in-flight handshake, with the
    timers forgotten. */
module TunnelEffects {
  import opened Machine
  import opened Time
  import opened Terms
  import opened Noise
  import opened Cookie
  import opened Timers
  import opened Sessions
  import opened TunnelModel
  import opened TunnelInvariant
  import opened TunnelRuns
  import Replay

  predicate SameOrGone<T(==)>(before: Option<T>, after: Option<T>) {
    after == before || after.None?
  }

  predicate SameIdentity(s: State, after: State) {
    after.config.(mtu := s.config.mtu) == s.config && after.ss == s.ss
  }

  /** Nothing new in any slot. */
  predicate Shrinks(s: State, after: State) {
    && SameOrGone(s.previous, after.previous)
    && SameOrGone(s.current, after.current)
    && SameOrGone(s.next, after.next)
    && SameOrGone(s.inflight, after.inflight)
  }

  /** A fresh in-flight handshake, built from the entropy of this call. */
  predicate Initiates(s: State, after: State, rng: Entropy, p: Packet) {
    && rng.eph.Some? && after.inflight.Some? && after.lastSentTai.Some? && p.Initiation?
    && CreateInitiation(s.LocalPublic(), s.config.peerPublic, s.ss, after.inflight.value.localIndex, rng.eph.value,
                        after.lastSentTai.value, HANDSHAKE_INITIATION_LEN) == Ok((after.inflight.value, p.init))
    && SameOrGone(s.previous, after.previous) && SameOrGone(s.current, after.current) && SameOrGone(s.next, after.next)
  }

  /** One message sealed on the usable current session with its next counter. */
  predicate Seals(s: State, after: State, t: Ticks, plain: seq<u8>, p: Packet) {
    && s.Usable(t)
    && var c := s.current.value;
       && p == Transport(c.keys.peerIndex, c.sendCounter, Seal(c.keys.send, c.sendCounter, EMPTY, Atom(plain)))
       && after.current == Some(c.(sendCounter := c.sendCounter + 1))
       && after.previous == s.previous && SameOrGone(s.next, after.next) && after.inflight == s.inflight
  }

  /** A responder session in `next`, built from an authenticated initiation. */
  predicate Responds(s: State, after: State, now: Ticks, rng: Entropy, init: InitiationBody, p: Packet) {
    && p.Response? && rng.eph.Some? && after.next.Some?
    && after.next == Some(NewSession(after.next.value.keys, now))
    && after.previous == s.previous && after.current == s.current && after.inflight == s.inflight
    && var consumed := ConsumeInitiation(s.config.localStatic, s.LocalPublic(), s.config.peerPublic, s.ss, init);
       && consumed.Ok?
       && CreateResponse(consumed.value, s.config.psk, after.next.value.keys.localIndex, rng.eph.value,
           HANDSHAKE_RESPONSE_LEN)
          == Ok((after.next.value.keys, p.resp))
  }

  /** An initiator session in `current`, built from the in-flight handshake it consumes. */
  predicate Completes(s: State, after: State, now: Ticks, resp: ResponseBody) {
    && s.inflight.Some? && after.inflight.None? && after.current.Some?
    && s.inflight.value.localIndex == resp.receiver
    && ConsumeResponse(s.inflight.value, s.config.localStatic, s.config.psk, resp) == Ok(after.current.value.keys)
    && after.current == Some(NewSession(after.current.value.keys, now))
    && after.previous == s.current && after.next == s.next
  }

  predicate SameSlots(s: State, after: State) {
    && after.previous == s.previous && after.current == s.current && after.next == s.next
    && after.inflight == s.inflight
  }

  /** A fresh counter authenticated on the session of some slot. */
  predicate Delivers(s: State, after: State, slot: Slot, p: Packet, plain: seq<u8>) {
    && p.Transport? && InSlot(s, slot).Some?
    && var x := InSlot(s, slot).value;
       && x.keys.localIndex == p.receiver
       && Replay.Fresh(x.seen, p.counter)
       && Open(x.keys.recv, p.counter, EMPTY, p.ciphertext) == Some(Atom(plain))
       && SameSlots(if !x.confirmed && slot == Next then Promote(Admit(s, slot, p.counter)) else Admit(s, slot,
           p.counter), after)
  }

  // ----- Each operation -----------------------------------------------------------------

  lemma SendInitiationEffect(s: State, now: Now, outLen: nat, rng: Entropy, timerDriven: bool)
    ensures var (s', r) := SendInitiation(s, now, outLen, rng, timerDriven);
            if r.Ok? then Initiates(s, s', rng, r.value) && SameIdentity(s, s') else s' == s
  {
    hide OutgoingStamp;
  }

  lemma StartAttemptEffect(s: State, now: Now, outLen: nat, rng: Entropy)
    ensures var (s', r) := StartAttempt(s, now, outLen, rng);
            && SameIdentity(s, s')
            && if r.Ok? then r.value.Send? && Initiates(s, s', rng, r.value.wire) else SameSlots(s, s')
  {
    SendInitiationEffect(s.(timers := s.timers.(attemptStarted := None)), now, outLen, rng, true);
    hide SendInitiation, CreateInitiation;
  }

  predicate PollEffect(s: State, t: Ticks, rng: Entropy, after: (State, Result<PollOutput>)) {
    && SameIdentity(s, after.0)
    && match after.1
       case Ok(Send(p, reason)) =>
         if reason == FreshInitiation || reason == Retransmit then Initiates(s, after.0, rng, p)
         else Seals(s, after.0, t, [], p)
       case _ => Shrinks(s, after.0)
  }

  lemma KeepaliveEffect(s: State, t: Ticks, outLen: nat, rng: Entropy, reason: SendReason)
    requires s.Usable(t) && reason != FreshInitiation && reason != Retransmit
    ensures PollEffect(s, t, rng, AsSend(SendKeepalive(s, t, outLen), reason))
  {}

  lemma UsableTailEffect(s: State, now: Now, outLen: nat, rng: Entropy)
    requires s.Usable(now.ticks)
    ensures PollEffect(s, now.ticks, rng, PollConfirm(s, now, outLen, rng))
  {
    KeepaliveEffect(s, now.ticks, outLen, rng, KeepaliveSend);
    KeepaliveEffect(s, now.ticks, outLen, rng, PersistentSend);
    hide SendKeepalive, StartAttempt;
  }

  lemma RevivalEffect(s: State, now: Now, outLen: nat, rng: Entropy)
    requires !s.Usable(now.ticks)
    ensures PollEffect(s, now.ticks, rng, PollConfirm(s, now, outLen, rng))
  {
    var t := now.ticks;
    var a := s.(timers := s.timers.(confirmKeepaliveDue := false));
    var b := if s.timers.PassiveKeepaliveDue(t) then a.(timers := a.timers.(lastDataRx := None)) else a;
    var c := b.(timers := b.timers.(gaveUp := false));
    StartAttemptEffect(c, now, outLen, rng);
    AttemptReason(c, now, outLen, rng);
    hide StartAttempt, CreateInitiation;
    assert PollConfirm(s, now, outLen, rng) == PollPersistent(b, now, outLen, rng);
  }

  lemma AttemptReason(s: State, now: Now, outLen: nat, rng: Entropy)
    ensures var r := StartAttempt(s, now, outLen, rng).1; r.Ok? ==> r.value.reason == FreshInitiation
  {}

  lemma PollTailEffect(s: State, now: Now, outLen: nat, rng: Entropy)
    ensures PollEffect(s, now.ticks, rng, PollConfirm(s, now, outLen, rng))
  {
    hide PollConfirm, PollEffect;
    if s.Usable(now.ticks) {
      UsableTailEffect(s, now, outLen, rng);
    } else {
      RevivalEffect(s, now, outLen, rng);
    }
  }

  lemma RekeyEffect(s: State, now: Now, outLen: nat, rng: Entropy)
    ensures PollEffect(s, now.ticks, rng, PollRekey(s, now, outLen, rng))
  {
    hide PollConfirm, StartAttempt, CreateInitiation;
    var cleared := s.(timers := s.timers.(rekeyDue := false));
    if s.timers.rekeyDue && s.inflight.Some? {
      PollTailEffect(cleared, now, outLen, rng);
    } else if s.inflight.None? && s.timers.InitiationAllowed(now.ticks)
              && (s.timers.rekeyDue || s.timers.DeadPeerDue(now.ticks)) {
      StartAttemptEffect(s, now, outLen, rng);
      AttemptReason(s, now, outLen, rng);
      hide CreateInitiation;
    } else {
      PollTailEffect(s, now, outLen, rng);
    }
  }

  lemma HandshakeEffect(s: State, now: Now, outLen: nat, rng: Entropy)
    requires RetransmitDue(s, now.ticks)
    ensures PollEffect(s, now.ticks, rng, PollHandshake(s, now, outLen, rng))
  {
    SendInitiationEffect(s, now, outLen, rng, true);
    hide SendInitiation, CreateInitiation;
  }

  lemma PollEffects(s: State, now: Now, outLen: nat, rng: Entropy)
    ensures PollEffect(s, ClampTicks(s, now), rng, Poll(s, now, outLen, rng))
  {
    var n := Clamped(s, now);
    var d := DropStaleNext(AtClock(s, now), n.ticks);
    hide PollHandshake, PollRekey, CreateInitiation;
    if RetransmitDue(d, n.ticks) {
      HandshakeEffect(d, n, outLen, rng);
    } else {
      RekeyEffect(d, n, outLen, rng);
    }
  }

  lemma EncapsulateEffects(s: State, now: Now, payload: seq<u8>, outLen: nat, rng: Entropy)
    ensures var (s', r) := Encapsulate(s, now, payload, outLen, rng);
            && SameIdentity(s, s')
            && match r
               case Ok(Sealed(p)) => Seals(s, s', ClampTicks(s, now), Pad(payload, s.config.mtu), p)
               case Ok(NeedsHandshake(p)) => Initiates(s, s', rng, p)
               case Err(_) => SameSlots(s, s')
  {
    var a := AtClock(s, now);
    SendInitiationEffect(a.(timers := a.timers.(gaveUp := false, attemptStarted := None)), Clamped(s, now), outLen,
        rng, false);
    hide SendInitiation, CreateInitiation, Pad;
  }

  lemma InitiateEffects(s: State, now: Now, outLen: nat, rng: Entropy)
    ensures var (s', r) := InitiateHandshake(s, now, outLen, rng);
            && SameIdentity(s, s')
            && if r.Ok? then Initiates(s, s', rng, r.value) else SameSlots(s, s')
  {
    var a := AtClock(s, now);
    SendInitiationEffect(a.(timers := a.timers.(gaveUp := false, attemptStarted := None)), Clamped(s, now), outLen,
        rng, false);
    hide SendInitiation, CreateInitiation;
  }

  predicate DecapsulateEffect(s: State, now: Ticks, datagram: Option<Packet>, rng: Entropy, after: (State,
      Result<Received>)) {
    && SameIdentity(s, after.0)
    && match after.1
       case Ok(Reply(Response(body, mac1, mac2))) =>
         && datagram.Some? && datagram.value.Initiation?
         && Responds(s, after.0, now, rng, datagram.value.init, after.1.value.wire)
       case Ok(HandshakeComplete) =>
         datagram.Some? && datagram.value.Response? && Completes(s, after.0, now, datagram.value.resp)
       case Ok(Data(plain)) =>
         && datagram.Some? && datagram.value.Transport? && SlotOf(s, datagram.value.receiver).Some? && plain != []
         && Delivers(s, after.0, SlotOf(s, datagram.value.receiver).value, datagram.value, plain)
       case Ok(Keepalive) =>
         && datagram.Some? && datagram.value.Transport? && SlotOf(s, datagram.value.receiver).Some?
         && Delivers(s, after.0, SlotOf(s, datagram.value.receiver).value, datagram.value, [])
       case Ok(Reply(p)) => p.Cookies? && SameSlots(s, after.0)
       case _ => SameSlots(s, after.0)
  }

  lemma DeliverEffect(s: State, now: Ticks, slot: Slot, counter: u64, isKeepalive: bool)
    requires InSlot(s, slot).Some?
    ensures var after := Deliver(s, now, slot, counter, isKeepalive);
            && SameIdentity(s, after)
            && SameSlots(if !InSlot(s, slot).value.confirmed && slot == Next then Promote(Admit(s, slot, counter))
                         else Admit(s, slot, counter), after)
  {}

  lemma TransportEffect(s: State, now: Ticks, p: Packet, outLen: nat, rng: Entropy)
    requires p.Transport?
    ensures DecapsulateEffect(s, now, Some(p), rng, ReceiveTransport(s, now, p, outLen))
  {
    var slot := SlotOf(s, p.receiver);
    if slot.Some? {
      DeliverEffect(s, now, slot.value, p.counter, true);
      DeliverEffect(s, now, slot.value, p.counter, false);
    }
    hide Deliver, Admit, Promote, Replay.Fresh;
  }

  lemma ResponseEffect(s: State, now: Ticks, remote: seq<u8>, underLoad: bool, p: Packet, outLen: nat, rng: Entropy)
    requires p.Response?
    ensures DecapsulateEffect(s, now, Some(p), rng, ReceiveResponse(s, now, remote, underLoad, p, outLen, rng))
  {
    hide ConsumeResponse;
  }

  lemma InitiationEffect(s: State, now: Ticks, remote: seq<u8>, underLoad: bool, p: Packet, outLen: nat, rng: Entropy)
    requires p.Initiation?
    ensures DecapsulateEffect(s, now, Some(p), rng, ReceiveInitiation(s, now, remote, underLoad, p, outLen, rng))
  {
    hide ConsumeInitiation, LexLessEq, FreshIndex;
  }

  lemma DecapsulateEffects(s: State, now: Now, remote: seq<u8>, underLoad: bool, datagram: Option<Packet>,
      outLen: nat, rng: Entropy)
    ensures DecapsulateEffect(s, ClampTicks(s, now), datagram, rng, Decapsulate(s, now, remote, underLoad, datagram,
        outLen, rng))
  {
    var a, t := AtClock(s, now), ClampTicks(s, now);
    hide ConsumeInitiation, CreateResponse, ConsumeResponse, Admit, Promote, Replay.Fresh;
    match datagram
    case None =>
    case Some(Initiation(_, _, _)) =>
      InitiationEffect(a, t, remote, underLoad, datagram.value, outLen, rng);
      hide ReceiveInitiation;
    case Some(Response(_, _, _)) =>
      ResponseEffect(a, t, remote, underLoad, datagram.value, outLen, rng);
      hide ReceiveResponse;
    case Some(Cookies(reply)) =>
    case Some(Transport(_, _, _)) =>
      TransportEffect(a, t, datagram.value, outLen, rng);
      AdmitIgnoresClock(s, now, datagram.value);
      hide ReceiveTransport;
  }

  lemma AdmitIgnoresClock(s: State, now: Now, p: Packet)
    requires p.Transport?
    ensures SlotOf(AtClock(s, now), p.receiver) == SlotOf(s, p.receiver)
    ensures SlotOf(s, p.receiver).Some? ==>
              var slot := SlotOf(s, p.receiver).value;
              && SameSlots(Admit(s, slot, p.counter), Admit(AtClock(s, now), slot, p.counter))
              && SameSlots(Promote(Admit(s, slot, p.counter)), Promote(Admit(AtClock(s, now), slot, p.counter)))
  {}

  // ----- Consequences -----------------------------------------------------------------------

  /** A rejected datagram changes nothing but the clock, and never reports an internal
      error. */
  lemma RejectionIsAtomic(s: State, now: Now, remote: seq<u8>, underLoad: bool, datagram: Option<Packet>,
      outLen: nat, rng: Entropy)
    ensures var (s', r) := Decapsulate(s, now, remote, underLoad, datagram, outLen, rng);
            r.Err? ==> s' == AtClock(s, now) && r.error != Internal
  {
    hide ReceiveInitiation, ReceiveResponse, ReceiveCookie, ReceiveTransport;
    var a, t := AtClock(s, now), ClampTicks(s, now);
    match datagram
    case Some(Initiation(_, _, _)) => InitiationIsAtomic(a, t, remote, underLoad, datagram.value, outLen, rng);
    case Some(Response(_, _, _)) => ResponseIsAtomic(a, t, remote, underLoad, datagram.value, outLen, rng);
    case Some(Cookies(reply)) => CookieIsAtomic(a, t, reply);
    case Some(Transport(_, _, _)) => TransportIsAtomic(a, t, datagram.value, outLen);
    case None =>
  }

  lemma InitiationIsAtomic(s: State, now: Ticks, remote: seq<u8>, underLoad: bool, p: Packet, outLen: nat, rng: Entropy)
    requires p.Initiation?
    ensures var (s', r) := ReceiveInitiation(s, now, remote, underLoad, p, outLen, rng);
            r.Err? ==> s' == s && r.error != Internal
  {
    hide LexLessEq, InitiationAlpha, ResponseAlpha, VerifyMac1, VerifyMac2, ApplyMacs, ConsumeInitiation,
      CreateResponse, FreshIndex;
  }

  lemma ResponseIsAtomic(s: State, now: Ticks, remote: seq<u8>, underLoad: bool, p: Packet, outLen: nat, rng: Entropy)
    requires p.Response?
    ensures var (s', r) := ReceiveResponse(s, now, remote, underLoad, p, outLen, rng);
            r.Err? ==> s' == s && r.error != Internal
  {
    hide ResponseAlpha, VerifyMac1, VerifyMac2;
  }

  lemma CookieIsAtomic(s: State, now: Ticks, msg: CookieReply)
    ensures var (s', r) := ReceiveCookie(s, now, msg); r.Err? ==> s' == s && r.error != Internal
  {}

  lemma TransportIsAtomic(s: State, now: Ticks, p: Packet, outLen: nat)
    requires p.Transport?
    ensures var (s', r) := ReceiveTransport(s, now, p, outLen); r.Err? ==> s' == s && r.error != Internal
  {
    hide Deliver, Replay.Fresh;
  }

  /** Whatever step seals a transport message does so on the confirmed current session,
      younger than 180 s, with a counter below the reject limit that it then moves past. */
  lemma SealsOnlyOnUsableSession(s: State, e: Event)
    requires Inv(s) && ClockBelowSaturation(e)
    requires Wire(Step(s, e).1).Some? && Wire(Step(s, e).1).value.Transport?
    ensures var (after, p) := (Step(s, e).0, Wire(Step(s, e).1).value);
            && (e.DoEncapsulate? || e.DoPoll?)
            && s.current.Some? && s.current.value.confirmed
            && ClampTicks(s, e.now) < s.current.value.created + REJECT_AFTER_TIME
            && p.counter == s.current.value.sendCounter < REJECT_AFTER_MESSAGES
            && after.current.Some? && after.current.value.keys == s.current.value.keys
            && after.current.value.sendCounter == p.counter + 1
  {
    match e
    case DoEncapsulate(now, payload, outLen, rng) =>
      EncapsulateEffects(s, now, payload, outLen, rng);
      hide Encapsulate, Inv;
    case DoDecapsulate(now, remote, underLoad, datagram, outLen, rng) =>
      DecapsulateEffects(s, now, remote, underLoad, datagram, outLen, rng);
      hide Decapsulate, Inv;
    case DoPoll(now, outLen, rng) =>
      PollEffects(s, now, outLen, rng);
      hide Poll, Inv;
    case DoInitiate(now, outLen, rng) =>
      InitiateEffects(s, now, outLen, rng);
      hide InitiateHandshake, Inv;
    case DoReset =>
    case DoSetMtu(mtu) =>
  }
}
