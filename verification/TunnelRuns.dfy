/** Histories of whole runs: when initiations go out, what stamps they carry, which
    initiations are accepted, and on which sessions anything is sealed. */
module TunnelRuns {
  import opened Machine
  import opened Time
  import opened Terms
  import opened Noise
  import opened Cookie
  import opened Timers
  import opened TunnelModel
  import opened TunnelInvariant

  // ----- What one step does to the initiation record ------------------------------------

  /** The packet an outcome puts on the wire, if any. */
  function Wire(o: Outcome): (r: Option<Packet>) {
    match o
    case Encapsulation(Ok(e)) => Some(e.wire)
    case Decapsulation(Ok(Reply(p))) => Some(p)
    case Polled(Ok(Send(p, _))) => Some(p)
    case Initiated(Ok(p)) => Some(p)
    case _ => None
  }

  predicate SendsInitiation(o: Outcome) {
    Wire(o).Some? && Wire(o).value.Initiation?
  }

  /** Strictly later, or both at the top of the stamp range. */
  predicate Advances(a: Tai64N, b: Tai64N) {
    if a == ALL_ONES then b == ALL_ONES else LexLess(a, b)
  }

  lemma AdvancesChain(a: Tai64N, b: Tai64N, c: Tai64N)
    requires Advances(a, b) && Advances(b, c)
    ensures Advances(a, c)
  {
    StampOrder(a, b, c);
  }

  /** An initiation leaves at `t`: at least five seconds after the previous one, with a
      stamp above every earlier one until the stamps saturate. */
  predicate InitiationAt(s: State, after: State, t: Ticks, p: Packet) {
    && p.Initiation?
    && (s.timers.lastInitiationTx.Some? ==> t >= s.timers.lastInitiationTx.value + REKEY_TIMEOUT)
    && after.timers.lastInitiationTx == Some(t)
    && after.lastSentTai.Some?
    && (s.lastSentTai.Some? ==> Advances(s.lastSentTai.value, after.lastSentTai.value))
    && p.init.encTimestamp.Seal? && p.init.encTimestamp.plain == Atom(after.lastSentTai.value)
  }

  predicate RecordUntouched(s: State, after: State) {
    after.timers.lastInitiationTx == s.timers.lastInitiationTx && after.lastSentTai == s.lastSentTai
  }

  lemma NothingAboveAllOnes(b: Tai64N)
    ensures LexLessEq(b, ALL_ONES)
  {
    LexIsNumeric(b, ALL_ONES);
    SaturatedValue(ALL_ONES);
    ValueBound(b);
  }

  lemma OutgoingStampAdvances(s: State, now: Now)
    requires s.lastSentTai.Some?
    ensures Advances(s.lastSentTai.value, OutgoingStamp(s, now))
  {
    var last := s.lastSentTai.value;
    NothingAboveAllOnes(Stamp(now));
    if LexLessEq(Stamp(now), last) {
      TickIsSuccessor(last);
    } else {
      StampOrder(last, Stamp(now), last);
    }
  }

  lemma SendRecords(s: State, now: Now, outLen: nat, rng: Entropy, timerDriven: bool)
    requires s.timers.lastInitiationTx.Some? ==> now.ticks >= s.timers.lastInitiationTx.value + REKEY_TIMEOUT
    ensures var (s', r) := SendInitiation(s, now, outLen, rng, timerDriven);
            if r.Ok? then InitiationAt(s, s', now.ticks, r.value) else s' == s
  {
    if s.lastSentTai.Some? { OutgoingStampAdvances(s, now); }
    hide OutgoingStamp, Advances, FreshIndex;
  }

  lemma EncapsulateRecords(s: State, now: Now, payload: seq<u8>, outLen: nat, rng: Entropy)
    requires Inv(s) && now.ticks < U64_MAX
    ensures var (s', r) := Encapsulate(s, now, payload, outLen, rng);
            if SendsInitiation(Encapsulation(r)) then InitiationAt(s, s', ClampTicks(s, now), r.value.wire)
            else RecordUntouched(s, s')
  {
    var a := AtClock(s, now);
    var b := a.(timers := a.timers.(gaveUp := false, attemptStarted := None));
    if !a.Usable(a.lastNow) && a.inflight.None? && a.timers.InitiationAllowed(a.lastNow) {
      SendRecords(b, Clamped(s, now), outLen, rng, false);
    }
    hide SendInitiation, Advances;
  }

  lemma InitiateRecords(s: State, now: Now, outLen: nat, rng: Entropy)
    requires Inv(s) && now.ticks < U64_MAX
    ensures var (s', r) := InitiateHandshake(s, now, outLen, rng);
            if r.Ok? then InitiationAt(s, s', ClampTicks(s, now), r.value) else RecordUntouched(s, s')
  {
    var a := AtClock(s, now);
    if a.timers.InitiationAllowed(a.lastNow) {
      SendRecords(a.(timers := a.timers.(gaveUp := false, attemptStarted := None)), Clamped(s, now), outLen, rng,
          false);
    }
    hide SendInitiation, Advances;
  }

  lemma DecapsulateRecords(s: State, now: Now, remote: seq<u8>, underLoad: bool, datagram: Option<Packet>,
      outLen: nat, rng: Entropy)
    ensures var (s', r) := Decapsulate(s, now, remote, underLoad, datagram, outLen, rng);
            RecordUntouched(s, s') && !SendsInitiation(Decapsulation(r))
  {
    hide ConsumeInitiation, CreateResponse, ConsumeResponse, FreshIndex, LexLessEq, Admit;
    var a, t := AtClock(s, now), ClampTicks(s, now);
    match datagram
    case Some(Transport(receiver, counter, ciphertext)) =>
      var slot := SlotOf(a, receiver);
      if slot.Some? {
        DeliverRecords(a, t, slot.value, counter, true);
        DeliverRecords(a, t, slot.value, counter, false);
      }
      hide Deliver;
    case _ =>
  }

  lemma DeliverRecords(s: State, now: Ticks, slot: Slot, counter: u64, isKeepalive: bool)
    requires InSlot(s, slot).Some?
    ensures RecordUntouched(s, Deliver(s, now, slot, counter, isKeepalive))
  {}

  /** An attempt that poll opens or continues obeys the pacing rule. */
  lemma StartAttemptRecords(s: State, now: Now, outLen: nat, rng: Entropy)
    requires s.timers.InitiationAllowed(now.ticks)
    requires NotAfter(s.timers.lastInitiationTx, now.ticks)
    ensures var (s', r) := StartAttempt(s, now, outLen, rng);
            if r.Ok? then r.value.Send? && InitiationAt(s, s', now.ticks, r.value.wire) else RecordUntouched(s, s')
  {
    SendRecords(s.(timers := s.timers.(attemptStarted := None)), now, outLen, rng, true);
    hide SendInitiation, Advances;
  }

  predicate PollRecorded(s: State, t: Ticks, after: (State, Result<PollOutput>)) {
    if SendsInitiation(Polled(after.1)) then InitiationAt(s, after.0, t, after.1.value.wire)
    else RecordUntouched(s, after.0)
  }

  lemma KeepaliveRecords(s: State, t: Ticks, outLen: nat, reason: SendReason)
    requires s.Usable(t)
    ensures PollRecorded(s, t, AsSend(SendKeepalive(s, t, outLen), reason))
  {}

  lemma UsableTailRecords(s: State, now: Now, outLen: nat, rng: Entropy)
    requires s.Usable(now.ticks)
    ensures PollRecorded(s, now.ticks, PollConfirm(s, now, outLen, rng))
  {
    KeepaliveRecords(s, now.ticks, outLen, KeepaliveSend);
    KeepaliveRecords(s, now.ticks, outLen, PersistentSend);
    hide SendKeepalive, StartAttempt;
  }

  lemma RevivalRecords(s: State, now: Now, outLen: nat, rng: Entropy)
    requires !s.Usable(now.ticks) && NotAfter(s.timers.lastInitiationTx, now.ticks)
    ensures PollRecorded(s, now.ticks, PollConfirm(s, now, outLen, rng))
  {
    var t := now.ticks;
    var a := s.(timers := s.timers.(confirmKeepaliveDue := false));
    var b := if s.timers.PassiveKeepaliveDue(t) then a.(timers := a.timers.(lastDataRx := None)) else a;
    var c := b.(timers := b.timers.(gaveUp := false));
    if s.timers.InitiationAllowed(t) {
      StartAttemptRecords(c, now, outLen, rng);
    }
    hide StartAttempt, Advances;
    assert PollConfirm(s, now, outLen, rng) == PollPersistent(b, now, outLen, rng);
  }

  lemma PollTailRecords(s: State, now: Now, outLen: nat, rng: Entropy)
    requires NotAfter(s.timers.lastInitiationTx, now.ticks)
    ensures PollRecorded(s, now.ticks, PollConfirm(s, now, outLen, rng))
  {
    hide PollConfirm, PollRecorded;
    if s.Usable(now.ticks) {
      UsableTailRecords(s, now, outLen, rng);
    } else {
      RevivalRecords(s, now, outLen, rng);
    }
  }

  lemma RekeyRecords(s: State, now: Now, outLen: nat, rng: Entropy)
    requires NotAfter(s.timers.lastInitiationTx, now.ticks)
    ensures PollRecorded(s, now.ticks, PollRekey(s, now, outLen, rng))
  {
    hide StartAttempt, PollConfirm, Advances, NotAfter;
    var cleared := s.(timers := s.timers.(rekeyDue := false));
    PollTailRecords(s, now, outLen, rng);
    PollTailRecords(cleared, now, outLen, rng);
    if s.timers.InitiationAllowed(now.ticks) {
      StartAttemptRecords(s, now, outLen, rng);
      StartAttemptRecords(cleared, now, outLen, rng);
    }
  }

  lemma HandshakeRecords(s: State, now: Now, outLen: nat, rng: Entropy)
    requires PacingInv(s) && RetransmitDue(s, now.ticks) && now.ticks < U64_MAX
    ensures PollRecorded(s, now.ticks, PollHandshake(s, now, outLen, rng))
  {
    SendRecords(s, now, outLen, rng, true);
    hide SendInitiation, Advances;
  }

  lemma PollRecords(s: State, now: Now, outLen: nat, rng: Entropy)
    requires Inv(s) && now.ticks < U64_MAX
    ensures PollRecorded(s, ClampTicks(s, now), Poll(s, now, outLen, rng))
  {
    var n := Clamped(s, now);
    ClockKeeps(s, now);
    DropOrDiscardKeeps(AtClock(s, now));
    var d := DropStaleNext(AtClock(s, now), n.ticks);
    assert PacingInv(d) && NotAfter(d.timers.lastInitiationTx, n.ticks);
    assert d.timers.lastInitiationTx == s.timers.lastInitiationTx && d.lastSentTai == s.lastSentTai;
    hide PollHandshake, PollRekey, Advances, Inv, TimesInv, PacingInv, SlotInv, DropStaleNext;
    if RetransmitDue(d, n.ticks) {
      HandshakeRecords(d, n, outLen, rng);
    } else {
      RekeyRecords(d, n, outLen, rng);
    }
  }

  /** Whatever the operation, an initiation it sends obeys the pacing and stamp rules. */
  lemma StepRecords(s: State, e: Event)
    requires Inv(s) && ClockBelowSaturation(e)
    ensures var (s', o) := Step(s, e);
            if SendsInitiation(o) then !e.DoReset? && !e.DoSetMtu? && InitiationAt(s, s', ClampTicks(s, e.now),
                Wire(o).value)
            else RecordUntouched(s, s')
  {
    hide Encapsulate, Decapsulate, Poll, InitiateHandshake, InitiationAt, Inv;
    match e
    case DoEncapsulate(now, payload, outLen, rng) => EncapsulateRecords(s, now, payload, outLen, rng);
    case DoDecapsulate(now, remote, underLoad, datagram, outLen, rng) =>
      DecapsulateRecords(s, now, remote, underLoad, datagram, outLen, rng);
    case DoPoll(now, outLen, rng) => PollRecords(s, now, outLen, rng);
    case DoInitiate(now, outLen, rng) =>
      InitiateRecords(s, now, outLen, rng);
      InitiateIsInitiation(s, now, outLen, rng);
    case DoReset =>
    case DoSetMtu(mtu) =>
  }

  lemma InitiateIsInitiation(s: State, now: Now, outLen: nat, rng: Entropy)
    ensures InitiateHandshake(s, now, outLen, rng).1.Ok? ==> InitiateHandshake(s, now, outLen, rng).1.value.Initiation?
  {}

  // ----- Initiations over a run -------------------------------------------------------------

  datatype Sent = Sent(at: Ticks, stamp: Tai64N)

  /** Instants and stamps of the initiations a run sends, oldest first. */
  function SentInitiations(s: State, events: seq<Event>): (r: seq<Sent>)
    requires Inv(s) && ClocksBelowSaturation(events)
  {
    if events == [] then [] else
    var earlier, e := events[..|events| - 1], events[|events| - 1];
    RunKeeps(s, earlier);
    StepRecords(Run(s, earlier), e);
    var (after, o) := Step(Run(s, earlier), e);
    SentInitiations(s, earlier)
    + if SendsInitiation(o) then [Sent(after.timers.lastInitiationTx.value, after.lastSentTai.value)] else []
  }

  /** Every sent record is behind the state's own, and the last one is it. */
  lemma {:induction false} LastSentIsRecorded(s: State, events: seq<Event>)
    requires Inv(s) && ClocksBelowSaturation(events) && s.timers.lastInitiationTx.None? && s.lastSentTai.None?
    ensures var sent, after := SentInitiations(s, events), Run(s, events);
            if sent == [] then after.timers.lastInitiationTx.None? && after.lastSentTai.None?
            else after.timers.lastInitiationTx == Some(sent[|sent| - 1].at)
                 && after.lastSentTai == Some(sent[|sent| - 1].stamp)
  {
    if events != [] {
      var earlier := events[..|events| - 1];
      LastSentIsRecorded(s, earlier);
      RunKeeps(s, earlier);
      StepRecords(Run(s, earlier), events[|events| - 1]);
      hide Step, Inv, Advances, SendsInitiation;
    }
  }

  ghost predicate Paced(sent: seq<Sent>) {
    forall i, j :: 0 <= i < j < |sent| ==> sent[j].at >= sent[i].at + (j - i) * REKEY_TIMEOUT
  }

  /** Stamps strictly increase until one is all ones. */
  ghost predicate Ratcheted(sent: seq<Sent>) {
    forall i, j :: 0 <= i < j < |sent| ==> Advances(sent[i].stamp, sent[j].stamp)
  }

  lemma ExtendPaced(sent: seq<Sent>, next: Sent)
    requires Paced(sent)
    requires sent != [] ==> next.at >= sent[|sent| - 1].at + REKEY_TIMEOUT
    ensures Paced(sent + [next])
  {
    var all := sent + [next];
    forall i, j | 0 <= i < j < |all|
      ensures all[j].at >= all[i].at + (j - i) * REKEY_TIMEOUT
    {
      if j == |sent| && i < |sent| - 1 {
        assert sent[|sent| - 1].at >= sent[i].at + (|sent| - 1 - i) * REKEY_TIMEOUT;
      }
    }
  }

  lemma ExtendRatcheted(sent: seq<Sent>, next: Sent)
    requires Ratcheted(sent)
    requires sent != [] ==> Advances(sent[|sent| - 1].stamp, next.stamp)
    ensures Ratcheted(sent + [next])
  {
    hide Advances;
    var all := sent + [next];
    forall i, j | 0 <= i < j < |all|
      ensures Advances(all[i].stamp, all[j].stamp)
    {
      if j == |sent| && i < |sent| - 1 {
        AdvancesChain(sent[i].stamp, sent[|sent| - 1].stamp, next.stamp);
      }
    }
  }

  lemma {:induction false} SentInOrder(s: State, events: seq<Event>)
    requires Inv(s) && ClocksBelowSaturation(events) && s.timers.lastInitiationTx.None? && s.lastSentTai.None?
    ensures Paced(SentInitiations(s, events)) && Ratcheted(SentInitiations(s, events))
  {
    if events != [] {
      var earlier := events[..|events| - 1];
      var sent := SentInitiations(s, earlier);
      SentInOrder(s, earlier);
      LastSentIsRecorded(s, earlier);
      RunKeeps(s, earlier);
      StepRecords(Run(s, earlier), events[|events| - 1]);
      var (after, o) := Step(Run(s, earlier), events[|events| - 1]);
      hide Step, Inv, Advances, Paced, Ratcheted;
      if SendsInitiation(o) {
        var next := Sent(after.timers.lastInitiationTx.value, after.lastSentTai.value);
        assert SentInitiations(s, events) == sent + [next];
        ExtendPaced(sent, next);
        ExtendRatcheted(sent, next);
      } else {
        assert SentInitiations(s, events) == sent;
      }
    }
  }

  /** Over every run of a new tunnel, whatever operations send them and across every
      reset: the n-th later initiation leaves at least n times five seconds later, and its
      stamp is strictly greater until the stamps reach all ones, whatever the wall clock
      says. */
  lemma InitiationDiscipline(config: Config, events: seq<Event>)
    requires NewTunnel(config).Ok? && ClocksBelowSaturation(events)
    ensures Paced(SentInitiations(NewTunnel(config).value, events))
    ensures Ratcheted(SentInitiations(NewTunnel(config).value, events))
  {
    SentInOrder(NewTunnel(config).value, events);
  }

  // ----- Accepted initiations over a run ------------------------------------------------------

  /** The step answers an initiation with a response. */
  predicate AcceptsInitiation(o: Outcome) {
    Wire(o).Some? && Wire(o).value.Response?
  }

  /** Accepting leaves the accepted stamp on record, strictly above the previous one; no
      other step, `reset` included, touches the record. */
  predicate StampAccepted(s: State, after: State, e: Event) {
    && e.DoDecapsulate? && e.datagram.Some? && e.datagram.value.Initiation?
    && after.greatestTimestamp.Some?
    && e.datagram.value.init.encTimestamp.Seal?
    && e.datagram.value.init.encTimestamp.plain == Atom(after.greatestTimestamp.value)
    && (s.greatestTimestamp.Some? ==> LexLess(s.greatestTimestamp.value, after.greatestTimestamp.value))
  }

  lemma ConsumedStamp(localStatic: Name, localPublic: Term, peerPublic: Term, ss: Term, msg: InitiationBody)
    ensures var c := ConsumeInitiation(localStatic, localPublic, peerPublic, ss, msg);
            c.Ok? ==> msg.encTimestamp.Seal? && msg.encTimestamp.plain == Atom(c.value.timestamp)
  {}

  lemma ReceiveInitiationAccepts(s: State, now: Ticks, remote: seq<u8>, underLoad: bool, p: Packet, outLen: nat,
      rng: Entropy)
    requires p.Initiation?
    ensures var (s', r) := ReceiveInitiation(s, now, remote, underLoad, p, outLen, rng);
            if AcceptsInitiation(Decapsulation(r)) then
              && s'.greatestTimestamp.Some?
              && p.init.encTimestamp.Seal? && p.init.encTimestamp.plain == Atom(s'.greatestTimestamp.value)
              && (s.greatestTimestamp.Some? ==> LexLess(s.greatestTimestamp.value, s'.greatestTimestamp.value))
            else s'.greatestTimestamp == s.greatestTimestamp
  {
    hide CreateResponse, FreshIndex, LexLess, LexLessEq, InitiationAlpha, ResponseAlpha, ApplyMacs, VerifyMac1,
      VerifyMac2, BuildCookieReply, ConsumeInitiation;
    ConsumedStamp(s.config.localStatic, s.LocalPublic(), s.config.peerPublic, s.ss, p.init);
    var (s', r) := ReceiveInitiation(s, now, remote, underLoad, p, outLen, rng);
    if AcceptsInitiation(Decapsulation(r)) && s.greatestTimestamp.Some? {
      StampOrder(s.greatestTimestamp.value, s'.greatestTimestamp.value, s.greatestTimestamp.value);
    }
  }

  lemma SendKeepsGreatest(s: State, now: Now, outLen: nat, rng: Entropy, timerDriven: bool)
    ensures SendInitiation(s, now, outLen, rng, timerDriven).0.greatestTimestamp == s.greatestTimestamp
    ensures var r := SendInitiation(s, now, outLen, rng, timerDriven).1; r.Ok? ==> r.value.Initiation?
  {}

  lemma PollTailKeepsGreatest(s: State, now: Now, outLen: nat, rng: Entropy)
    ensures PollConfirm(s, now, outLen, rng).0.greatestTimestamp == s.greatestTimestamp
    ensures !AcceptsInitiation(Polled(PollConfirm(s, now, outLen, rng).1))
  {
    var t := now.ticks;
    var a := s.(timers := s.timers.(confirmKeepaliveDue := false));
    var b := if s.timers.PassiveKeepaliveDue(t) then a.(timers := a.timers.(lastDataRx := None)) else a;
    SendKeepsGreatest(b.(timers := b.timers.(gaveUp := false, attemptStarted := None)), now, outLen, rng, true);
    SendKeepsGreatest(s.(timers := s.timers.(gaveUp := false, attemptStarted := None)), now, outLen, rng, true);
    hide SendInitiation;
  }

  lemma PollKeepsGreatest(s: State, now: Now, outLen: nat, rng: Entropy)
    ensures Poll(s, now, outLen, rng).0.greatestTimestamp == s.greatestTimestamp
    ensures !AcceptsInitiation(Polled(Poll(s, now, outLen, rng).1))
  {
    var n := Clamped(s, now);
    var d := DropStaleNext(AtClock(s, now), n.ticks);
    var cleared := d.(timers := d.timers.(rekeyDue := false));
    PollTailKeepsGreatest(d, n, outLen, rng);
    PollTailKeepsGreatest(cleared, n, outLen, rng);
    SendKeepsGreatest(d, n, outLen, rng, true);
    SendKeepsGreatest(d.(timers := d.timers.(attemptStarted := None)), n, outLen, rng, true);
    SendKeepsGreatest(cleared.(timers := cleared.timers.(attemptStarted := None)), n, outLen, rng, true);
    hide SendInitiation, PollConfirm;
  }

  lemma DecapsulateAccepts(s: State, now: Now, remote: seq<u8>, underLoad: bool, datagram: Option<Packet>,
      outLen: nat, rng: Entropy)
    ensures var (s', r) := Decapsulate(s, now, remote, underLoad, datagram, outLen, rng);
            if AcceptsInitiation(Decapsulation(r))
            then StampAccepted(s, s', DoDecapsulate(now, remote, underLoad, datagram, outLen, rng))
            else s'.greatestTimestamp == s.greatestTimestamp
  {
    hide LexLess, ConsumeResponse, ReceiveInitiation, ReceiveResponse, ReceiveCookie, ReceiveTransport;
    var a, t := AtClock(s, now), ClampTicks(s, now);
    match datagram
    case Some(Initiation(_, _, _)) => ReceiveInitiationAccepts(a, t, remote, underLoad, datagram.value, outLen, rng);
    case Some(Response(_, _, _)) => ResponseKeepsGreatest(a, t, remote, underLoad, datagram.value, outLen, rng);
    case Some(Cookies(reply)) => CookieKeepsGreatest(a, t, reply);
    case Some(Transport(_, _, _)) => TransportKeepsGreatest(a, t, datagram.value, outLen);
    case None =>
  }

  lemma ResponseKeepsGreatest(s: State, now: Ticks, remote: seq<u8>, underLoad: bool, p: Packet, outLen: nat,
      rng: Entropy)
    requires p.Response?
    ensures var (s', r) := ReceiveResponse(s, now, remote, underLoad, p, outLen, rng);
            s'.greatestTimestamp == s.greatestTimestamp && !AcceptsInitiation(Decapsulation(r))
  {
    hide ConsumeResponse, ResponseAlpha, VerifyMac1, VerifyMac2, BuildCookieReply;
  }

  lemma CookieKeepsGreatest(s: State, now: Ticks, msg: CookieReply)
    ensures var (s', r) := ReceiveCookie(s, now, msg);
            s'.greatestTimestamp == s.greatestTimestamp && !AcceptsInitiation(Decapsulation(r))
  {}

  lemma TransportKeepsGreatest(s: State, now: Ticks, p: Packet, outLen: nat)
    requires p.Transport?
    ensures var (s', r) := ReceiveTransport(s, now, p, outLen);
            s'.greatestTimestamp == s.greatestTimestamp && !AcceptsInitiation(Decapsulation(r))
  {
    hide Replay.Fresh, Replay.Accepted;
  }

  lemma StepAccepts(s: State, e: Event)
    ensures var (s', o) := Step(s, e);
            if AcceptsInitiation(o) then StampAccepted(s, s', e) else s'.greatestTimestamp == s.greatestTimestamp
  {
    hide LexLess;
    match e
    case DoEncapsulate(now, payload, outLen, rng) =>
      var a := AtClock(s, now);
      SendKeepsGreatest(a.(timers := a.timers.(gaveUp := false, attemptStarted := None)), Clamped(s, now), outLen,
          rng, false);
      hide SendInitiation;
    case DoDecapsulate(now, remote, underLoad, datagram, outLen, rng) =>
      DecapsulateAccepts(s, now, remote, underLoad, datagram, outLen, rng);
      hide Decapsulate;
    case DoPoll(now, outLen, rng) =>
      PollKeepsGreatest(s, now, outLen, rng);
      hide Poll;
    case DoInitiate(now, outLen, rng) =>
      var a := AtClock(s, now);
      SendKeepsGreatest(a.(timers := a.timers.(gaveUp := false, attemptStarted := None)), Clamped(s, now), outLen,
          rng, false);
      hide SendInitiation;
    case DoReset =>
    case DoSetMtu(mtu) =>
  }

  datatype AcceptedInit = AcceptedInit(body: InitiationBody, stamp: Tai64N)

  /** The initiations a run accepts, oldest first. */
  function AcceptedInitiations(s: State, events: seq<Event>): (r: seq<AcceptedInit>) {
    if events == [] then [] else
    var earlier, e := events[..|events| - 1], events[|events| - 1];
    StepAccepts(Run(s, earlier), e);
    var (after, o) := Step(Run(s, earlier), e);
    AcceptedInitiations(s, earlier)
    + if AcceptsInitiation(o) then [AcceptedInit(e.datagram.value.init, after.greatestTimestamp.value)] else []
  }

  ghost predicate StampsIncrease(accepted: seq<AcceptedInit>) {
    forall i, j :: 0 <= i < j < |accepted| ==> LexLess(accepted[i].stamp, accepted[j].stamp)
  }

  ghost predicate StampsCarried(accepted: seq<AcceptedInit>) {
    forall i :: 0 <= i < |accepted| ==>
      accepted[i].body.encTimestamp.Seal? && accepted[i].body.encTimestamp.plain == Atom(accepted[i].stamp)
  }

  lemma ExtendAccepted(accepted: seq<AcceptedInit>, next: AcceptedInit)
    requires StampsIncrease(accepted)
    requires accepted != [] ==> LexLess(accepted[|accepted| - 1].stamp, next.stamp)
    ensures StampsIncrease(accepted + [next])
  {
    hide LexLess;
    var all := accepted + [next];
    forall i, j | 0 <= i < j < |all|
      ensures LexLess(all[i].stamp, all[j].stamp)
    {
      if j == |accepted| && i < |accepted| - 1 {
        StampOrder(accepted[i].stamp, accepted[|accepted| - 1].stamp, next.stamp);
      }
    }
  }

  predicate LastAcceptedIsRecorded(accepted: seq<AcceptedInit>, s: State) {
    s.greatestTimestamp == if accepted == [] then None else Some(accepted[|accepted| - 1].stamp)
  }

  lemma {:induction false} AcceptedInOrder(s: State, events: seq<Event>)
    requires s.greatestTimestamp.None?
    ensures StampsIncrease(AcceptedInitiations(s, events))
    ensures StampsCarried(AcceptedInitiations(s, events))
    ensures LastAcceptedIsRecorded(AcceptedInitiations(s, events), Run(s, events))
  {
    hide LexLess, Step, StampsIncrease, AcceptsInitiation, AcceptedInitiations, Run, StampAccepted;
    if events == [] {
      NothingAccepted(s);
    } else {
      var earlier, e := events[..|events| - 1], events[|events| - 1];
      assert events == earlier + [e];
      AcceptedInOrder(s, earlier);
      AcceptedNext(s, earlier, e);
      var acc := AcceptedInitiations(s, earlier);
      var (after, o) := Step(Run(s, earlier), e);
      if AcceptsInitiation(o) {
        ExtendAccepted(acc, AcceptedInit(e.datagram.value.init, after.greatestTimestamp.value));
      }
    }
  }

  lemma NothingAccepted(s: State)
    ensures AcceptedInitiations(s, []) == [] && Run(s, []) == s && StampsIncrease([])
  {}

  /** What one more event adds. */
  lemma AcceptedNext(s: State, earlier: seq<Event>, e: Event)
    ensures var (after, o) := Step(Run(s, earlier), e);
            var before := Run(s, earlier);
            && Run(s, earlier + [e]) == after
            && if AcceptsInitiation(o) then
                 && e.DoDecapsulate? && e.datagram.Some? && e.datagram.value.Initiation?
                 && after.greatestTimestamp.Some?
                 && e.datagram.value.init.encTimestamp.Seal?
                 && e.datagram.value.init.encTimestamp.plain == Atom(after.greatestTimestamp.value)
                 && (before.greatestTimestamp.Some? ==> LexLess(before.greatestTimestamp.value,
                     after.greatestTimestamp.value))
                 && AcceptedInitiations(s, earlier + [e])
                    == AcceptedInitiations(s, earlier)
                        + [AcceptedInit(e.datagram.value.init, after.greatestTimestamp.value)]
               else
                 after.greatestTimestamp == before.greatestTimestamp
                 && AcceptedInitiations(s, earlier + [e]) == AcceptedInitiations(s, earlier)
  {
    hide LexLess, Step, AcceptsInitiation;
    assert (earlier + [e])[..|earlier|] == earlier;
    StepAccepts(Run(s, earlier), e);
  }

  /** Over every run of a new tunnel, resets included: the stamps of accepted initiations
      strictly increase, so no initiation is accepted twice. */
  lemma NoInitiationAcceptedTwice(config: Config, events: seq<Event>, i: nat, j: nat)
    requires NewTunnel(config).Ok?
    requires i < j < |AcceptedInitiations(NewTunnel(config).value, events)|
    ensures var acc := AcceptedInitiations(NewTunnel(config).value, events);
            LexLess(acc[i].stamp, acc[j].stamp) && acc[i].body != acc[j].body
  {
    var acc := AcceptedInitiations(NewTunnel(config).value, events);
    AcceptedInOrder(NewTunnel(config).value, events);
    LexIsNumeric(acc[i].stamp, acc[j].stamp);
  }
}
