/** What every operation of the tunnel keeps, and so what holds in every reachable state. */
module TunnelInvariant {
  import opened Machine
  import opened Time
  import opened Terms
  import opened Noise
  import opened Sessions
  import opened Cookie
  import opened Rotation
  import opened Timers
  import opened TunnelModel

  // ----- The invariant -----------------------------------------------------------

  predicate NotAfter(instant: Option<Ticks>, now: Ticks) {
    instant.Some? ==> instant.value <= now
  }

  /** Nothing on record lies in the future of the clamped clock. */
  predicate TimesInv(s: State) {
    && s.lastNow < U64_MAX
    && NotAfter(s.timers.lastDataTx, s.lastNow)
    && NotAfter(s.timers.lastDataRx, s.lastNow)
    && NotAfter(s.timers.lastAnyTx, s.lastNow)
    && NotAfter(s.timers.lastAnyRx, s.lastNow)
    && NotAfter(s.timers.attemptStarted, s.lastNow)
    && NotAfter(s.timers.lastInitiationTx, s.lastNow)
    && NotAfter(CreatedAt(s.previous), s.lastNow)
    && NotAfter(CreatedAt(s.current), s.lastNow)
    && NotAfter(CreatedAt(s.next), s.lastNow)
  }

  /** The pacing rule as it hides in the state between calls. */
  predicate PacingInv(s: State) {
    && (s.inflight.Some? ==>
          && s.timers.lastInitiationTx.Some?
          && s.timers.retransmitAt.Some?
          && s.timers.retransmitAt.value >= AddNanos(s.timers.lastInitiationTx.value, REKEY_TIMEOUT))
    && (s.inflight.None? && s.timers.gaveUp ==> s.timers.InitiationAllowed(s.lastNow))
    && (s.inflight.None? && s.timers.rekeyDue && s.timers.confirmKeepaliveDue ==> s.timers.InitiationAllowed(s.lastNow))
    && (s.inflight.None? && s.current.Some? && s.current.value.keys.isInitiator ==>
          || s.timers.InitiationAllowed(s.lastNow)
          || s.timers.lastInitiationTx.value <= s.current.value.created)
  }

  predicate SessionInv(x: Option<Session>) {
    x.Some? ==> x.value.sendCounter <= REJECT_AFTER_MESSAGES
  }

  /** Index of a slot or of the in-flight handshake; distinct fillers keep empty places apart. */
  predicate Distinct(a: Option<u32>, b: Option<u32>) {
    a.Some? && b.Some? ==> a.value != b.value
  }

  function IndexOf(x: Option<Session>): (r: Option<u32>) {
    if x.Some? then Some(x.value.keys.localIndex) else None
  }

  function InFlightIndex(s: State): (r: Option<u32>) {
    if s.inflight.Some? then Some(s.inflight.value.localIndex) else None
  }

  predicate IndicesDistinct(s: State) {
    && Distinct(IndexOf(s.previous), IndexOf(s.current))
    && Distinct(IndexOf(s.previous), IndexOf(s.next))
    && Distinct(IndexOf(s.current), IndexOf(s.next))
    && Distinct(IndexOf(s.previous), InFlightIndex(s))
    && Distinct(IndexOf(s.current), InFlightIndex(s))
    && Distinct(IndexOf(s.next), InFlightIndex(s))
  }

  /** `current` and `previous` are confirmed, `next` is an unconfirmed responder session
      that has sent nothing, and no two live indices coincide. */
  predicate SlotInv(s: State) {
    && (s.previous.Some? ==> s.previous.value.confirmed)
    && (s.current.Some? ==> s.current.value.confirmed)
    && (s.next.Some? ==> !s.next.value.confirmed && !s.next.value.keys.isInitiator && s.next.value.sendCounter == 0)
    && SessionInv(s.previous) && SessionInv(s.current)
    && IndicesDistinct(s)
  }

  predicate Inv(s: State) {
    TimesInv(s) && PacingInv(s) && SlotInv(s)
  }

  // ----- Pieces --------------------------------------------------------------------

  /** Moving the clock forward keeps the invariant. */
  lemma ClockKeeps(s: State, now: Now)
    requires Inv(s) && now.ticks < U64_MAX
    ensures Inv(AtClock(s, now)) && AtClock(s, now).lastNow == Clamped(s, now).ticks
  {}

  /** Sending an initiation keeps the invariant whatever it overwrote. */
  lemma SendInitiationKeeps(s: State, now: Now, outLen: nat, rng: Entropy, timerDriven: bool)
    requires Inv(s) && now.ticks == s.lastNow
    ensures Inv(SendInitiation(s, now, outLen, rng, timerDriven).0)
    ensures var (s', r) := SendInitiation(s, now, outLen, rng, timerDriven);
            r.Err? ==> s' == s
  {}

  lemma SealKeeps(s: State, now: Ticks, plain: seq<u8>, isData: bool)
    requires Inv(s) && now == s.lastNow && s.Usable(now)
    ensures Inv(SealOnCurrent(s, now, plain, isData).0)
  {}

  lemma EncapsulateKeeps(s: State, now: Now, payload: seq<u8>, outLen: nat, rng: Entropy)
    requires Inv(s) && now.ticks < U64_MAX
    ensures Inv(Encapsulate(s, now, payload, outLen, rng).0)
  {
    ClockKeeps(s, now);
    var a, n := AtClock(s, now), Clamped(s, now);
    if !a.Usable(n.ticks) {
      var b := a.(timers := a.timers.(gaveUp := false));
      assert Inv(b);
      if b.inflight.None? && b.timers.InitiationAllowed(n.ticks) {
        SendInitiationKeeps(b.(timers := b.timers.(attemptStarted := None)), n, outLen, rng, false);
      }
    } else {
      SealKeeps(a, n.ticks, Pad(payload, a.config.mtu), payload != []);
    }
  }

  lemma InitiateKeeps(s: State, now: Now, outLen: nat, rng: Entropy)
    requires Inv(s) && now.ticks < U64_MAX
    ensures Inv(InitiateHandshake(s, now, outLen, rng).0)
  {
    ClockKeeps(s, now);
    var a := AtClock(s, now);
    SendInitiationKeeps(a.(timers := a.timers.(gaveUp := false, attemptStarted := None)), Clamped(s, now), outLen,
        rng, false);
  }

  /** A fresh index stays apart from all the others. */
  lemma NewNextKeeps(s: State, keys: SessionKeys, mac1: Term, stamp: Tai64N)
    requires Inv(s) && !keys.isInitiator && !Clashes(s, keys.localIndex)
    ensures Inv(s.(lastRespMac1 := Some(mac1), greatestTimestamp := Some(stamp),
      next := Some(NewSession(keys, s.lastNow))))
  {}

  lemma ReceiveInitiationKeeps(s: State, now: Ticks, remote: seq<u8>, underLoad: bool, p: Packet, outLen: nat,
      rng: Entropy)
    requires Inv(s) && now == s.lastNow && p.Initiation?
    ensures Inv(ReceiveInitiation(s, now, remote, underLoad, p, outLen, rng).0)
  {
    hide Inv, ConsumeInitiation, LexLessEq;
    var (s', r) := ReceiveInitiation(s, now, remote, underLoad, p, outLen, rng);
    if r.Ok? && r.value.wire.Response? {
      NewNextKeeps(s, s'.next.value.keys, s'.lastRespMac1.value, s'.greatestTimestamp.value);
    } else {
      JarKeeps(s, s'.jar);
    }
  }

  lemma JarKeeps(s: State, jar: Jar<Term>)
    requires Inv(s)
    ensures Inv(s.(jar := jar))
  {}

  lemma ReceiveResponseKeeps(s: State, now: Ticks, remote: seq<u8>, underLoad: bool, p: Packet, outLen: nat,
      rng: Entropy)
    requires Inv(s) && now == s.lastNow && p.Response?
    ensures Inv(ReceiveResponse(s, now, remote, underLoad, p, outLen, rng).0)
  {}

  lemma PromoteKeeps(s: State, counter: u64)
    requires Inv(s) && s.next.Some?
    ensures Inv(Promote(Admit(s, Next, counter)))
  {}

  lemma AdmitKeeps(s: State, slot: Slot, counter: u64)
    requires Inv(s) && InSlot(s, slot).Some? && slot != Next
    ensures Inv(Admit(s, slot, counter))
  {}

  lemma RekeyOnReceiveKeeps(s: State)
    requires Inv(s)
    ensures Inv(RekeyOnReceive(s, s.lastNow))
  {}

  lemma NoteRxKeeps(s: State, isKeepalive: bool)
    requires Inv(s)
    ensures Inv(s.(timers := s.timers.NoteRx(s.lastNow, isKeepalive)))
  {}

  lemma DeliverKeeps(s: State, slot: Slot, counter: u64, isKeepalive: bool)
    requires Inv(s) && InSlot(s, slot).Some?
    ensures Inv(Deliver(s, s.lastNow, slot, counter, isKeepalive))
  {
    if slot == Next {
      assert !s.next.value.confirmed;
      PromoteKeeps(s, counter);
      RekeyOnReceiveKeeps(Promote(Admit(s, Next, counter)));
      NoteRxKeeps(RekeyOnReceive(Promote(Admit(s, Next, counter)), s.lastNow), isKeepalive);
    } else {
      AdmitKeeps(s, slot, counter);
      RekeyOnReceiveKeeps(Admit(s, slot, counter));
      NoteRxKeeps(RekeyOnReceive(Admit(s, slot, counter), s.lastNow), isKeepalive);
    }
  }

  lemma ReceiveTransportKeeps(s: State, now: Ticks, p: Packet, outLen: nat)
    requires Inv(s) && now == s.lastNow && p.Transport?
    ensures Inv(ReceiveTransport(s, now, p, outLen).0)
  {
    hide Inv, Deliver;
    var slot := SlotOf(s, p.receiver);
    if slot.Some? {
      DeliverKeeps(s, slot.value, p.counter, true);
      DeliverKeeps(s, slot.value, p.counter, false);
    }
  }

  lemma DecapsulateKeeps(s: State, now: Now, remote: seq<u8>, underLoad: bool, datagram: Option<Packet>, outLen: nat,
      rng: Entropy)
    requires Inv(s) && now.ticks < U64_MAX
    ensures Inv(Decapsulate(s, now, remote, underLoad, datagram, outLen, rng).0)
  {
    ClockKeeps(s, now);
    var a, t := AtClock(s, now), ClampTicks(s, now);
    match datagram
    case None =>
    case Some(Initiation(_, _, _)) => ReceiveInitiationKeeps(a, t, remote, underLoad, datagram.value, outLen, rng);
    case Some(Response(_, _, _)) => ReceiveResponseKeeps(a, t, remote, underLoad, datagram.value, outLen, rng);
    case Some(Cookies(reply)) =>
    case Some(Transport(_, _, _)) => ReceiveTransportKeeps(a, t, datagram.value, outLen);
  }

  lemma StartAttemptKeeps(s: State, now: Now, outLen: nat, rng: Entropy)
    requires Inv(s) && now.ticks == s.lastNow
    ensures Inv(StartAttempt(s, now, outLen, rng).0)
  {
    SendInitiationKeeps(s.(timers := s.timers.(attemptStarted := None)), now, outLen, rng, true);
  }

  lemma PollPersistentKeeps(s: State, now: Now, outLen: nat, rng: Entropy)
    requires Inv(s) && now.ticks == s.lastNow
    ensures Inv(PollPersistent(s, now, outLen, rng).0)
  {
    if s.Usable(now.ticks) {
      SealKeeps(s, now.ticks, [], false);
    } else {
      StartAttemptKeeps(s.(timers := s.timers.(gaveUp := false)), now, outLen, rng);
    }
  }

  lemma PollPassiveKeeps(s: State, now: Now, outLen: nat, rng: Entropy)
    requires Inv(s) && now.ticks == s.lastNow
    ensures Inv(PollPassive(s, now, outLen, rng).0)
  {
    if s.timers.PassiveKeepaliveDue(now.ticks) {
      if s.Usable(now.ticks) { SealKeeps(s, now.ticks, [], false); }
      PollPersistentKeeps(s.(timers := s.timers.(lastDataRx := None)), now, outLen, rng);
    } else {
      PollPersistentKeeps(s, now, outLen, rng);
    }
  }

  lemma PollConfirmKeeps(s: State, now: Now, outLen: nat, rng: Entropy)
    requires Inv(s) && now.ticks == s.lastNow
    ensures Inv(PollConfirm(s, now, outLen, rng).0)
  {
    if s.timers.confirmKeepaliveDue {
      if s.Usable(now.ticks) { SealKeeps(s, now.ticks, [], false); }
      PollPassiveKeeps(s.(timers := s.timers.(confirmKeepaliveDue := false)), now, outLen, rng);
    } else {
      PollPassiveKeeps(s, now, outLen, rng);
    }
  }

  lemma PollRekeyKeeps(s: State, now: Now, outLen: nat, rng: Entropy)
    requires Inv(s) && now.ticks == s.lastNow
    ensures Inv(PollRekey(s, now, outLen, rng).0)
  {
    StartAttemptKeeps(s, now, outLen, rng);
    PollConfirmKeeps(s, now, outLen, rng);
    var cleared := s.(timers := s.timers.(rekeyDue := false));
    StartAttemptKeeps(cleared, now, outLen, rng);
    PollConfirmKeeps(cleared, now, outLen, rng);
  }

  lemma PollHandshakeKeeps(s: State, now: Now, outLen: nat, rng: Entropy)
    requires Inv(s) && now.ticks == s.lastNow && RetransmitDue(s, now.ticks)
    ensures Inv(PollHandshake(s, now, outLen, rng).0)
  {
    SendInitiationKeeps(s, now, outLen, rng, true);
  }

  lemma DropOrDiscardKeeps(s: State)
    requires Inv(s)
    ensures Inv(DropStaleNext(s, s.lastNow))
    ensures Inv(DiscardAll(s))
  {}

  lemma PollKeeps(s: State, now: Now, outLen: nat, rng: Entropy)
    requires Inv(s) && now.ticks < U64_MAX
    ensures Inv(Poll(s, now, outLen, rng).0)
  {
    ClockKeeps(s, now);
    var n := Clamped(s, now);
    DropOrDiscardKeeps(AtClock(s, now));
    var a := DropStaleNext(AtClock(s, now), n.ticks);
    hide Inv, PollHandshake, PollRekey, DiscardAll;
    if DiscardDue(a, n.ticks) {
      DropOrDiscardKeeps(a);
    } else if RetransmitDue(a, n.ticks) {
      PollHandshakeKeeps(a, n, outLen, rng);
    } else {
      PollRekeyKeeps(a, n, outLen, rng);
    }
  }

  // ----- Every reachable state --------------------------------------------------------

  lemma StepKeeps(s: State, e: Event)
    requires Inv(s) && ClockBelowSaturation(e)
    ensures Inv(Step(s, e).0)
  {
    match e
    case DoEncapsulate(now, payload, outLen, rng) => EncapsulateKeeps(s, now, payload, outLen, rng);
    case DoDecapsulate(now, remote, underLoad, datagram, outLen, rng) =>
      DecapsulateKeeps(s, now, remote, underLoad, datagram, outLen, rng);
    case DoPoll(now, outLen, rng) => PollKeeps(s, now, outLen, rng);
    case DoInitiate(now, outLen, rng) => InitiateKeeps(s, now, outLen, rng);
    case DoReset =>
    case DoSetMtu(mtu) =>
  }

  lemma {:induction false} RunKeeps(s: State, events: seq<Event>)
    requires Inv(s) && ClocksBelowSaturation(events)
    ensures Inv(Run(s, events))
  {
    if events != [] {
      RunKeeps(s, events[..|events| - 1]);
      StepKeeps(Run(s, events[..|events| - 1]), events[|events| - 1]);
    }
  }

  /** The invariant holds after every sequence of operations on a new tunnel, with any
      datagrams, any entropy and any clock below saturation. */
  lemma ReachableInv(s: State)
    requires Reachable(s)
    ensures Inv(s)
  {
    var config, events :| NewTunnel(config).Ok? && ClocksBelowSaturation(events)
                          && s == Run(NewTunnel(config).value, events);
    RunKeeps(NewTunnel(config).value, events);
  }
}
