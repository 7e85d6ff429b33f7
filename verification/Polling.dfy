/** The contract between `poll` and `next_wake`. */
module Polling {
  import opened Machine
  import opened Time
  import opened Noise
  import opened Timers
  import opened TunnelModel
  import opened TunnelInvariant

  // ----- When poll is idle ---------------------------------------------------------

  /** Poll would send a keepalive of one of the three kinds. */
  predicate KeepaliveWanted(s: State, t: Ticks) {
    && s.Usable(t)
    && (|| s.timers.confirmKeepaliveDue
        || s.timers.PassiveKeepaliveDue(t)
        || (s.config.keepalive.Some? && PersistentDue(s, t)))
  }

  /** Poll would revive a dead tunnel for the sake of the persistent keepalive. */
  predicate RevivalWanted(s: State, t: Ticks) {
    && s.config.keepalive.Some? && !s.Usable(t)
    && s.timers.PersistentReviveAllowed(t, IntervalNanos(s.config.keepalive.value))
  }

  /** Poll would open a new handshake attempt. */
  predicate AttemptWanted(s: State, t: Ticks) {
    && s.inflight.None? && s.timers.InitiationAllowed(t)
    && (s.timers.rekeyDue || s.timers.DeadPeerDue(t) || RevivalWanted(s, t))
  }

  /** An exact guard for idleness, read off the state and the clock alone. */
  predicate IdleAt(s: State, t: Ticks) {
    var d := DropStaleNext(s, t);
    && !DiscardDue(d, t)
    && !RetransmitDue(d, t)
    && !AttemptWanted(d, t)
    && !KeepaliveWanted(d, t)
  }

  /** What an idle poll leaves behind: spent flags are gone and nothing else moved. */
  function Settled(s: State, t: Ticks): (r: State) {
    var d := DropStaleNext(s, t);
    d.(timers := d.timers.(
         rekeyDue := d.timers.rekeyDue && d.inflight.None?,
         confirmKeepaliveDue := d.timers.confirmKeepaliveDue && d.Usable(t),
         lastDataRx := if d.timers.PassiveKeepaliveDue(t) && !d.Usable(t) then None else d.timers.lastDataRx))
  }

  lemma TailIdle(s: State, now: Now, outLen: nat, rng: Entropy)
    ensures PollConfirm(s, now, outLen, rng).1 == Ok(Idle)
            <==> (&& !KeepaliveWanted(s, now.ticks)
                  && !(RevivalWanted(s, now.ticks) && s.inflight.None? && s.timers.InitiationAllowed(now.ticks)))
    ensures PollConfirm(s, now, outLen, rng).1 == Ok(Idle) ==>
              PollConfirm(s, now, outLen, rng).0
              == s.(timers := s.timers.(
                      confirmKeepaliveDue := s.timers.confirmKeepaliveDue && s.Usable(now.ticks),
                      lastDataRx := if s.timers.PassiveKeepaliveDue(now.ticks)
                          && !s.Usable(now.ticks) then None else s.timers.lastDataRx))
  {
    hide SendInitiation;
  }

  /** `poll` returns `Idle` exactly when nothing is wanted, whatever entropy and buffer it
      is given. */
  lemma PollIdleIff(s: State, now: Now, outLen: nat, rng: Entropy)
    ensures Poll(s, now, outLen, rng).1 == Ok(Idle) <==> IdleAt(AtClock(s, now), ClampTicks(s, now))
    ensures Poll(s, now, outLen, rng).1 == Ok(Idle) ==>
              Poll(s, now, outLen, rng).0 == Settled(AtClock(s, now), ClampTicks(s, now))
  {
    var n := Clamped(s, now);
    var d := DropStaleNext(AtClock(s, now), n.ticks);
    var cleared := d.(timers := d.timers.(rekeyDue := false));
    TailIdle(d, n, outLen, rng);
    TailIdle(cleared, n, outLen, rng);
    assert KeepaliveWanted(cleared, n.ticks) == KeepaliveWanted(d, n.ticks);
    assert RevivalWanted(cleared, n.ticks) == RevivalWanted(d, n.ticks);
    hide SendInitiation, PollConfirm, KeepaliveWanted, RevivalWanted;
  }

  // ----- No busy loop -----------------------------------------------------------------

  predicate Ahead(wake: Option<Ticks>, t: Ticks) {
    wake.Some? ==> wake.value > t
  }

  lemma MinAhead(a: Option<Ticks>, b: Option<Ticks>, t: Ticks)
    ensures Ahead(MinTick(a, b), t) <==> Ahead(a, t) && Ahead(b, t)
  {}

  /** The earliest deadline is ahead exactly when each of the seven is. */
  lemma NextWakeAheadIff(s: State, t: Ticks)
    ensures Ahead(NextWake(s), t) <==>
              && Ahead(WakeImmediate(s), t) && Ahead(WakeRetransmit(s), t) && Ahead(WakeDeadPeer(s), t)
              && Ahead(s.timers.PassiveKeepaliveAt(), t) && Ahead(WakeDiscard(s), t)
              && Ahead(WakeNextExpiry(s), t) && Ahead(WakePersistent(s), t)
  {
    var m1 := MinTick(WakeImmediate(s), WakeRetransmit(s));
    var m2 := MinTick(m1, WakeDeadPeer(s));
    var m3 := MinTick(m2, s.timers.PassiveKeepaliveAt());
    var m4 := MinTick(m3, WakeDiscard(s));
    var m5 := MinTick(m4, WakeNextExpiry(s));
    assert NextWake(s) == MinTick(m5, WakePersistent(s));
    hide MinTick, Ahead, WakeImmediate, WakeRetransmit, WakeDeadPeer, WakeDiscard, WakeNextExpiry, WakePersistent;
    MinAhead(m5, WakePersistent(s), t);
    MinAhead(m4, WakeNextExpiry(s), t);
    MinAhead(m3, WakeDiscard(s), t);
    MinAhead(m2, s.timers.PassiveKeepaliveAt(), t);
    MinAhead(m1, WakeDeadPeer(s), t);
    MinAhead(WakeImmediate(s), WakeRetransmit(s), t);
  }

  lemma SettledSessionsAhead(s: State, t: Ticks)
    requires t < U64_MAX && !DiscardDue(DropStaleNext(s, t), t)
    ensures Ahead(WakeDiscard(Settled(s, t)), t)
    ensures Ahead(WakeNextExpiry(Settled(s, t)), t)
  {}

  lemma SettledHandshakeAhead(s: State, t: Ticks)
    requires t < U64_MAX && IdleAt(s, t)
    ensures Ahead(WakeImmediate(Settled(s, t)), t)
    ensures Ahead(WakeRetransmit(Settled(s, t)), t)
    ensures Ahead(WakeDeadPeer(Settled(s, t)), t)
  {}

  lemma SettledKeepaliveAhead(s: State, t: Ticks)
    requires PacingInv(s) && s.lastNow == t < U64_MAX && IdleAt(s, t)
    ensures Ahead(Settled(s, t).timers.PassiveKeepaliveAt(), t)
    ensures Ahead(WakePersistent(Settled(s, t)), t)
  {}

  /** After an idle poll the next wake-up is absent or strictly later than the clock, in
      every state the invariant allows; the one exception is a saturated clock, at which
      no armed deadline can be later. */
  lemma NoBusyLoop(s: State, now: Now, outLen: nat, rng: Entropy)
    requires Inv(s)
    requires Poll(s, now, outLen, rng).1 == Ok(Idle)
    ensures Ahead(NextWake(Poll(s, now, outLen, rng).0), ClampTicks(s, now))
            <==> now.ticks < U64_MAX || NextWake(Poll(s, now, outLen, rng).0).None?
  {
    PollIdleIff(s, now, outLen, rng);
    var t := ClampTicks(s, now);
    if now.ticks < U64_MAX {
      ClockKeeps(s, now);
      SettledSessionsAhead(AtClock(s, now), t);
      SettledHandshakeAhead(AtClock(s, now), t);
      SettledKeepaliveAhead(AtClock(s, now), t);
      NextWakeAheadIff(Settled(AtClock(s, now), t), t);
    }
  }

  /** The guarantee as the embedder reads it, for reachable states. */
  lemma ReachableNoBusyLoop(s: State, now: Now, outLen: nat, rng: Entropy)
    requires Reachable(s) && now.ticks < U64_MAX
    requires Poll(s, now, outLen, rng).1 == Ok(Idle)
    ensures var wake := NextWake(Poll(s, now, outLen, rng).0);
            wake.None? || wake.value > now.ticks
  {
    ReachableInv(s);
    NoBusyLoop(s, now, outLen, rng);
  }

  // ----- No early action ----------------------------------------------------------------

  /** The session that `next_wake` counted on has died by `t`, and a revival is due at
      once although the advertised deadline is later. */
  predicate EarlyRevival(s: State, t: Ticks) {
    && s.config.keepalive.Some?
    && s.Usable(s.lastNow) && !s.Usable(t)
    && s.inflight.None?
    && s.timers.InitiationAllowed(t)
    && s.timers.PersistentReviveAllowed(t, IntervalNanos(s.config.keepalive.value))
  }

  lemma BeforeWakeQuiet(s: State, t: Ticks)
    requires Inv(s) && s.lastNow <= t && Ahead(NextWake(s), t)
    ensures DropStaleNext(s, t) == s
    ensures !DiscardDue(s, t) && !RetransmitDue(s, t)
    ensures !s.timers.PassiveKeepaliveDue(t)
    ensures s.inflight.None? && s.timers.InitiationAllowed(t) ==> !s.timers.rekeyDue && !s.timers.DeadPeerDue(t)
    ensures !s.timers.confirmKeepaliveDue
  {
    NextWakeAheadIff(s, t);
    hide NextWake;
  }

  lemma BeforeWakePersistent(s: State, t: Ticks)
    requires Inv(s) && s.lastNow <= t && Ahead(NextWake(s), t)
    ensures s.config.keepalive.Some? && s.Usable(t) ==> !PersistentDue(s, t)
    ensures RevivalWanted(s, t) && s.inflight.None? && s.timers.InitiationAllowed(t) ==> s.Usable(s.lastNow)
  {
    NextWakeAheadIff(s, t);
    hide NextWake;
  }

  /** Before the advertised wake-up `poll` is idle, except exactly for the early revival. */
  lemma NoEarlyAction(s: State, now: Now, outLen: nat, rng: Entropy)
    requires Inv(s) && Ahead(NextWake(s), ClampTicks(s, now))
    ensures Poll(s, now, outLen, rng).1 == Ok(Idle) <==> !EarlyRevival(s, ClampTicks(s, now))
  {
    var t := ClampTicks(s, now);
    PollIdleIff(s, now, outLen, rng);
    BeforeWakeQuiet(s, t);
    BeforeWakePersistent(s, t);
    assert DropStaleNext(AtClock(s, now), t) == AtClock(s, now);
    hide NextWake;
  }

  /** With no persistent keepalive, or while the current session's usability is what it
      was at the last call, nothing happens early. */
  lemma ReachableNoEarlyAction(s: State, now: Now, outLen: nat, rng: Entropy)
    requires Reachable(s) && Ahead(NextWake(s), ClampTicks(s, now))
    requires s.config.keepalive.None? || s.Usable(s.lastNow) == s.Usable(ClampTicks(s, now))
    ensures Poll(s, now, outLen, rng).1 == Ok(Idle)
  {
    ReachableInv(s);
    NoEarlyAction(s, now, outLen, rng);
  }

  // ----- Poll drains ----------------------------------------------------------------------

  /** What is left to do at one clock reading: the handshake slot and the keepalives. */
  function Pending(s: State, t: Ticks): (n: nat)
    ensures n <= 3
  {
    var d := DropStaleNext(s, t);
    var keepalive := if KeepaliveWanted(d, t) then 1 else 0;
    if DiscardDue(d, t) then 2
    else if RetransmitDue(d, t) then (if d.timers.AttemptExhausted(t) then 3 else 1 + keepalive)
    else (if d.inflight.None? then 1 else 0) + keepalive
  }

  predicate Busy(r: Result<PollOutput>) {
    r.Ok? && r.value != Idle
  }

  lemma KeepaliveSatisfied(s: State, t: Ticks, outLen: nat)
    requires Inv(s) && s.lastNow == t && s.Usable(t) && SendKeepalive(s, t, outLen).1.Ok?
    ensures !KeepaliveWanted(SendKeepalive(s, t, outLen).0, t)
  {}

  lemma InitiationSatisfied(s: State, now: Now, outLen: nat, rng: Entropy)
    requires Inv(s) && s.lastNow == now.ticks && SendInitiation(s, now, outLen, rng, true).1.Ok?
    ensures var a := SendInitiation(s, now, outLen, rng, true).0;
            && a.inflight.Some? && !RetransmitDue(a, now.ticks)
            && KeepaliveWanted(a, now.ticks) == KeepaliveWanted(s, now.ticks)
            && a.previous == s.previous && a.current == s.current && a.next == s.next
  {}

  lemma StartAttemptSatisfied(s: State, now: Now, outLen: nat, rng: Entropy)
    requires Inv(s) && s.lastNow == now.ticks && StartAttempt(s, now, outLen, rng).1.Ok?
    ensures var a := StartAttempt(s, now, outLen, rng).0;
            && a.inflight.Some? && !RetransmitDue(a, now.ticks)
            && KeepaliveWanted(a, now.ticks) == KeepaliveWanted(s, now.ticks)
            && a.previous == s.previous && a.current == s.current && a.next == s.next
  {
    var b := s.(timers := s.timers.(attemptStarted := None));
    assert Inv(b);
    InitiationSatisfied(b, now, outLen, rng);
    hide SendInitiation;
  }

  lemma UsableTailDecreases(s: State, now: Now, outLen: nat, rng: Entropy)
    requires Inv(s) && s.lastNow == now.ticks && s.Usable(now.ticks)
    requires DropStaleNext(s, now.ticks) == s && !DiscardDue(s, now.ticks) && !RetransmitDue(s, now.ticks)
    requires Busy(PollConfirm(s, now, outLen, rng).1)
    ensures Pending(PollConfirm(s, now, outLen, rng).0, now.ticks) < Pending(s, now.ticks)
  {
    var a := SendKeepalive(s, now.ticks, outLen);
    assert PollConfirm(s, now, outLen, rng).0 == a.0 && a.1.Ok? && KeepaliveWanted(s, now.ticks);
    KeepaliveSatisfied(s, now.ticks, outLen);
    hide KeepaliveWanted, PollConfirm, RekeyOnSend;
    assert DropStaleNext(a.0, now.ticks) == a.0 && !DiscardDue(a.0, now.ticks) && !RetransmitDue(a.0, now.ticks);
  }

  lemma RevivalDecreases(s: State, now: Now, outLen: nat, rng: Entropy)
    requires Inv(s) && s.lastNow == now.ticks && !s.Usable(now.ticks)
    requires DropStaleNext(s, now.ticks) == s && !DiscardDue(s, now.ticks) && !RetransmitDue(s, now.ticks)
    requires Busy(PollConfirm(s, now, outLen, rng).1)
    ensures Pending(PollConfirm(s, now, outLen, rng).0, now.ticks) < Pending(s, now.ticks)
  {
    var t := now.ticks;
    var a := s.(timers := s.timers.(confirmKeepaliveDue := false));
    var b := if a.timers.PassiveKeepaliveDue(t) then a.(timers := a.timers.(lastDataRx := None)) else a;
    var c := b.(timers := b.timers.(gaveUp := false));
    assert Inv(c) by { hide PollConfirm, Pending, DropStaleNext, DiscardDue; }
    hide StartAttempt;
    assert PollConfirm(s, now, outLen, rng) == StartAttempt(c, now, outLen, rng) && s.inflight.None? by {
      hide Inv, Pending, DropStaleNext, DiscardDue, RetransmitDue;
    }
    StartAttemptSatisfied(c, now, outLen, rng);
    hide PollConfirm, Inv;
  }

  /** A keepalive or a new attempt answers one pending item and creates none. */
  lemma TailDecreases(s: State, now: Now, outLen: nat, rng: Entropy)
    requires Inv(s) && s.lastNow == now.ticks
    requires DropStaleNext(s, now.ticks) == s && !DiscardDue(s, now.ticks) && !RetransmitDue(s, now.ticks)
    requires Busy(PollConfirm(s, now, outLen, rng).1)
    ensures Pending(PollConfirm(s, now, outLen, rng).0, now.ticks) < Pending(s, now.ticks)
  {
    if s.Usable(now.ticks) {
      UsableTailDecreases(s, now, outLen, rng);
    } else {
      RevivalDecreases(s, now, outLen, rng);
    }
  }

  lemma RekeyDecreases(s: State, now: Now, outLen: nat, rng: Entropy)
    requires Inv(s) && s.lastNow == now.ticks
    requires DropStaleNext(s, now.ticks) == s && !DiscardDue(s, now.ticks) && !RetransmitDue(s, now.ticks)
    requires Busy(PollRekey(s, now, outLen, rng).1)
    ensures Pending(PollRekey(s, now, outLen, rng).0, now.ticks) < Pending(s, now.ticks)
  {
    hide StartAttempt, PollConfirm;
    var cleared := s.(timers := s.timers.(rekeyDue := false));
    if s.timers.rekeyDue && s.inflight.Some? {
      assert Inv(cleared);
      hide Inv;
      assert PollRekey(s, now, outLen, rng) == PollConfirm(cleared, now, outLen, rng);
      TailDecreases(cleared, now, outLen, rng);
      assert KeepaliveWanted(cleared, now.ticks) == KeepaliveWanted(s, now.ticks);
    } else if s.inflight.None? && s.timers.InitiationAllowed(now.ticks)
              && (s.timers.rekeyDue || s.timers.DeadPeerDue(now.ticks)) {
      hide Inv;
      assert PollRekey(s, now, outLen, rng) == StartAttempt(s, now, outLen, rng);
      StartAttemptSatisfied(s, now, outLen, rng);
      hide KeepaliveWanted, PollRekey;
    } else {
      hide Inv;
      assert PollRekey(s, now, outLen, rng) == PollConfirm(s, now, outLen, rng);
      TailDecreases(s, now, outLen, rng);
    }
  }

  lemma HandshakeDecreases(s: State, now: Now, outLen: nat, rng: Entropy)
    requires Inv(s) && s.lastNow == now.ticks
    requires DropStaleNext(s, now.ticks) == s && !DiscardDue(s, now.ticks) && RetransmitDue(s, now.ticks)
    requires Busy(PollHandshake(s, now, outLen, rng).1)
    ensures Pending(PollHandshake(s, now, outLen, rng).0, now.ticks) < Pending(s, now.ticks)
  {
    if !s.timers.AttemptExhausted(now.ticks) {
      InitiationSatisfied(s, now, outLen, rng);
      hide SendInitiation;
    }
  }

  lemma DiscardDecreases(s: State, t: Ticks)
    requires DropStaleNext(s, t) == s && DiscardDue(s, t)
    ensures Pending(DiscardAll(s), t) < Pending(s, t)
  {}

  /** Every poll that did something has strictly less left to do at the same instant. */
  lemma PollDecreases(s: State, now: Now, outLen: nat, rng: Entropy)
    requires Inv(s) && now.ticks < U64_MAX
    requires Busy(Poll(s, now, outLen, rng).1)
    ensures Pending(Poll(s, now, outLen, rng).0, ClampTicks(s, now)) < Pending(AtClock(s, now), ClampTicks(s, now))
  {
    ClockKeeps(s, now);
    var n := Clamped(s, now);
    var d := DropStaleNext(AtClock(s, now), n.ticks);
    DropOrDiscardKeeps(AtClock(s, now));
    assert DropStaleNext(d, n.ticks) == d;
    assert Pending(d, n.ticks) == Pending(AtClock(s, now), n.ticks);
    hide Pending, DiscardAll, PollHandshake, PollRekey, DropStaleNext;
    if DiscardDue(d, n.ticks) {
      DiscardDecreases(d, n.ticks);
    } else if RetransmitDue(d, n.ticks) {
      HandshakeDecreases(d, n, outLen, rng);
    } else {
      RekeyDecreases(d, n, outLen, rng);
    }
  }

  /** One call in a poll loop. */
  datatype Call = Call(now: Now, outLen: nat, rng: Entropy)

  function AfterCalls(s: State, calls: seq<Call>): (r: State) {
    if calls == [] then s else
    var c := calls[|calls| - 1];
    Poll(AfterCalls(s, calls[..|calls| - 1]), c.now, c.outLen, c.rng).0
  }

  /** Every call is made at clock reading `t` and does something. */
  predicate AllBusyAt(s: State, calls: seq<Call>, t: Ticks) {
    calls == []
    || (var c := calls[|calls| - 1];
        && AllBusyAt(s, calls[..|calls| - 1], t)
        && c.now.ticks == t
        && Busy(Poll(AfterCalls(s, calls[..|calls| - 1]), c.now, c.outLen, c.rng).1))
  }

  lemma {:induction false} BusyCallsConsume(s: State, calls: seq<Call>, t: Ticks)
    requires Inv(s) && s.lastNow <= t < U64_MAX && AllBusyAt(s, calls, t)
    ensures Inv(AfterCalls(s, calls)) && s.lastNow <= AfterCalls(s, calls).lastNow <= t
    ensures |calls| + Pending(AfterCalls(s, calls).(lastNow := t), t) <= Pending(s.(lastNow := t), t)
  {
    if calls != [] {
      var before := calls[..|calls| - 1];
      var c := calls[|calls| - 1];
      BusyCallsConsume(s, before, t);
      var b := AfterCalls(s, before);
      PollKeeps(b, c.now, c.outLen, c.rng);
      PollDecreases(b, c.now, c.outLen, c.rng);
      PollClock(b, c.now, c.outLen, c.rng);
      assert AtClock(b, c.now) == b.(lastNow := t);
      hide Pending, Poll, Inv;
    }
  }

  lemma StartAttemptClock(s: State, now: Now, outLen: nat, rng: Entropy)
    ensures StartAttempt(s, now, outLen, rng).0.lastNow == s.lastNow
    ensures SendInitiation(s, now, outLen, rng, true).0.lastNow == s.lastNow
  {}

  lemma PollTailClock(s: State, now: Now, outLen: nat, rng: Entropy)
    ensures PollConfirm(s, now, outLen, rng).0.lastNow == s.lastNow
  {
    var a := s.(timers := s.timers.(confirmKeepaliveDue := false));
    var b := if s.timers.PassiveKeepaliveDue(now.ticks) then a.(timers := a.timers.(lastDataRx := None)) else a;
    StartAttemptClock(b.(timers := b.timers.(gaveUp := false)), now, outLen, rng);
    StartAttemptClock(s.(timers := s.timers.(gaveUp := false)), now, outLen, rng);
    hide StartAttempt;
  }

  lemma PollClock(s: State, now: Now, outLen: nat, rng: Entropy)
    ensures Poll(s, now, outLen, rng).0.lastNow == ClampTicks(s, now)
  {
    var n := Clamped(s, now);
    var d := DropStaleNext(AtClock(s, now), n.ticks);
    var cleared := d.(timers := d.timers.(rekeyDue := false));
    StartAttemptClock(d, n, outLen, rng);
    PollTailClock(d, n, outLen, rng);
    StartAttemptClock(cleared, n, outLen, rng);
    PollTailClock(cleared, n, outLen, rng);
    hide StartAttempt, SendInitiation, PollConfirm;
  }

  /** At one clock reading, at most three polls in a row do something; the embedder's loop
      reaches `Idle` on the fourth at the latest. */
  lemma PollDrains(s: State, calls: seq<Call>, t: Ticks)
    requires Reachable(s) && s.lastNow <= t < U64_MAX && AllBusyAt(s, calls, t)
    ensures |calls| <= 3
  {
    ReachableInv(s);
    BusyCallsConsume(s, calls, t);
  }

  /** Once idle, `poll` stays idle at the same reading, and changes nothing more. */
  lemma IdleIsStable(s: State, now: Now, outLen: nat, rng: Entropy, outLen2: nat, rng2: Entropy)
    requires Inv(s) && Poll(s, now, outLen, rng).1 == Ok(Idle)
    ensures var a := Poll(s, now, outLen, rng).0;
            Poll(a, now, outLen2, rng2) == (a, Ok(Idle))
  {
    PollIdleIff(s, now, outLen, rng);
    var a, t := Poll(s, now, outLen, rng).0, ClampTicks(s, now);
    PollIdleIff(a, now, outLen2, rng2);
    hide Poll;
    assert ClampTicks(a, now) == t && AtClock(a, now) == a;
  }
}
