/** One handshake attempt from its first initiation to its abandonment. */
module TunnelAttempts {
  import opened Machine
  import opened Time
  import opened Terms
  import opened Noise
  import opened Timers
  import opened TunnelModel
  import opened TunnelInvariant
  import opened TunnelRuns
  import opened Polling
  import Cookie

  predicate IsRetransmit(r: Result<PollOutput>) {
    r.Ok? && r.value.Send? && r.value.reason == Retransmit
  }

  predicate EndsAttempt(r: Result<PollOutput>) {
    r == Ok(HandshakeExpired) || r == Ok(SessionsExpired)
  }

  /** The attempt that began at `started` is still in flight. */
  predicate InAttempt(s: State, started: Ticks) {
    && s.inflight.Some?
    && s.timers.attemptStarted == Some(started)
    && s.timers.lastInitiationTx.Some?
  }

  /** A poll inside an attempt either ends it, or retransmits at least five seconds after
      the last initiation and less than ninety after the first, or sends no initiation. */
  predicate Continues(s: State, started: Ticks, t: Ticks, after: (State, Result<PollOutput>))
    requires s.timers.lastInitiationTx.Some?
  {
    || EndsAttempt(after.1)
    || (&& InAttempt(after.0, started)
        && (if IsRetransmit(after.1)
            then after.0.timers.lastInitiationTx == Some(t)
                 && t >= s.timers.lastInitiationTx.value + REKEY_TIMEOUT && t < started + REKEY_ATTEMPT_TIME
            else after.0.timers.lastInitiationTx == s.timers.lastInitiationTx))
  }

  lemma KeepaliveContinues(s: State, started: Ticks, t: Ticks, outLen: nat, reason: SendReason)
    requires InAttempt(s, started) && s.Usable(t) && reason != Retransmit
    ensures Continues(s, started, t, AsSend(SendKeepalive(s, t, outLen), reason))
  {}

  lemma TailContinues(s: State, started: Ticks, now: Now, outLen: nat, rng: Entropy)
    requires InAttempt(s, started)
    ensures Continues(s, started, now.ticks, PollConfirm(s, now, outLen, rng))
  {
    if s.Usable(now.ticks) {
      KeepaliveContinues(s, started, now.ticks, outLen, KeepaliveSend);
      KeepaliveContinues(s, started, now.ticks, outLen, PersistentSend);
    }
    hide SendKeepalive, StartAttempt;
  }

  lemma RekeyContinues(s: State, started: Ticks, now: Now, outLen: nat, rng: Entropy)
    requires InAttempt(s, started)
    ensures Continues(s, started, now.ticks, PollRekey(s, now, outLen, rng))
  {
    TailContinues(s, started, now, outLen, rng);
    TailContinues(s.(timers := s.timers.(rekeyDue := false)), started, now, outLen, rng);
    hide PollConfirm, StartAttempt;
  }

  lemma HandshakeContinues(s: State, started: Ticks, now: Now, outLen: nat, rng: Entropy)
    requires InAttempt(s, started) && PacingInv(s) && RetransmitDue(s, now.ticks) && now.ticks < U64_MAX
    ensures Continues(s, started, now.ticks, PollHandshake(s, now, outLen, rng))
  {}

  lemma PollContinues(s: State, started: Ticks, now: Now, outLen: nat, rng: Entropy)
    requires Inv(s) && now.ticks < U64_MAX && InAttempt(s, started)
    ensures Continues(s, started, ClampTicks(s, now), Poll(s, now, outLen, rng))
  {
    ClockKeeps(s, now);
    var n := Clamped(s, now);
    DropOrDiscardKeeps(AtClock(s, now));
    var d := DropStaleNext(AtClock(s, now), n.ticks);
    assert PacingInv(d) && InAttempt(d, started) && d.timers == s.timers;
    hide PollHandshake, PollRekey, Inv, TimesInv, PacingInv, SlotInv, DropStaleNext;
    if RetransmitDue(d, n.ticks) {
      HandshakeContinues(d, started, n, outLen, rng);
    } else {
      RekeyContinues(d, started, n, outLen, rng);
    }
  }

  // ----- Counting ---------------------------------------------------------------------------

  predicate CallsBelowSaturation(calls: seq<Call>) {
    forall i :: 0 <= i < |calls| ==> calls[i].now.ticks < U64_MAX
  }

  function ResultOf(s: State, calls: seq<Call>): (r: Result<PollOutput>)
    requires calls != []
  {
    var c := calls[|calls| - 1];
    Poll(AfterCalls(s, calls[..|calls| - 1]), c.now, c.outLen, c.rng).1
  }

  /** How many of the polls retransmitted. */
  function Retransmissions(s: State, calls: seq<Call>): (n: nat) {
    if calls == [] then 0
    else Retransmissions(s, calls[..|calls| - 1]) + if IsRetransmit(ResultOf(s, calls)) then 1 else 0
  }

  predicate NoneEnds(s: State, calls: seq<Call>) {
    calls == [] || (NoneEnds(s, calls[..|calls| - 1]) && !EndsAttempt(ResultOf(s, calls)))
  }

  lemma {:induction false} RetransmissionsTakeTime(s: State, started: Ticks, calls: seq<Call>)
    requires Inv(s) && CallsBelowSaturation(calls) && NoneEnds(s, calls)
    requires InAttempt(s, started) && s.timers.lastInitiationTx == Some(started)
    ensures Inv(AfterCalls(s, calls)) && InAttempt(AfterCalls(s, calls), started)
    ensures var last := AfterCalls(s, calls).timers.lastInitiationTx.value;
            && last >= started + Retransmissions(s, calls) * REKEY_TIMEOUT
            && last < started + REKEY_ATTEMPT_TIME
  {
    if calls != [] {
      var before, c := calls[..|calls| - 1], calls[|calls| - 1];
      RetransmissionsTakeTime(s, started, before);
      var b := AfterCalls(s, before);
      PollKeeps(b, c.now, c.outLen, c.rng);
      PollContinues(b, started, c.now, c.outLen, c.rng);
      hide Inv, Poll;
    }
  }

  /** One attempt driven only by polls sends at most 18 initiations: the first, and at most
      17 more before it is abandoned. */
  lemma AtMostEighteen(s: State, started: Ticks, calls: seq<Call>)
    requires Reachable(s) && CallsBelowSaturation(calls) && NoneEnds(s, calls)
    requires InAttempt(s, started) && s.timers.lastInitiationTx == Some(started)
    ensures 1 + Retransmissions(s, calls) <= 18
  {
    ReachableInv(s);
    RetransmissionsTakeTime(s, started, calls);
  }

  // ----- The bound is reached -----------------------------------------------------------------

  const EXAMPLE: Config := Config(Static(Alice), Pub(Static(Bob)), EMPTY, None, None)

  function ExampleRng(k: nat): (e: Entropy) {
    Entropy([Some(k % 2)], Some(Draw(Alice, k)), Some(0), Cookie.JarEntropy(None, None))
  }

  function ExampleNow(k: nat): (n: Now)
    requires k <= 18
  {
    Now(5_000_000_000 * k, 0, 0)
  }

  /** One initiation at zero, then a poll every five seconds. */
  function ExampleCalls(k: nat): (c: seq<Call>)
    requires k <= 17
    ensures |c| == k
  {
    if k == 0 then [] else ExampleCalls(k - 1) + [Call(ExampleNow(k), 148, ExampleRng(k))]
  }

  function ExampleStart(): (s: State) {
    InitiateHandshake(NewTunnel(EXAMPLE).value, ExampleNow(0), 148, ExampleRng(0)).0
  }

  predicate ExampleShape(s: State, k: nat)
    requires k <= 17
  {
    && s.config == EXAMPLE
    && s.inflight.Some? && s.inflight.value.localIndex == k % 2
    && s.previous.None? && s.current.None? && s.next.None?
    && s.lastNow == ExampleNow(k).ticks
    && s.timers == TimerState(None, None, None, None, Some(0), Some(ExampleNow(k + 1).ticks),
        Some(ExampleNow(k).ticks), false, false, false)
  }

  lemma ExampleStep(s: State, k: nat)
    requires 1 <= k <= 17 && ExampleShape(s, k - 1)
    ensures var (s', r) := Poll(s, ExampleNow(k), 148, ExampleRng(k));
            ExampleShape(s', k) && IsRetransmit(r) && !EndsAttempt(r)
  {
    hide OutgoingStamp;
    assert FreshIndex(DropStaleNext(AtClock(s, ExampleNow(k)), ExampleNow(k).ticks), ExampleRng(k).indices, 0)
        == Ok(k % 2);
  }

  lemma ExampleBase()
    ensures ExampleShape(ExampleStart(), 0)
    ensures AfterCalls(ExampleStart(), ExampleCalls(0)) == ExampleStart()
    ensures NoneEnds(ExampleStart(), ExampleCalls(0)) && Retransmissions(ExampleStart(), ExampleCalls(0)) == 0
  {
    hide OutgoingStamp, Poll;
    assert FreshIndex(NewTunnel(EXAMPLE).value, ExampleRng(0).indices, 0) == Ok(0);
  }

  lemma {:induction false} ExampleRun(k: nat)
    requires k <= 17
    ensures ExampleShape(AfterCalls(ExampleStart(), ExampleCalls(k)), k)
    ensures NoneEnds(ExampleStart(), ExampleCalls(k))
    ensures Retransmissions(ExampleStart(), ExampleCalls(k)) == k
  {
    hide Poll, InitiateHandshake, ExampleShape, OutgoingStamp;
    if k == 0 {
      ExampleBase();
    } else {
      ExampleRun(k - 1);
      assert ExampleCalls(k)[..k - 1] == ExampleCalls(k - 1);
      ExampleStep(AfterCalls(ExampleStart(), ExampleCalls(k - 1)), k);
    }
  }

  lemma {:induction false} CallsAreEarly(k: nat)
    requires k <= 17
    ensures CallsBelowSaturation(ExampleCalls(k))
  {
    if k > 0 { CallsAreEarly(k - 1); }
  }

  lemma ExampleIsReachable()
    ensures Reachable(ExampleStart())
  {
    hide InitiateHandshake;
    var events := [DoInitiate(ExampleNow(0), 148, ExampleRng(0))];
    assert events[..0] == [];
    assert NewTunnel(EXAMPLE).Ok? && ClocksBelowSaturation(events);
    assert Run(NewTunnel(EXAMPLE).value, events) == ExampleStart();
  }

  lemma ExampleExpires(s: State)
    requires ExampleShape(s, 17)
    ensures Poll(s, ExampleNow(18), 148, ExampleRng(18)).1 == Ok(HandshakeExpired)
  {
    hide SendInitiation;
  }

  /** Eighteen initiations in one attempt do happen, from a state that a run reaches, and the
      nineteenth poll abandons it. */
  lemma EighteenIsReached()
    ensures Reachable(ExampleStart()) && CallsBelowSaturation(ExampleCalls(17))
    ensures InAttempt(ExampleStart(), 0) && ExampleStart().timers.lastInitiationTx == Some(0)
    ensures NoneEnds(ExampleStart(), ExampleCalls(17))
    ensures 1 + Retransmissions(ExampleStart(), ExampleCalls(17)) == 18
    ensures Poll(AfterCalls(ExampleStart(), ExampleCalls(17)), ExampleNow(18), 148, ExampleRng(18)).1
      == Ok(HandshakeExpired)
  {
    hide InitiateHandshake, Poll, Reachable, ExampleCalls, NoneEnds, Retransmissions, CallsBelowSaturation;
    ExampleIsReachable();
    CallsAreEarly(17);
    ExampleBase();
    ExampleRun(17);
    ExampleExpires(AfterCalls(ExampleStart(), ExampleCalls(17)));
  }
}
