/** `src/timers.rs`: when things last happened, what is due, and when it falls due. */
module Timers {
  import opened Machine
  import opened Time

  const SECOND: int := 1_000_000_000
  const REKEY_ATTEMPT_TIME: u64 := 90_000_000_000
  const REKEY_TIMEOUT: u64 := 5_000_000_000
  const KEEPALIVE_TIMEOUT: u64 := 10_000_000_000
  const DEAD_PEER_TIMEOUT: u64 := 15_000_000_000
  const REKEY_TIMEOUT_JITTER_MAX: u64 := 333_000_000

  datatype TimerState = TimerState(
    lastDataTx: Option<Ticks>,
    lastDataRx: Option<Ticks>,
    lastAnyTx: Option<Ticks>,
    lastAnyRx: Option<Ticks>,
    attemptStarted: Option<Ticks>,
    retransmitAt: Option<Ticks>,
    lastInitiationTx: Option<Ticks>,
    rekeyDue: bool,
    confirmKeepaliveDue: bool,
    gaveUp: bool)
  {
    // ----- What each event records -------------------------------------------

    function NoteDataTx(now: Ticks): (r: TimerState) {
      this.(lastDataTx := Some(now), lastAnyTx := Some(now), confirmKeepaliveDue := false, gaveUp := false)
    }

    function NoteKeepaliveTx(now: Ticks): (r: TimerState) {
      this.(lastAnyTx := Some(now), confirmKeepaliveDue := false)
    }

    function NoteRx(now: Ticks, isKeepalive: bool): (r: TimerState) {
      this.(lastAnyRx := Some(now), lastDataRx := if isKeepalive then lastDataRx else Some(now), gaveUp := false)
    }

    function NoteInitiationTx(now: Ticks, jitter: u64): (r: TimerState) {
      this.(attemptStarted := if attemptStarted.None? then Some(now) else attemptStarted,
            lastInitiationTx := Some(now),
            retransmitAt := Some(AddNanos(AddNanos(now, REKEY_TIMEOUT),
                                          if jitter <= REKEY_TIMEOUT_JITTER_MAX then jitter
                                          else REKEY_TIMEOUT_JITTER_MAX)),
            rekeyDue := false)
    }

    function NoteHandshakeComplete(): (r: TimerState) {
      this.(attemptStarted := None, retransmitAt := None, rekeyDue := false, gaveUp := false)
    }

    function NoteGaveUp(): (r: TimerState) {
      this.(attemptStarted := None, retransmitAt := None, rekeyDue := false, gaveUp := true)
    }

    // ----- What is due --------------------------------------------------------

    predicate AttemptExhausted(now: Ticks) {
      attemptStarted.Some? && Since(now, attemptStarted.value) >= REKEY_ATTEMPT_TIME
    }

    predicate InitiationAllowed(now: Ticks) {
      lastInitiationTx.None? || Since(now, lastInitiationTx.value) >= REKEY_TIMEOUT
    }

    predicate RxUnanswered() {
      lastDataRx.Some? && (lastAnyTx.None? || lastAnyTx.value < lastDataRx.value)
    }

    predicate TxUnanswered() {
      lastDataTx.Some? && (lastAnyRx.None? || lastAnyRx.value < lastDataTx.value)
    }

    predicate PassiveKeepaliveDue(now: Ticks) {
      RxUnanswered() && Since(now, lastDataRx.value) >= KEEPALIVE_TIMEOUT
    }

    predicate DeadPeerDue(now: Ticks) {
      !gaveUp && TxUnanswered() && Since(now, lastDataTx.value) >= DEAD_PEER_TIMEOUT
    }

    predicate PersistentReviveAllowed(now: Ticks, interval: u64) {
      !gaveUp || lastInitiationTx.None? || Since(now, lastInitiationTx.value) >= interval
    }

    // ----- When it falls due --------------------------------------------------

    function PassiveKeepaliveAt(): (r: Option<Ticks>) {
      if RxUnanswered() then Some(AddNanos(lastDataRx.value, KEEPALIVE_TIMEOUT)) else None
    }

    function DeadPeerAt(): (r: Option<Ticks>) {
      if !gaveUp && TxUnanswered() then Some(AddNanos(lastDataTx.value, DEAD_PEER_TIMEOUT)) else None
    }

    /** The instant from which `InitiationAllowed` holds. */
    function PacingAt(): (r: Ticks) {
      if lastInitiationTx.Some? then AddNanos(lastInitiationTx.value, REKEY_TIMEOUT) else 0
    }
  }

  const DEFAULT_TIMERS: TimerState := TimerState(None, None, None, None, None, None, None, false, false, false)

  /** Each deadline accessor names exactly the first instant at which its predicate
      holds, at every clock reading below saturation. */
  lemma DeadlinesMatchPredicates(t: TimerState, now: Ticks)
    requires now < U64_MAX
    ensures t.PassiveKeepaliveDue(now) <==> t.PassiveKeepaliveAt().Some? && t.PassiveKeepaliveAt().value <= now
    ensures t.DeadPeerDue(now) <==> t.DeadPeerAt().Some? && t.DeadPeerAt().value <= now
    ensures t.InitiationAllowed(now) <==> t.PacingAt() <= now
  {}

  /** The timers as the source keeps them, one field per event. */
  class TimerSet {
    var lastDataTx: Option<Ticks>
    var lastDataRx: Option<Ticks>
    var lastAnyTx: Option<Ticks>
    var lastAnyRx: Option<Ticks>
    var attemptStarted: Option<Ticks>
    var retransmitAt: Option<Ticks>
    var lastInitiationTx: Option<Ticks>
    var rekeyDue: bool
    var confirmKeepaliveDue: bool
    var gaveUp: bool

    function Contents(): (t: TimerState)
      reads this
    {
      TimerState(lastDataTx, lastDataRx, lastAnyTx, lastAnyRx, attemptStarted, retransmitAt, lastInitiationTx,
                 rekeyDue, confirmKeepaliveDue, gaveUp)
    }

    constructor ()
      ensures Contents() == DEFAULT_TIMERS
    {
      lastDataTx, lastDataRx, lastAnyTx, lastAnyRx := None, None, None, None;
      attemptStarted, retransmitAt, lastInitiationTx := None, None, None;
      rekeyDue, confirmKeepaliveDue, gaveUp := false, false, false;
    }

    method NoteDataTx(now: Ticks)
      modifies this
      ensures Contents() == old(Contents()).NoteDataTx(now)
    {
      lastDataTx := Some(now);
      lastAnyTx := Some(now);
      confirmKeepaliveDue := false;
      gaveUp := false;
    }

    method NoteKeepaliveTx(now: Ticks)
      modifies this
      ensures Contents() == old(Contents()).NoteKeepaliveTx(now)
    {
      lastAnyTx := Some(now);
      confirmKeepaliveDue := false;
    }

    method NoteRx(now: Ticks, isKeepalive: bool)
      modifies this
      ensures Contents() == old(Contents()).NoteRx(now, isKeepalive)
    {
      lastAnyRx := Some(now);
      if !isKeepalive {
        lastDataRx := Some(now);
      }
      gaveUp := false;
    }

    method NoteInitiationTx(now: Ticks, jitter: u64)
      modifies this
      ensures Contents() == old(Contents()).NoteInitiationTx(now, jitter)
    {
      if attemptStarted.None? {
        attemptStarted := Some(now);
      }
      lastInitiationTx := Some(now);
      var clamped := if jitter <= REKEY_TIMEOUT_JITTER_MAX then jitter else REKEY_TIMEOUT_JITTER_MAX;
      retransmitAt := Some(AddNanos(AddNanos(now, REKEY_TIMEOUT), clamped));
      rekeyDue := false;
    }

    method NoteHandshakeComplete()
      modifies this
      ensures Contents() == old(Contents()).NoteHandshakeComplete()
    {
      attemptStarted := None;
      retransmitAt := None;
      rekeyDue := false;
      gaveUp := false;
    }

    method NoteGaveUp()
      modifies this
      ensures Contents() == old(Contents()).NoteGaveUp()
    {
      attemptStarted := None;
      retransmitAt := None;
      rekeyDue := false;
      gaveUp := true;
    }

    /** A fresh attempt by the caller: no longer given up, no attempt running. */
    method StartOver()
      modifies this`gaveUp, this`attemptStarted
      ensures Contents() == old(Contents()).(gaveUp := false, attemptStarted := None)
    {
      gaveUp := false;
      attemptStarted := None;
    }

    /** Everything back to its default except the pacing of initiations. */
    method Restart()
      modifies this
      ensures Contents() == DEFAULT_TIMERS.(lastInitiationTx := old(lastInitiationTx))
    {
      lastDataTx, lastDataRx, lastAnyTx, lastAnyRx := None, None, None, None;
      attemptStarted, retransmitAt := None, None;
      rekeyDue, confirmKeepaliveDue, gaveUp := false, false, false;
    }
  }
}
