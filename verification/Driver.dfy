/** The loop that `poll` asks its embedder to run, on the live object: poll at one clock reading
    until there is nothing to do, then sleep until `next_wake`. */
module Driver {
  import opened Machine
  import opened Time
  import opened TunnelInvariant
  import Model = TunnelModel
  import Polling
  import Replay
  import T = Tunnel

  /** How many more polls at this reading can do something: at most three. */
  ghost function Left(s: Model.State, now: Now): (n: nat)
    ensures n <= 3
  {
    Polling.Pending(Model.AtClock(s, now), now.ticks)
  }

  /** One poll and, if it is idle, the question that follows it: no wake-up, or one that is strictly
      later than the clock. */
  method PollOnce(t: T.Tunnel, now: Now, out: T.OutBuffer, rng: Model.Entropy)
    returns (p: Result<Model.PollOutput>, wake: Option<Ticks>)
    requires t.Valid() && out !in t.Owned() && Inv(t.View()) && t.View().lastNow <= now.ticks < U64_MAX
    modifies t, t.timers, t.current, out`content
    ensures t.Valid() && t.Owned() <= old(t.Owned()) && Inv(t.View()) && t.View().lastNow == now.ticks
    ensures p.Err? ==> p.error != Internal
    ensures p == Ok(Model.Idle) ==> wake.None? || wake.value > now.ticks
    ensures p.Ok? && p != Ok(Model.Idle) ==> Left(t.View(), now) < Left(old(t.View()), now)
  {
    hide Inv, Model.Poll, Model.NextWake, Left, T.Tunnel.View, Replay.Represents;
    ghost var s := t.View();
    p := t.Poll(now, out, rng);
    wake := None;
    PollKeeps(s, now, out.len, rng);
    AtReading(s, now, out.len, rng);
    if p == Ok(Model.Idle) {
      Polling.NoBusyLoop(s, now, out.len, rng);
      wake := t.NextWake();
    }
  }

  lemma AtReading(s: Model.State, now: Now, outLen: nat, rng: Model.Entropy)
    requires Inv(s) && s.lastNow <= now.ticks < U64_MAX
    ensures var (s', p) := Model.Poll(s, now, outLen, rng);
            && s'.lastNow == now.ticks
            && (p.Ok? && p != Ok(Model.Idle) ==> Left(s', now) < Left(s, now))
  {
    hide Inv, Polling.Pending;
    Polling.PollClock(s, now, outLen, rng);
    if Polling.Busy(Model.Poll(s, now, outLen, rng).1) {
      Polling.PollDecreases(s, now, outLen, rng);
    }
  }

  /** The loop ends: unless a call fails, the fourth poll at the latest is idle, and the object
      then asks for no wake-up or for one that is strictly later than the clock. */
  method Drain(t: T.Tunnel, now: Now, out: T.OutBuffer, rng: seq<Model.Entropy>)
    returns (polls: nat, r: Result<Option<Ticks>>)
    requires t.Valid() && out !in t.Owned() && Inv(t.View()) && t.View().lastNow <= now.ticks < U64_MAX
    requires |rng| > Left(t.View(), now)
    modifies t, t.timers, t.Owned(), out`content
    ensures t.Valid() && t.Owned() <= old(t.Owned()) && Inv(t.View())
    ensures 1 <= polls <= 1 + Left(old(t.View()), now) <= 4
    ensures r.Err? ==> r.error != Internal
    ensures r.Ok? ==> r.value.None? || r.value.value > now.ticks
    decreases Left(t.View(), now)
  {
    hide Inv, Left, T.Tunnel.View, Replay.Represents;
    var p, wake := PollOnce(t, now, out, rng[0]);
    if p.Err? {
      return 1, Err(ErrorOf(p));
    }
    if p.value.Idle? {
      return 1, Ok(wake);
    }
    polls, r := Drain(t, now, out, rng[1..]);
    polls := polls + 1;
  }
}
