/** `src/session.rs`: one keypair of a completed handshake with its counter and replay window,
    for any kind of key. */
module Sessions {
  import opened Machine
  import opened Time
  import opened Replay

  const REJECT_AFTER_TIME: u64 := 180_000_000_000

  datatype KeyPair<K> = SessionKeys(send: K, recv: K, localIndex: u32, peerIndex: u32, isInitiator: bool)

  /** A session with its replay window as the set of accepted counters. */
  datatype SessionOf<K> = Session(keys: KeyPair<K>, sendCounter: u64, seen: set<u64>, created: Ticks, confirmed: bool)
  {
    function Age(now: Ticks): (r: u64) { Since(now, created) }

    predicate UsableForSend(now: Ticks) {
      confirmed && sendCounter < REJECT_AFTER_MESSAGES && Age(now) < REJECT_AFTER_TIME
    }
  }

  function NewSession<K>(keys: KeyPair<K>, created: Ticks): (s: SessionOf<K>) {
    Session(keys, 0, {}, created, keys.isInitiator)
  }

  class LiveSession<K> {
    const keys: KeyPair<K>
    var sendCounter: u64
    const replay: ReplayWindow
    const created: Ticks
    var confirmed: bool

    ghost function Parts(): (p: set<object>) { {this, replay, replay.bitmap} }

    ghost predicate Valid()
      reads this, replay, replay.bitmap
    {
      replay.Valid()
    }

    ghost function View(): (v: SessionOf<K>)
      reads this, replay
    {
      Session(keys, sendCounter, replay.seen, created, confirmed)
    }

    constructor (k: KeyPair<K>, at: Ticks)
      ensures Valid() && View() == NewSession(k, at) && fresh(Parts())
    {
      keys := k;
      sendCounter := 0;
      replay := new ReplayWindow();
      created := at;
      confirmed := k.isInitiator;
    }

    function Age(now: Ticks): (r: u64) { Since(now, created) }

    predicate UsableForSend(now: Ticks)
      reads this
    {
      confirmed && sendCounter < REJECT_AFTER_MESSAGES && Age(now) < REJECT_AFTER_TIME
    }

    /** A counter below the limit is handed out once; at the limit nothing is, and the addition
        cannot overflow on the way there. */
    method NextCounter() returns (r: Result<u64>)
      modifies this`sendCounter
      ensures r == if old(sendCounter) >= REJECT_AFTER_MESSAGES then Err(Expired) else Ok(old(sendCounter))
      ensures sendCounter == if r.Ok? then old(sendCounter) + 1 else old(sendCounter)
    {
      if sendCounter >= REJECT_AFTER_MESSAGES {
        return Err(Expired);
      }
      var counter := sendCounter;
      if sendCounter == U64_MAX {
        return Err(Internal);
      }
      sendCounter := sendCounter + 1;
      r := Ok(counter);
    }
  }
}
