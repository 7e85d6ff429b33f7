/** `src/tunnel.rs` and `src/session.rs` as they run: sessions move between slots, timers and
    counters change in place, replies are written into the caller's buffer.  Every method is
    proved to perform the step of the same name in `TunnelModel`. */
module Tunnel {
  import opened Machine
  import opened Time
  import opened Terms
  import opened Noise
  import opened Sessions
  import opened Cookie
  import opened Rotation
  import opened Timers
  import opened Replay
  import Model = TunnelModel
  import Effects = TunnelEffects

  /** What the caller's buffer holds: whatever was there before, a datagram, a plaintext, or
      zeros over a plaintext that must not be seen. */
  datatype Content = Foreign | Wire(packet: Model.Packet) | Plain(bytes: seq<u8>) | Wiped

  class OutBuffer {
    const len: nat
    var content: Content

    constructor (n: nat)
      ensures len == n && content == Foreign
    {
      len, content := n, Foreign;
    }
  }

  /** The bytes of a handshake message before its MACs. */
  function AlphaOf(p: Model.Packet): (t: Term)
    requires p.Initiation? || p.Response?
  {
    if p.Initiation? then InitiationAlpha(p.init) else ResponseAlpha(p.resp)
  }

  /** `apply_macs` on the first `n` bytes of the buffer: a length that is no handshake
      message's is refused before anything is written. */
  method FillMacs(keys: MacKeys, cookie: Option<LastCookie>, now: Ticks, n: nat, out: OutBuffer)
    returns (r: Result<Term>)
    requires out.content.Wire? && (out.content.packet.Initiation? || out.content.packet.Response?)
    modifies out`content
    ensures r.Ok? <==> n == HANDSHAKE_INITIATION_LEN || n == HANDSHAKE_RESPONSE_LEN
    ensures r.Err? ==> r.error == InvalidPacket && out.content == old(out.content)
    ensures r.Ok? ==> var p := old(out.content.packet);
                      var macs := ApplyMacs(keys, cookie, now, AlphaOf(p));
                      r.value == macs.0 && out.content == Wire(p.(mac1 := macs.0, mac2 := macs.1))
  {
    hide InitiationAlpha, ResponseAlpha, FreshValue;
    if n != HANDSHAKE_INITIATION_LEN && n != HANDSHAKE_RESPONSE_LEN {
      return Err(InvalidPacket);
    }
    var alpha := AlphaOf(out.content.packet);
    var mac1 := Mac(keys.mac1Send, alpha);
    out.content := Wire(out.content.packet.(mac1 := mac1));
    var value := if cookie.Some? then FreshValue(cookie.value, now) else None;
    var mac2 := if value.Some? then Mac(value.value, Pair(alpha, mac1)) else ZERO_MAC;
    out.content := Wire(out.content.packet.(mac2 := mac2));
    r := Ok(mac1);
  }

  /** An initiation ready to be written. */
  datatype Draft = Draft(stamp: Tai64N, body: InitiationBody, flight: InFlight, jitter: u64) {
    ghost function On(s: Model.State, mac1: Term, at: Ticks): (r: Model.State) {
      s.(lastSentTai := Some(stamp), lastInitMac1 := Some(mac1), inflight := Some(flight),
         timers := s.timers.NoteInitiationTx(at, jitter))
    }
  }

  /** Clamping is idempotent: an operation may start from the clamped clock. */
  lemma ClampedOnce(s: Model.State, now: Now, payload: seq<u8>, outLen: nat, rng: Model.Entropy)
    ensures var (s', now') := (Model.AtClock(s, now), Model.Clamped(s, now));
            && s'.lastNow == now'.ticks
            && Model.Encapsulate(s, now, payload, outLen, rng) == Model.Encapsulate(s', now', payload, outLen, rng)
            && Model.InitiateHandshake(s, now, outLen, rng) == Model.InitiateHandshake(s', now', outLen, rng)
            && Model.Poll(s, now, outLen, rng) == Model.Poll(s', now', outLen, rng)
  {
    hide Model.SendInitiation, Model.SealOnCurrent, Model.PollRekey, Model.PollHandshake, Model.Pad;
  }

  /** The buffer after a poll: the datagram if one was sent, else as it was. */
  function Written(r: Result<Model.PollOutput>, before: Content): (c: Content) {
    if r.Ok? && r.value.Send? then Wire(r.value.wire) else before
  }

  ghost function LivePoll(s: Model.State, now: Now, outLen: nat, rng: Model.Entropy): (r: (Model.State,
      Result<Model.PollOutput>)) {
    if Model.DiscardDue(s, now.ticks) then (Model.DiscardAll(s), Ok(Model.SessionsExpired))
    else if Model.RetransmitDue(s, now.ticks) then Model.PollHandshake(s, now, outLen, rng)
    else Model.PollRekey(s, now, outLen, rng)
  }

  /** `flatten().min()` over the candidates. */
  method Earliest(c: seq<Option<Ticks>>) returns (r: Option<Ticks>)
    ensures |c| == 7 ==> r == Model.MinTick(Model.MinTick(Model.MinTick(Model.MinTick(Model.MinTick(Model.MinTick(
                                c[0], c[1]), c[2]), c[3]), c[4]), c[5]), c[6])
  {
    r := None;
    for i := 0 to |c|
      invariant r == EarliestOf(c[..i])
    {
      assert c[..i + 1][..i] == c[..i];
      if c[i].Some? && (r.None? || c[i].value < r.value) {
        r := c[i];
      }
    }
    assert c[..|c|] == c;
    if |c| == 7 {
      SevenCandidates(c);
    }
  }

  function EarliestOf(c: seq<Option<Ticks>>): (r: Option<Ticks>) {
    if c == [] then None else Model.MinTick(EarliestOf(c[..|c| - 1]), c[|c| - 1])
  }

  lemma SevenCandidates(c: seq<Option<Ticks>>)
    requires |c| == 7
    ensures EarliestOf(c) == Model.MinTick(Model.MinTick(Model.MinTick(Model.MinTick(Model.MinTick(Model.MinTick(
                               c[0], c[1]), c[2]), c[3]), c[4]), c[5]), c[6])
  {
    hide Model.MinTick;
    assert c[..6][..5] == c[..5] && c[..5][..4] == c[..4] && c[..4][..3] == c[..3] && c[..3][..2] == c[..2]
        && c[..2][..1] == c[..1];
    FirstCandidate(c);
    assert EarliestOf(c[..2]) == Model.MinTick(EarliestOf(c[..1]), c[1]);
    assert EarliestOf(c[..3]) == Model.MinTick(EarliestOf(c[..2]), c[2]);
    assert EarliestOf(c[..4]) == Model.MinTick(EarliestOf(c[..3]), c[3]);
    assert EarliestOf(c[..5]) == Model.MinTick(EarliestOf(c[..4]), c[4]);
    assert EarliestOf(c[..6]) == Model.MinTick(EarliestOf(c[..5]), c[5]);
  }

  lemma FirstCandidate(c: seq<Option<Ticks>>)
    requires c != []
    ensures EarliestOf(c[..1]) == c[0]
  {
    assert c[..1][..0] == [];
  }

  /** The buffer after `decapsulate`: a reply or a plaintext if there is one, else as it was. */
  function Delivered(r: Result<Model.Received>, before: Content): (c: Content) {
    if r.Ok? && r.value.Reply? then Wire(r.value.wire) else if r.Ok? && r.value.Data? then Plain(r.value.plain)
    else before
  }

  ghost function Settled(s: Model.State): (r: Model.State) {
    s.(inflight := None, recvRekeyDone := false,
        timers := s.timers.NoteHandshakeComplete().(confirmKeepaliveDue := true))
  }

  ghost function Completed(s: Model.State, keys: SessionKeys, now: Ticks): (r: Model.State) {
    Settled(s.(previous := s.current, current := Some(NewSession(keys, now))))
  }

  /** A response ready to be written. */
  datatype Answer = Answer(keys: SessionKeys, body: ResponseBody, timestamp: Tai64N)

  ghost function Responding(s: Model.State, a: Answer, mac1: Term, now: Ticks): (r: Model.State) {
    s.(lastRespMac1 := Some(mac1), greatestTimestamp := Some(a.timestamp), next := Some(NewSession(a.keys, now)))
  }

  /** The reply to an initiation and the state after it. */
  ghost function Replying(s: Model.State, a: Answer, now: Ticks): (r: (Model.State, Result<Model.Received>)) {
    var macs := ApplyMacs(s.Keys(), s.cookie, now, ResponseAlpha(a.body));
    (Responding(s, a, macs.0, now), Ok(Model.Reply(Model.Response(a.body, macs.0, macs.1))))
  }

  ghost function PartsOf(s: LiveSession?<Term>): (p: set<object>) {
    if s == null then {} else s.Parts()
  }

  ghost function ViewOf(s: LiveSession?<Term>): (v: Option<Model.Session>)
    reads PartsOf(s)
  {
    if s == null then None else Some(s.View())
  }

  class Tunnel {
    const localStatic: Name
    const peerPublic: Term
    const psk: Term
    const persistentKeepalive: Option<Model.Interval>
    var mtu: Option<Model.Interval>
    const ss: Term
    const macKeys: MacKeys
    var inflight: Option<InFlight>
    var lastInitMac1: Option<Term>
    var lastRespMac1: Option<Term>
    var cookie: Option<LastCookie>
    const jar: CookieJar<Term>
    var greatestTimestamp: Option<Tai64N>
    var lastSentTai: Option<Tai64N>
    var previous: LiveSession?<Term>
    var current: LiveSession?<Term>
    var next: LiveSession?<Term>
    const timers: TimerSet
    var recvRekeyDone: bool
    var lastNow: Ticks

    ghost function Owned(): (p: set<object>)
      reads this
    {
      {this, jar, timers} + PartsOf(previous) + PartsOf(current) + PartsOf(next)
    }

    ghost predicate Valid()
      reads this, Owned()
    {
      && PartsOf(previous) !! PartsOf(current) && PartsOf(current) !! PartsOf(next)
      && PartsOf(next) !! PartsOf(previous)
      && (previous != null ==> previous.Valid())
      && (current != null ==> current.Valid())
      && (next != null ==> next.Valid())
      && macKeys == NewMacKeys(Pub(localStatic), peerPublic)
    }

    ghost function View(): (s: Model.State)
      reads this, Owned()
    {
      Model.State(Model.Config(localStatic, peerPublic, psk, persistentKeepalive, mtu), ss, inflight, lastInitMac1,
                  lastRespMac1, cookie, jar.Contents(), greatestTimestamp, lastSentTai, ViewOf(previous),
                  ViewOf(current), ViewOf(next), timers.Contents(), recvRekeyDone, lastNow)
    }

    constructor (config: Model.Config, shared: Term)
      requires Pub(config.localStatic) != config.peerPublic
      requires SharedSecret(config.localStatic, config.peerPublic) == Ok(shared)
      ensures Valid() && fresh(Owned()) && Model.NewTunnel(config) == Ok(View())
    {
      localStatic, peerPublic, psk := config.localStatic, config.peerPublic, config.psk;
      persistentKeepalive, mtu, ss := config.keepalive, config.mtu, shared;
      macKeys := NewMacKeys(Pub(config.localStatic), config.peerPublic);
      inflight, lastInitMac1, lastRespMac1, cookie := None, None, None, None;
      jar := new CookieJar(ZERO_SECRET);
      greatestTimestamp, lastSentTai := None, None;
      previous, current, next := null, null, null;
      timers := new TimerSet();
      recvRekeyDone, lastNow := false, 0;
    }

    /** `new`: the two configuration mistakes are errors. */
    static method New(config: Model.Config) returns (r: Result<Tunnel>)
      ensures r.Ok? <==> Model.NewTunnel(config).Ok?
      ensures r.Err? ==> r.error == Model.NewTunnel(config).error
      ensures r.Ok? ==> r.value.Valid() && fresh(r.value.Owned()) && r.value.View() == Model.NewTunnel(config).value
    {
      if Pub(config.localStatic) == config.peerPublic {
        return Err(InvalidPublicKey);
      }
      var shared := SharedSecret(config.localStatic, config.peerPublic);
      if shared.Err? {
        return Err(shared.error);
      }
      var t := new Tunnel(config, shared.value);
      r := Ok(t);
    }

    method ClampNow(now: Now) returns (r: Now)
      requires Valid()
      modifies this`lastNow
      ensures Valid() && Owned() == old(Owned())
      ensures r == Model.Clamped(old(View()), now) && View() == Model.AtClock(old(View()), now)
    {
      hide Represents, NewMacKeys;
      if now.ticks < lastNow {
        return now.(ticks := lastNow);
      }
      lastNow := now.ticks;
      r := now;
    }

    method SessionWithIndex(index: u32) returns (r: Option<Model.Slot>)
      requires Valid()
      ensures r == Model.SlotOf(View(), index)
    {
      if next != null && next.keys.localIndex == index {
        return Some(Model.Next);
      }
      if current != null && current.keys.localIndex == index {
        return Some(Model.Current);
      }
      if previous != null && previous.keys.localIndex == index {
        return Some(Model.Previous);
      }
      r := None;
    }

    /** `fresh_index`: at most 32 draws. */
    method FreshIndex(draws: seq<Option<u32>>) returns (r: Result<u32>)
      requires Valid()
      ensures r == Model.FreshIndex(View(), draws, 0)
      ensures r.Err? ==> r.error != Internal
    {
      for i := 0 to Model.INDEX_DRAWS
        invariant Model.FreshIndex(View(), draws, 0) == Model.FreshIndex(View(), draws, i)
      {
        if i >= |draws| || draws[i].None? {
          return Err(EntropyFailure);
        }
        var slot := SessionWithIndex(draws[i].value);
        var clash := slot.Some? || (inflight.Some? && inflight.value.localIndex == draws[i].value);
        if !clash {
          return Ok(draws[i].value);
        }
      }
      r := Err(EntropyFailure);
    }

    /** `send_initiation` up to the first write: it reads the tunnel and changes nothing. */
    method DraftInitiation(now: Now, outLen: nat, rng: Model.Entropy, timerDriven: bool) returns (r: Result<Draft>)
      requires Valid()
      ensures r.Err? ==> Model.SendInitiation(View(), now, outLen, rng, timerDriven) == (View(), Err(r.error))
      ensures r.Ok? ==> outLen >= HANDSHAKE_INITIATION_LEN
      ensures r.Ok? ==> var macs := ApplyMacs(macKeys, cookie, now.ticks, InitiationAlpha(r.value.body));
                        Model.SendInitiation(View(), now, outLen, rng, timerDriven)
                        == (r.value.On(View(), macs.0, now.ticks), Ok(Model.Initiation(r.value.body, macs.0, macs.1)))
      ensures r.Err? ==> r.error != Internal
    {
      hide ApplyMacs, InitiationAlpha, LexLessEq, Tick, Stamp, NewMacKeys, Represents, Model.FreshIndex, SharedSecret;
      var index := FreshIndex(rng.indices);
      if index.Err? {
        return Err(index.error);
      }
      if rng.eph.None? {
        return Err(EntropyFailure);
      }
      var jitter := 0;
      if timerDriven && rng.jitter.Some? {
        jitter := rng.jitter.value % (REKEY_TIMEOUT_JITTER_MAX + 1);
      }
      var stamp := Stamp(now);
      if lastSentTai.Some? && LexLessEq(stamp, lastSentTai.value) {
        stamp := Tick(lastSentTai.value);
      }
      var created := CreateInitiation(Pub(localStatic), peerPublic, ss, index.value, rng.eph.value, stamp, outLen);
      if created.Err? {
        return Err(created.error);
      }
      r := Ok(Draft(stamp, created.value.1, created.value.0, jitter));
    }

    /** `send_initiation`: the message is in the buffer before its MACs are filled in, and neither
        that nor anything else after the first write can fail. */
    method SendInitiation(now: Now, out: OutBuffer, rng: Model.Entropy, timerDriven: bool)
      returns (r: Result<Model.Packet>)
      requires Valid() && out !in Owned()
      modifies this`lastSentTai, this`lastInitMac1, this`inflight, timers, out`content
      ensures Valid() && (View(), r) == Model.SendInitiation(old(View()), now, out.len, rng, timerDriven)
      ensures out.content == if r.Ok? then Wire(r.value) else old(out.content)
      ensures r.Ok? ==> out.len >= HANDSHAKE_INITIATION_LEN
      ensures r.Err? ==> r.error != Internal
    {
      hide Represents, Model.SendInitiation, ApplyMacs, InitiationAlpha, ResponseAlpha, NewMacKeys;
      ghost var s := View();
      var draft := DraftInitiation(now, out.len, rng, timerDriven);
      if draft.Err? {
        return Err(draft.error);
      }
      out.content := Wire(Model.Initiation(draft.value.body, ZERO_MAC, ZERO_MAC));
      if out.len < HANDSHAKE_INITIATION_LEN {
        return Err(Internal);
      }
      var mac1 := FillMacs(macKeys, cookie, now.ticks, HANDSHAKE_INITIATION_LEN, out);
      if mac1.Err? {
        return Err(ErrorOf(mac1));
      }
      assert View() == s;
      CommitInitiation(draft.value, mac1.value, now.ticks);
      r := Ok(out.content.packet);
    }

    /** The four records of an initiation. */
    method CommitInitiation(draft: Draft, mac1: Term, at: Ticks)
      requires Valid()
      modifies this`lastSentTai, this`lastInitMac1, this`inflight, timers
      ensures Valid() && Owned() == old(Owned()) && View() == draft.On(old(View()), mac1, at)
    {
      hide NewMacKeys, Represents;
      lastSentTai := Some(draft.stamp);
      lastInitMac1 := Some(mac1);
      inflight := Some(draft.flight);
      timers.NoteInitiationTx(at, draft.jitter);
    }

    /** Seal on the current session: counter, datagram, timers, rekey flag.  The counter is taken
        before the datagram is written, and nothing after that can fail. */
    method SealOnCurrent(now: Ticks, plain: seq<u8>, isData: bool, out: OutBuffer) returns (r: Result<Model.Packet>)
      requires Valid() && Usable(now) && out.len >= |plain| + TRANSPORT_OVERHEAD
      modifies current`sendCounter, timers, out`content
      ensures Valid() && r.Ok? && out.content == Wire(r.value)
      ensures (View(), r.value) == Model.SealOnCurrent(old(View()), now, plain, isData)
    {
      hide Represents, NewMacKeys;
      if current == null {
        return Err(Internal);
      }
      var counter := current.NextCounter();
      if counter.Err? {
        return Err(ErrorOf(counter));
      }
      var sealed := Seal(current.keys.send, counter.value, EMPTY, Atom(plain));
      var wire := Model.Transport(current.keys.peerIndex, counter.value, sealed);
      out.content := Wire(wire);
      assert Len(Atom(plain)) == |plain|;
      if Len(sealed) + 16 != |plain| + TRANSPORT_OVERHEAD {
        return Err(Internal);
      }
      if isData {
        timers.NoteDataTx(now);
      } else {
        timers.NoteKeepaliveTx(now);
      }
      if current == null {
        return Err(Internal);
      }
      if current.sendCounter >= Model.REKEY_AFTER_MESSAGES
         || (current.keys.isInitiator && current.Age(now) >= Model.REKEY_AFTER_TIME) {
        timers.rekeyDue := true;
      }
      if out.len < |plain| + TRANSPORT_OVERHEAD {
        return Err(Internal);
      }
      r := Ok(wire);
    }

    method SendKeepalive(now: Ticks, out: OutBuffer) returns (r: Result<Model.Packet>)
      requires Valid() && Usable(now)
      modifies current`sendCounter, timers, out`content
      ensures Valid() && (View(), r) == Model.SendKeepalive(old(View()), now, out.len)
      ensures out.content == if r.Ok? then Wire(r.value) else old(out.content)
      ensures r.Err? ==> r.error != Internal
    {
      hide Represents, Model.SealOnCurrent;
      if out.len < TRANSPORT_OVERHEAD {
        return Err(BufferTooSmall);
      }
      r := SealOnCurrent(now, [], false, out);
    }

    method DropSlots()
      requires Valid()
      modifies this`previous, this`current, this`next
      ensures Valid() && Owned() == {this, jar, timers} && View() == old(View()).(previous := None, current := None,
          next := None)
    {
      hide Represents, NewMacKeys;
      previous, current, next := null, null, null;
    }

    /** `discard_all_sessions`, which is also `reset`. */
    method Reset()
      requires Valid()
      modifies this, timers
      ensures Valid() && Owned() <= old(Owned()) && View() == Model.DiscardAll(old(View()))
    {
      hide Represents, NewMacKeys;
      DropSlots();
      inflight, cookie, lastInitMac1, lastRespMac1 := None, None, None, None;
      recvRekeyDone := false;
      timers.Restart();
    }

    method SetMtu(m: Option<Model.Interval>)
      requires Valid()
      modifies this`mtu
      ensures Valid() && View() == old(View()).(config := old(View()).config.(mtu := m))
    {
      mtu := m;
    }

    predicate Usable(now: Ticks)
      reads this, current
    {
      current != null && current.UsableForSend(now)
    }

    method Encapsulate(now0: Now, payload: seq<u8>, out: OutBuffer,
        rng: Model.Entropy) returns (r: Result<Model.Encapsulated>)
      requires Valid() && out !in Owned()
      modifies this`lastNow, this`lastSentTai, this`lastInitMac1, this`inflight, timers, current, out`content
      ensures Valid() && (View(), r) == Model.Encapsulate(old(View()), now0, payload, out.len, rng)
      ensures out.content == if r.Ok? then Wire(r.value.wire) else old(out.content)
      ensures r.Err? ==> r.error != Internal
    {
      hide Represents, Model.Encapsulate, Model.Clamped, Model.AtClock;
      ClampedOnce(View(), now0, payload, out.len, rng);
      var now := ClampNow(now0);
      if Usable(now.ticks) {
        r := EncapsulateEstablished(now, payload, out, rng);
      } else {
        r := EncapsulateUnestablished(now, payload, out, rng);
      }
    }

    /** The branch of `encapsulate` with a usable session. */
    method EncapsulateEstablished(now: Now, payload: seq<u8>, out: OutBuffer,
        ghost rng: Model.Entropy) returns (r: Result<Model.Encapsulated>)
      requires Valid() && out !in Owned() && now.ticks == lastNow && Usable(now.ticks)
      modifies current`sendCounter, timers, out`content
      ensures Valid() && (View(), r) == Model.Encapsulate(old(View()), now, payload, out.len, rng)
      ensures out.content == if r.Ok? then Wire(r.value.wire) else old(out.content)
      ensures r.Err? ==> r.error != Internal
    {
      hide Represents, Model.SealOnCurrent, Model.SendInitiation, Model.PaddedLen;
      var padded := Model.PaddedLen(|payload|, mtu);
      if out.len < padded + TRANSPORT_OVERHEAD {
        return Err(BufferTooSmall);
      }
      if padded < |payload| {
        return Err(Internal);
      }
      var wire := SealOnCurrent(now.ticks, payload + seq(padded - |payload|, _ => 0), payload != [], out);
      if wire.Err? {
        return Err(ErrorOf(wire));
      }
      r := Ok(Model.Sealed(wire.value));
    }

    /** The branch of `encapsulate` without a usable session, on the clamped clock. */
    method EncapsulateUnestablished(now: Now, ghost payload: seq<u8>, out: OutBuffer,
        rng: Model.Entropy) returns (r: Result<Model.Encapsulated>)
      requires Valid() && out !in Owned() && now.ticks == lastNow && !Usable(now.ticks)
      modifies this`lastSentTai, this`lastInitMac1, this`inflight, timers, out`content
      ensures Valid() && (View(), r) == Model.Encapsulate(old(View()), now, payload, out.len, rng)
      ensures out.content == if r.Ok? then Wire(r.value.wire) else old(out.content)
      ensures r.Err? ==> r.error != Internal
    {
      hide Represents, Model.SendInitiation, NewMacKeys;
      timers.gaveUp := false;
      if inflight.Some? {
        timers.attemptStarted := Some(now.ticks);
        return Err(NotEstablished);
      }
      if !timers.Contents().InitiationAllowed(now.ticks) {
        return Err(NotEstablished);
      }
      timers.attemptStarted := None;
      var sent := SendInitiation(now, out, rng, false);
      if sent.Err? {
        return Err(sent.error);
      }
      if out.len < HANDSHAKE_INITIATION_LEN {
        return Err(Internal);
      }
      r := Ok(Model.NeedsHandshake(sent.value));
    }

    method InitiateHandshake(now0: Now, out: OutBuffer, rng: Model.Entropy) returns (r: Result<Model.Packet>)
      requires Valid() && out !in Owned()
      modifies this`lastNow, this`lastSentTai, this`lastInitMac1, this`inflight, timers, out`content
      ensures Valid() && (View(), r) == Model.InitiateHandshake(old(View()), now0, out.len, rng)
      ensures out.content == if r.Ok? then Wire(r.value) else old(out.content)
      ensures r.Err? ==> r.error != Internal
    {
      hide Represents, Model.InitiateHandshake, Model.Clamped, Model.AtClock;
      ClampedOnce(View(), now0, [], out.len, rng);
      var now := ClampNow(now0);
      r := InitiateNow(now, out, rng);
    }

    /** The rest of `initiate_handshake`, on the clamped clock. */
    method InitiateNow(now: Now, out: OutBuffer, rng: Model.Entropy) returns (r: Result<Model.Packet>)
      requires Valid() && out !in Owned() && now.ticks == lastNow
      modifies this`lastSentTai, this`lastInitMac1, this`inflight, timers, out`content
      ensures Valid() && (View(), r) == Model.InitiateHandshake(old(View()), now, out.len, rng)
      ensures out.content == if r.Ok? then Wire(r.value) else old(out.content)
      ensures r.Err? ==> r.error != Internal
    {
      hide Represents, Model.SendInitiation, NewMacKeys;
      if !timers.Contents().InitiationAllowed(now.ticks) {
        return Err(HandshakeRateLimited);
      }
      timers.StartOver();
      r := SendInitiation(now, out, rng, false);
      if r.Ok? && out.len < HANDSHAKE_INITIATION_LEN {
        return Err(Internal);
      }
    }

    // ----- poll, one concern at a time in the order of the source -----------------------------------

    /** A fresh initiation from the timers. */
    method StartAttempt(now: Now, out: OutBuffer, rng: Model.Entropy) returns (r: Result<Model.PollOutput>)
      requires Valid() && out !in Owned()
      modifies this`lastSentTai, this`lastInitMac1, this`inflight, timers, current, out`content
      ensures Valid() && (View(), r) == Model.StartAttempt(old(View()), now, out.len, rng)
      ensures out.content == Written(r, old(out.content))
      ensures r.Err? ==> r.error != Internal
    {
      hide Represents, NewMacKeys, Model.SendInitiation;
      timers.attemptStarted := None;
      var sent := SendInitiation(now, out, rng, true);
      if sent.Ok? && out.len < HANDSHAKE_INITIATION_LEN {
        return Err(Internal);
      }
      r := if sent.Ok? then Ok(Model.Send(sent.value, Model.FreshInitiation)) else Err(sent.error);
    }

    method PollKeepalive(now: Now, out: OutBuffer, reason: Model.SendReason) returns (r: Result<Model.PollOutput>)
      requires Valid() && out !in Owned() && Usable(now.ticks)
      modifies current`sendCounter, timers, out`content
      ensures Valid() && (View(), r) == Model.AsSend(Model.SendKeepalive(old(View()), now.ticks, out.len), reason)
      ensures out.content == Written(r, old(out.content))
      ensures r.Err? ==> r.error != Internal
    {
      hide Represents, NewMacKeys, Model.SendKeepalive;
      var sent := SendKeepalive(now.ticks, out);
      r := if sent.Ok? then Ok(Model.Send(sent.value, reason)) else Err(sent.error);
    }

    /** Retransmit or abandon the in-flight handshake. */
    method PollHandshake(now: Now, out: OutBuffer, rng: Model.Entropy) returns (r: Result<Model.PollOutput>)
      requires Valid() && out !in Owned() && Model.RetransmitDue(View(), now.ticks)
      modifies this`lastSentTai, this`lastInitMac1, this`inflight, timers, current, out`content
      ensures Valid() && (View(), r) == Model.PollHandshake(old(View()), now, out.len, rng)
      ensures out.content == Written(r, old(out.content))
      ensures r.Err? ==> r.error != Internal
    {
      hide Represents, NewMacKeys, Model.SendInitiation;
      if timers.Contents().AttemptExhausted(now.ticks) {
        inflight := None;
        timers.NoteGaveUp();
        return Ok(Model.HandshakeExpired);
      }
      var sent := SendInitiation(now, out, rng, true);
      if sent.Ok? && out.len < HANDSHAKE_INITIATION_LEN {
        return Err(Internal);
      }
      r := if sent.Ok? then Ok(Model.Send(sent.value, Model.Retransmit)) else Err(sent.error);
    }

    /** Persistent keepalive, or revival of a dead tunnel. */
    method PollPersistent(now: Now, out: OutBuffer, rng: Model.Entropy) returns (r: Result<Model.PollOutput>)
      requires Valid() && out !in Owned()
      modifies this`lastSentTai, this`lastInitMac1, this`inflight, timers, current, out`content
      ensures Valid() && (View(), r) == Model.PollPersistent(old(View()), now, out.len, rng)
      ensures out.content == Written(r, old(out.content))
      ensures r.Err? ==> r.error != Internal
    {
      hide Represents, NewMacKeys, Model.StartAttempt, Model.SendKeepalive;
      if persistentKeepalive.None? {
        return Ok(Model.Idle);
      }
      var interval := Model.IntervalNanos(persistentKeepalive.value);
      if Usable(now.ticks) {
        var base := if timers.lastAnyTx.Some? then timers.lastAnyTx.value else current.created;
        if Since(now.ticks, base) >= interval {
          r := PollKeepalive(now, out, Model.PersistentSend);
          return;
        }
        return Ok(Model.Idle);
      }
      if inflight.None? && timers.Contents().InitiationAllowed(now.ticks)
         && timers.Contents().PersistentReviveAllowed(now.ticks, interval) {
        timers.gaveUp := false;
        r := StartAttempt(now, out, rng);
        return;
      }
      r := Ok(Model.Idle);
    }

    /** Passive keepalive, disarmed when the session died first. */
    method PollPassive(now: Now, out: OutBuffer, rng: Model.Entropy) returns (r: Result<Model.PollOutput>)
      requires Valid() && out !in Owned()
      modifies this`lastSentTai, this`lastInitMac1, this`inflight, timers, current, out`content
      ensures Valid() && (View(), r) == Model.PollPassive(old(View()), now, out.len, rng)
      ensures out.content == Written(r, old(out.content))
      ensures r.Err? ==> r.error != Internal
    {
      hide Represents, NewMacKeys, Model.PollPersistent, Model.SendKeepalive;
      if timers.Contents().PassiveKeepaliveDue(now.ticks) {
        if Usable(now.ticks) {
          r := PollKeepalive(now, out, Model.KeepaliveSend);
          return;
        }
        timers.lastDataRx := None;
      }
      r := PollPersistent(now, out, rng);
    }

    /** Confirmation keepalive after an initiator handshake. */
    method PollConfirm(now: Now, out: OutBuffer, rng: Model.Entropy) returns (r: Result<Model.PollOutput>)
      requires Valid() && out !in Owned()
      modifies this`lastSentTai, this`lastInitMac1, this`inflight, timers, current, out`content
      ensures Valid() && (View(), r) == Model.PollConfirm(old(View()), now, out.len, rng)
      ensures out.content == Written(r, old(out.content))
      ensures r.Err? ==> r.error != Internal
    {
      hide Represents, NewMacKeys, Model.PollPassive, Model.SendKeepalive;
      if timers.confirmKeepaliveDue {
        if Usable(now.ticks) {
          r := PollKeepalive(now, out, Model.KeepaliveSend);
          return;
        }
        timers.confirmKeepaliveDue := false;
      }
      r := PollPassive(now, out, rng);
    }

    /** Dead-peer detection. */
    method PollDeadPeer(now: Now, out: OutBuffer, rng: Model.Entropy) returns (r: Result<Model.PollOutput>)
      requires Valid() && out !in Owned()
      modifies this`lastSentTai, this`lastInitMac1, this`inflight, timers, current, out`content
      ensures Valid() && (View(), r) == Model.PollDeadPeer(old(View()), now, out.len, rng)
      ensures out.content == Written(r, old(out.content))
      ensures r.Err? ==> r.error != Internal
    {
      hide Represents, NewMacKeys, Model.PollConfirm, Model.StartAttempt;
      if inflight.None? && timers.Contents().DeadPeerDue(now.ticks) && timers.Contents().InitiationAllowed(now.ticks) {
        r := StartAttempt(now, out, rng);
        return;
      }
      r := PollConfirm(now, out, rng);
    }

    /** Traffic-limit rekey. */
    method PollRekey(now: Now, out: OutBuffer, rng: Model.Entropy) returns (r: Result<Model.PollOutput>)
      requires Valid() && out !in Owned()
      modifies this`lastSentTai, this`lastInitMac1, this`inflight, timers, current, out`content
      ensures Valid() && (View(), r) == Model.PollRekey(old(View()), now, out.len, rng)
      ensures out.content == Written(r, old(out.content))
      ensures r.Err? ==> r.error != Internal
    {
      hide Represents, NewMacKeys, Model.PollDeadPeer, Model.StartAttempt;
      if timers.rekeyDue {
        if inflight.Some? {
          timers.rekeyDue := false;
        } else if timers.Contents().InitiationAllowed(now.ticks) {
          r := StartAttempt(now, out, rng);
          return;
        }
      }
      r := PollDeadPeer(now, out, rng);
    }

    method NewestSessionCreated() returns (r: Option<Ticks>)
      requires Valid()
      ensures r == Model.NewestCreated(View())
    {
      hide Represents, NewMacKeys;
      r := None;
      if previous != null {
        r := Some(previous.created);
      }
      if current != null && (r.None? || r.value < current.created) {
        r := Some(current.created);
      }
      if next != null && (r.None? || r.value < next.created) {
        r := Some(next.created);
      }
    }

    method Poll(now0: Now, out: OutBuffer, rng: Model.Entropy) returns (r: Result<Model.PollOutput>)
      requires Valid() && out !in Owned()
      modifies this, timers, current, out`content
      ensures Valid() && Owned() <= old(Owned()) && (View(), r) == Model.Poll(old(View()), now0, out.len, rng)
      ensures out.content == Written(r, old(out.content))
      ensures r.Err? ==> r.error != Internal
    {
      hide Represents, NewMacKeys, Model.Poll, Model.Clamped, Model.AtClock;
      ClampedOnce(View(), now0, [], out.len, rng);
      var now := ClampNow(now0);
      r := PollNow(now, out, rng);
    }

    /** The body of `poll`, on the clamped clock. */
    method PollNow(now: Now, out: OutBuffer, rng: Model.Entropy) returns (r: Result<Model.PollOutput>)
      requires Valid() && out !in Owned() && now.ticks == lastNow
      modifies this, timers, current, out`content
      ensures Valid() && Owned() <= old(Owned()) && (View(), r) == Model.Poll(old(View()), now, out.len, rng)
      ensures out.content == Written(r, old(out.content))
      ensures r.Err? ==> r.error != Internal
    {
      hide Represents, NewMacKeys, Model.PollHandshake, Model.PollRekey, Model.DiscardAll, Model.NewestCreated;
      DropStaleNext(now.ticks);
      r := PollLive(now, out, rng);
    }

    /** `poll` once a stale `next` is out of the way. */
    method PollLive(now: Now, out: OutBuffer, rng: Model.Entropy) returns (r: Result<Model.PollOutput>)
      requires Valid() && out !in Owned()
      modifies this, timers, current, out`content
      ensures Valid() && Owned() <= old(Owned()) && (View(), r) == LivePoll(old(View()), now, out.len, rng)
      ensures out.content == Written(r, old(out.content))
      ensures r.Err? ==> r.error != Internal
    {
      hide Represents, NewMacKeys, Model.PollHandshake, Model.PollRekey, Model.DiscardAll, Model.NewestCreated;
      var newest := NewestSessionCreated();
      if newest.Some? && Since(now.ticks, newest.value) >= Model.SESSION_DISCARD_TIME {
        Reset();
        return Ok(Model.SessionsExpired);
      }
      if inflight.Some? && timers.retransmitAt.Some? && now.ticks >= timers.retransmitAt.value {
        r := PollHandshake(now, out, rng);
        return;
      }
      r := PollRekey(now, out, rng);
    }

    /** An unconfirmed responder session is dropped at Reject-After-Time. */
    method DropStaleNext(t: Ticks)
      requires Valid()
      modifies this`next
      ensures Valid() && Owned() <= old(Owned()) && View() == Model.DropStaleNext(old(View()), t)
    {
      hide Represents, NewMacKeys;
      if next != null && next.Age(t) >= REJECT_AFTER_TIME {
        next := null;
      }
    }

    /** `next_wake`: the earliest of seven candidate deadlines. */
    method NextWake() returns (r: Option<Ticks>)
      requires Valid()
      ensures r == Model.NextWake(View())
    {
      hide Represents, NewMacKeys, Model.MinTick, Model.WakePersistent, Model.WakeImmediate, Model.WakeRetransmit,
        Model.WakeDeadPeer, Model.WakeDiscard, Model.WakeNextExpiry;
      var immediate, retransmit, dead, passive := TimerWakes();
      var discard, expiry := SessionWakes();
      var persistent := PersistentWake();
      r := Earliest([immediate, retransmit, dead, passive, discard, expiry, persistent]);
    }

    method TimerWakes() returns (immediate: Option<Ticks>, retransmit: Option<Ticks>, dead: Option<Ticks>,
        passive: Option<Ticks>)
      requires Valid()
      ensures immediate == Model.WakeImmediate(View()) && retransmit == Model.WakeRetransmit(View())
      ensures dead == Model.WakeDeadPeer(View()) && passive == View().timers.PassiveKeepaliveAt()
    {
      hide Represents, NewMacKeys, AddNanos;
      var t := timers.Contents();
      var pacing := t.PacingAt();
      immediate := if timers.rekeyDue
          && inflight.None? then Some(pacing) else if timers.confirmKeepaliveDue then Some(0) else None;
      retransmit := if inflight.Some? then timers.retransmitAt else None;
      dead := t.DeadPeerAt();
      dead := if inflight.None? && dead.Some? then Some(if dead.value < pacing then pacing else dead.value) else None;
      passive := t.PassiveKeepaliveAt();
    }

    method SessionWakes() returns (discard: Option<Ticks>, expiry: Option<Ticks>)
      requires Valid()
      ensures discard == Model.WakeDiscard(View()) && expiry == Model.WakeNextExpiry(View())
    {
      hide Represents, NewMacKeys, AddNanos, Model.NewestCreated;
      var newest := NewestSessionCreated();
      discard := if newest.Some? then Some(AddNanos(newest.value, Model.SESSION_DISCARD_TIME)) else None;
      expiry := if next != null then Some(AddNanos(next.created, REJECT_AFTER_TIME)) else None;
    }

    method PersistentWake() returns (r: Option<Ticks>)
      requires Valid()
      ensures r == Model.WakePersistent(View())
    {
      hide Represents, NewMacKeys;
      if persistentKeepalive.None? {
        return None;
      }
      var interval := Model.IntervalNanos(persistentKeepalive.value);
      if Usable(lastNow) {
        return Some(AddNanos(if timers.lastAnyTx.Some? then timers.lastAnyTx.value else current.created, interval));
      }
      if inflight.Some? {
        return None;
      }
      if timers.gaveUp {
        return Some(if timers.lastInitiationTx.Some? then AddNanos(timers.lastInitiationTx.value, interval) else 0);
      }
      r := Some(timers.Contents().PacingAt());
    }

    // ----- decapsulate -----------------------------------------------------------------------------

    method RespondWithCookie(now: Ticks, remote: seq<u8>, sender: u32, mac1: Term, out: OutBuffer, rng: Model.Entropy)
      returns (r: Result<Model.Received>)
      requires Valid() && out !in Owned()
      modifies jar, out`content
      ensures Valid() && Owned() == old(Owned())
      ensures (View(), r) == Model.RespondWithCookie(old(View()), now, remote, sender, mac1, out.len, rng)
      ensures out.content == Delivered(r, old(out.content))
      ensures r.Err? ==> r.error != Internal
    {
      hide Represents, BuildCookieReply, NewMacKeys;
      var built := Reply(jar, macKeys, now, rng.jar, sender, mac1, remote, out.len);
      if built.Err? {
        return Err(built.error);
      }
      out.content := Wire(Model.Cookies(built.value));
      if out.len < COOKIE_REPLY_LEN {
        return Err(Internal);
      }
      r := Ok(Model.Reply(Model.Cookies(built.value)));
    }

    /** Answering an initiation whose MACs have passed, up to the first write. */
    method DraftResponse(p: Model.Packet, outLen: nat, rng: Model.Entropy) returns (r: Result<Answer>)
      requires Valid() && p.Initiation?
      ensures r == Answered(View(), p, outLen, rng)
      ensures r.Ok? ==> outLen >= HANDSHAKE_RESPONSE_LEN
      ensures r.Err? ==> r.error != Internal
    {
      hide Represents, NewMacKeys, ConsumeInitiation, LexLessEq, Model.FreshIndex, SharedSecret;
      var consumed := ConsumeInitiation(localStatic, Pub(localStatic), peerPublic, ss, p.init);
      if consumed.Err? {
        return Err(consumed.error);
      }
      if greatestTimestamp.Some? && LexLessEq(consumed.value.timestamp, greatestTimestamp.value) {
        return Err(ReplayedTimestamp);
      }
      var index := FreshIndex(rng.indices);
      if index.Err? {
        return Err(index.error);
      }
      if rng.eph.None? {
        return Err(EntropyFailure);
      }
      var created := CreateResponse(consumed.value, psk, index.value, rng.eph.value, outLen);
      if created.Err? {
        return Err(created.error);
      }
      r := Ok(Answer(created.value.0, created.value.1, consumed.value.timestamp));
    }

    /** The message is in the buffer before its MACs are filled in; nothing here can fail. */
    method WriteResponse(answer: Answer, now: Ticks, out: OutBuffer) returns (r: Result<Model.Received>)
      requires Valid() && out !in Owned() && out.len >= HANDSHAKE_RESPONSE_LEN
      modifies this`lastRespMac1, this`greatestTimestamp, this`next, out`content
      ensures Valid() && fresh(Owned() - old(Owned()))
      ensures r.Ok? && r.value.Reply? && out.content == Wire(r.value.wire)
      ensures (View(), r) == Replying(old(View()), answer, now)
    {
      hide Represents, NewMacKeys, ApplyMacs, InitiationAlpha, ResponseAlpha, Responding;
      ghost var s := View();
      out.content := Wire(Model.Response(answer.body, ZERO_MAC, ZERO_MAC));
      if out.len < HANDSHAKE_RESPONSE_LEN {
        return Err(Internal);
      }
      var mac1 := FillMacs(macKeys, cookie, now, HANDSHAKE_RESPONSE_LEN, out);
      if mac1.Err? {
        return Err(ErrorOf(mac1));
      }
      assert View() == s;
      CommitResponse(answer, mac1.value, now);
      if out.len < HANDSHAKE_RESPONSE_LEN {
        return Err(Internal);
      }
      r := Ok(Model.Reply(out.content.packet));
    }

    method CommitResponse(answer: Answer, mac1: Term, now: Ticks)
      requires Valid()
      modifies this`lastRespMac1, this`greatestTimestamp, this`next
      ensures Valid() && fresh(Owned() - old(Owned()))
      ensures View() == Responding(old(View()), answer, mac1, now)
    {
      hide Represents, NewMacKeys;
      var session := new LiveSession(answer.keys, now);
      lastRespMac1 := Some(mac1);
      greatestTimestamp := Some(answer.timestamp);
      next := session;
    }

    /** The checks of an initiation and the draft of its answer; `Ok(None)` asks for a cookie
        reply instead. */
    method ScreenInitiation(now: Ticks, remote: seq<u8>, underLoad: bool, p: Model.Packet, outLen: nat,
        rng: Model.Entropy)
      returns (r: Result<Option<Answer>>)
      requires Valid() && p.Initiation?
      ensures r.Ok? && r.value.Some? ==> outLen >= HANDSHAKE_RESPONSE_LEN
      ensures Model.ReceiveInitiation(View(), now, remote, underLoad, p, outLen, rng)
           == if r.Err? then (View(), Err(r.error))
              else if r.value.None?
              then Model.RespondWithCookie(View(), now, remote, p.init.sender, p.mac1, outLen, rng)
              else Replying(View(), r.value.value, now)
      ensures r.Err? ==> r.error != Internal
    {
      hide Represents, NewMacKeys, Replying, VerifyMac2, InitiationAlpha, Model.RespondWithCookie, Answered,
        Model.ReceiveInitiation;
      InitiationSplit(View(), now, remote, underLoad, p, outLen, rng);
      var alpha := InitiationAlpha(p.init);
      if p.mac1 != Mac(macKeys.mac1Recv, alpha) {
        return Err(InvalidMac1);
      }
      var proven := Verify(jar, remote, Pair(alpha, p.mac1), p.mac2);
      if underLoad && !proven {
        return Ok(None);
      }
      var answer := DraftResponse(p, outLen, rng);
      r := if answer.Err? then Err(answer.error) else Ok(Some(answer.value));
    }

    method ReceiveInitiation(now: Ticks, remote: seq<u8>, underLoad: bool, p: Model.Packet, out: OutBuffer,
        rng: Model.Entropy)
      returns (r: Result<Model.Received>)
      requires Valid() && p.Initiation? && out !in Owned()
      modifies this`lastRespMac1, this`greatestTimestamp, this`next, jar, out`content
      ensures Valid() && fresh(Owned() - old(Owned()))
      ensures (View(), r) == Model.ReceiveInitiation(old(View()), now, remote, underLoad, p, out.len, rng)
      ensures out.content == Delivered(r, old(out.content))
      ensures r.Err? ==> r.error != Internal
    {
      hide Represents, NewMacKeys, View, Model.RespondWithCookie, Model.ReceiveInitiation, Replying;
      var screened := ScreenInitiation(now, remote, underLoad, p, out.len, rng);
      if screened.Err? {
        return Err(screened.error);
      }
      if screened.value.None? {
        r := RespondWithCookie(now, remote, p.init.sender, p.mac1, out, rng);
        return;
      }
      r := WriteResponse(screened.value.value, now, out);
    }

    /** The checks of a response up to its keys; `Ok(None)` asks for a cookie reply instead. */
    method ScreenResponse(now: Ticks, remote: seq<u8>, underLoad: bool, p: Model.Packet, outLen: nat,
        ghost rng: Model.Entropy)
      returns (r: Result<Option<SessionKeys>>)
      requires Valid() && p.Response?
      ensures Model.ReceiveResponse(View(), now, remote, underLoad, p, outLen, rng)
           == if r.Err? then (View(), Err(r.error))
              else if r.value.None?
              then Model.RespondWithCookie(View(), now, remote, p.resp.sender, p.mac1, outLen, rng)
              else (Completed(View(), r.value.value, now), Ok(Model.HandshakeComplete))
      ensures r.Err? ==> r.error != Internal
    {
      hide Represents, NewMacKeys, VerifyMac2, ResponseAlpha, Model.RespondWithCookie, ConsumeResponse;
      var alpha := ResponseAlpha(p.resp);
      if p.mac1 != Mac(macKeys.mac1Recv, alpha) {
        return Err(InvalidMac1);
      }
      if inflight.None? || inflight.value.localIndex != p.resp.receiver {
        return Err(NoPendingHandshake);
      }
      var proven := Verify(jar, remote, Pair(alpha, p.mac1), p.mac2);
      if underLoad && !proven {
        return Ok(None);
      }
      var keys := ConsumeResponse(inflight.value, localStatic, psk, p.resp);
      r := if keys.Err? then Err(keys.error) else Ok(Some(keys.value));
    }

    method ReceiveResponse(now: Ticks, remote: seq<u8>, underLoad: bool, p: Model.Packet, out: OutBuffer,
        rng: Model.Entropy)
      returns (r: Result<Model.Received>)
      requires Valid() && p.Response? && out !in Owned()
      modifies this`inflight, this`previous, this`current, this`recvRekeyDone, timers, jar, out`content
      ensures Valid() && fresh(Owned() - old(Owned()))
      ensures (View(), r) == Model.ReceiveResponse(old(View()), now, remote, underLoad, p, out.len, rng)
      ensures out.content == Delivered(r, old(out.content))
      ensures r.Err? ==> r.error != Internal
    {
      hide Represents, NewMacKeys, View, Model.ReceiveResponse, Model.RespondWithCookie, Completed;
      var screened := ScreenResponse(now, remote, underLoad, p, out.len, rng);
      if screened.Err? {
        return Err(screened.error);
      }
      if screened.value.None? {
        r := RespondWithCookie(now, remote, p.resp.sender, p.mac1, out, rng);
        return;
      }
      CommitSession(screened.value.value, now);
      r := Ok(Model.HandshakeComplete);
    }

    /** The new session becomes current, the old current becomes previous. */
    method CommitSession(keys: SessionKeys, now: Ticks)
      requires Valid()
      modifies this`inflight, this`previous, this`current, this`recvRekeyDone, timers
      ensures Valid() && fresh(Owned() - old(Owned()))
      ensures View() == Completed(old(View()), keys, now)
    {
      hide Represents, NewMacKeys, View;
      var session := new LiveSession(keys, now);
      Shift(session);
      Settle();
    }

    /** A completed handshake: nothing in flight, timers at rest, a confirmation due. */
    method Settle()
      requires Valid()
      modifies this`inflight, this`recvRekeyDone, timers
      ensures Valid() && Owned() == old(Owned())
      ensures View() == Settled(old(View()))
    {
      hide Represents, NewMacKeys;
      inflight := None;
      recvRekeyDone := false;
      timers.NoteHandshakeComplete();
      timers.confirmKeepaliveDue := true;
    }

    method Shift(session: LiveSession<Term>)
      requires Valid() && session.Valid() && session.Parts() !! Owned()
      modifies this`previous, this`current
      ensures Valid() && Owned() <= old(Owned()) + session.Parts()
      ensures View() == old(View()).(previous := old(View()).current, current := Some(session.View()))
    {
      hide Represents, NewMacKeys;
      previous := current;
      current := session;
    }

    method ReceiveCookie(now: Ticks, msg: CookieReply) returns (r: Result<Model.Received>)
      requires Valid()
      modifies this`cookie
      ensures Valid() && Owned() == old(Owned()) && (View(), r) == Model.ReceiveCookie(old(View()), now, msg)
      ensures r.Ok? ==> r.value == Model.CookieStored
      ensures r.Err? ==> r.error != Internal
    {
      hide Represents, NewMacKeys, Model.ReceiveCookie;
      var found := FindCookie(now, msg);
      if found.Err? {
        return Err(found.error);
      }
      cookie := Some(found.value);
      r := Ok(Model.CookieStored);
    }

    /** Try the reply against the last initiation, then against the last response. */
    method FindCookie(now: Ticks, msg: CookieReply) returns (r: Result<LastCookie>)
      requires Valid()
      ensures r.Err? ==> Model.ReceiveCookie(View(), now, msg) == (View(), Err(r.error))
      ensures r.Ok? ==>
        Model.ReceiveCookie(View(), now, msg) == (View().(cookie := Some(r.value)), Ok(Model.CookieStored))
      ensures r.Err? ==> r.error != Internal
    {
      hide Represents, NewMacKeys, Model.TryCookie;
      var slot := SessionWithIndex(msg.receiver);
      if slot.None? && (inflight.None? || inflight.value.localIndex != msg.receiver) {
        return Err(UnknownReceiverIndex);
      }
      var found := TryOpen(lastInitMac1, msg, now);
      if found.None? {
        found := TryOpen(lastRespMac1, msg, now);
      }
      if found.Some? {
        return Ok(found.value);
      }
      r := if lastInitMac1.None? && lastRespMac1.None? then Err(NoPendingHandshake) else Err(InvalidCookie);
    }

    method TryOpen(mac1: Option<Term>, msg: CookieReply, now: Ticks) returns (r: Option<LastCookie>)
      requires Valid()
      ensures r == Model.TryCookie(View(), mac1, msg, now)
    {
      hide Represents, NewMacKeys, ConsumeCookieReply;
      if mac1.None? {
        return None;
      }
      var reply := ConsumeCookieReply(macKeys, mac1.value, msg, now);
      r := if reply.Ok? then Some(reply.value) else None;
    }

    function SlotSession(slot: Model.Slot): (s: LiveSession?<Term>)
      reads this
    {
      match slot
      case Previous => previous
      case Current => current
      case Next => next
    }

    /** An authenticated counter enters the window of its session, which confirms it; a counter
        that the window refuses changes nothing. */
    method Admit(slot: Model.Slot, counter: u64) returns (r: Result<()>)
      requires Valid() && SlotSession(slot) != null
      modifies SlotSession(slot).Parts()
      ensures Valid()
      ensures r == if old(Fresh(SlotSession(slot).replay.seen, counter)) then Ok(()) else Err(Internal)
      ensures View() == if r.Ok? then Model.Admit(old(View()), slot, counter) else old(View())
    {
      hide Represents, NewMacKeys, Fresh;
      var session := SlotSession(slot);
      var accepted := session.replay.Accept(counter);
      if !accepted {
        return Err(Internal);
      }
      session.confirmed := true;
      r := Ok(());
    }

    /** First authenticated transport on a responder session: next becomes current. */
    method Promote()
      requires Valid()
      modifies this`previous, this`current, this`next, this`recvRekeyDone, this`inflight, timers
      ensures Valid() && Owned() <= old(Owned()) && View() == Model.Promote(old(View()))
    {
      hide Represents, NewMacKeys;
      MoveUp();
      recvRekeyDone := false;
      inflight := None;
      timers.NoteHandshakeComplete();
    }

    method MoveUp()
      requires Valid()
      modifies this`previous, this`current, this`next
      ensures Valid() && Owned() <= old(Owned())
      ensures View() == old(View()).(previous := old(View()).current, current := old(View()).next, next := None)
    {
      hide Represents, NewMacKeys;
      previous := current;
      current := next;
      next := null;
    }

    method RekeyOnReceive(now: Ticks)
      requires Valid()
      modifies this`recvRekeyDone, timers`rekeyDue
      ensures Valid() && View() == Model.RekeyOnReceive(old(View()), now)
    {
      hide Represents, NewMacKeys;
      if !recvRekeyDone && current != null && current.keys.isInitiator
          && current.Age(now) >= Model.REKEY_AFTER_TIME_RECV {
        timers.rekeyDue := true;
        recvRekeyDone := true;
      }
    }

    method NoteRx(now: Ticks, isKeepalive: bool)
      requires Valid()
      modifies timers
      ensures Valid() && View() == old(View()).(timers := old(View()).timers.NoteRx(now, isKeepalive))
    {
      hide Represents, NewMacKeys;
      timers.NoteRx(now, isKeepalive);
    }

    method Deliver(now: Ticks, slot: Model.Slot, counter: u64, isKeepalive: bool) returns (r: Result<()>)
      requires Valid() && SlotSession(slot) != null
      modifies this, timers, SlotSession(slot).Parts()
      ensures Valid() && Owned() <= old(Owned())
      ensures r == if old(Fresh(SlotSession(slot).replay.seen, counter)) then Ok(()) else Err(Internal)
      ensures View() == if r.Ok? then Model.Deliver(old(View()), now, slot, counter, isKeepalive) else old(View())
    {
      hide Represents, NewMacKeys, Fresh, View, Model.Admit, Model.Promote, Model.RekeyOnReceive;
      InSlotView(slot);
      var confirms := !SlotSession(slot).confirmed;
      r := Admit(slot, counter);
      if r.Err? {
        return;
      }
      if confirms && slot == Model.Next {
        Promote();
      }
      RekeyOnReceive(now);
      NoteRx(now, isKeepalive);
    }

    lemma InSlotView(slot: Model.Slot)
      requires Valid()
      ensures Model.InSlot(View(), slot) == ViewOf(SlotSession(slot))
    {}

    /** The checks of `handle_transport` up to decryption: they change nothing. */
    method ScreenTransport(now: Ticks, p: Model.Packet, outLen: nat) returns (r: Result<(Model.Slot, seq<u8>)>)
      requires Valid() && p.Transport?
      ensures r.Err? ==> Model.ReceiveTransport(View(), now, p, outLen) == (View(), Err(r.error))
      ensures r.Ok? ==> SlotSession(r.value.0) != null && Fresh(SlotSession(r.value.0).replay.seen, p.counter)
      ensures r.Ok? ==> Model.InSlot(View(), r.value.0).Some?
      ensures r.Ok? ==> Model.ReceiveTransport(View(), now, p, outLen)
                        == (Model.Deliver(View(), now, r.value.0, p.counter, r.value.1 == []),
                            Ok(if r.value.1 == [] then Model.Keepalive else Model.Data(r.value.1)))
      ensures r.Err? ==> r.error != Internal
    {
      hide Represents, NewMacKeys, Fresh, Model.Deliver, BodyLen;
      var slot := SessionWithIndex(p.receiver);
      if slot.None? {
        return Err(UnknownReceiverIndex);
      }
      if p.counter >= REJECT_AFTER_MESSAGES {
        return Err(Expired);
      }
      InSlotView(slot.value);
      var session := SlotSession(slot.value);
      if session == null {
        return Err(Internal);
      }
      if session.Age(now) >= REJECT_AFTER_TIME {
        return Err(Expired);
      }
      var ok := session.replay.Check(p.counter);
      if !ok {
        return Err(Error.Replay);
      }
      if outLen < BodyLen(p.ciphertext) {
        return Err(BufferTooSmall);
      }
      var got := Open(session.keys.recv, p.counter, EMPTY, p.ciphertext);
      if got.None? || !got.value.Atom? {
        return Err(AuthFailure);
      }
      r := Ok((slot.value, got.value.bytes));
    }

    /** The plaintext is in the buffer before its counter enters the window: a refusal there would
        wipe it, but the window was asked before decryption and has not changed since. */
    method ReceiveTransport(now: Ticks, p: Model.Packet, out: OutBuffer) returns (r: Result<Model.Received>)
      requires Valid() && p.Transport? && out !in Owned()
      modifies Owned(), out`content
      ensures Valid() && Owned() <= old(Owned()) && (View(), r) == Model.ReceiveTransport(old(View()), now, p, out.len)
      ensures out.content == Delivered(r, old(out.content))
      ensures r.Err? ==> r.error != Internal
    {
      hide Represents, NewMacKeys, Fresh, View, Model.ReceiveTransport, Model.Deliver;
      ghost var s := View();
      var screened := ScreenTransport(now, p, out.len);
      assert View() == s;
      if screened.Err? {
        return Err(screened.error);
      }
      var plain := screened.value.1;
      r := Ok(if plain == [] then Model.Keepalive else Model.Data(plain));
      out.content := Delivered(r, out.content);
      assert View() == s;
      var delivered := Deliver(now, screened.value.0, p.counter, plain == []);
      out.content := if delivered.Err? then Wiped else out.content;
      if delivered.Err? {
        return Err(ErrorOf(delivered));
      }
    }

    /** `decapsulate`: every error leaves the buffer and everything but the clamped clock as it was,
        and none of the branches that report an internal error is ever taken. */
    method Decapsulate(now0: Now, remote: seq<u8>, underLoad: bool, datagram: Option<Model.Packet>, out: OutBuffer,
        rng: Model.Entropy)
      returns (r: Result<Model.Received>)
      requires Valid() && out !in Owned()
      modifies Owned(), out`content
      ensures Valid() && fresh(Owned() - old(Owned()))
      ensures (View(), r) == Model.Decapsulate(old(View()), now0, remote, underLoad, datagram, out.len, rng)
      ensures out.content == Delivered(r, old(out.content))
      ensures r.Err? ==>
        r.error != Internal && View() == Model.AtClock(old(View()), now0) && out.content == old(out.content)
    {
      hide Represents, NewMacKeys, View, Model.Decapsulate;
      DispatchStep(View(), now0, remote, underLoad, datagram, out.len, rng);
      Effects.RejectionIsAtomic(View(), now0, remote, underLoad, datagram, out.len, rng);
      ghost var owned := Owned();
      var now := ClampNow(now0);
      r := Dispatch(now.ticks, remote, underLoad, datagram, out, rng);
      assert fresh(Owned() - owned);
    }

    /** `decapsulate` on the clamped clock, by kind of message. */
    method Dispatch(now: Ticks, remote: seq<u8>, underLoad: bool, datagram: Option<Model.Packet>, out: OutBuffer,
        rng: Model.Entropy)
      returns (r: Result<Model.Received>)
      requires Valid() && out !in Owned()
      modifies Owned(), out`content
      ensures Valid() && fresh(Owned() - old(Owned()))
      ensures (View(), r) == Dispatched(old(View()), now, remote, underLoad, datagram, out.len, rng)
      ensures out.content == Delivered(r, old(out.content))
      ensures r.Err? ==> r.error != Internal
    {
      hide Represents, NewMacKeys, View, Model.ReceiveInitiation, Model.ReceiveResponse, Model.ReceiveCookie,
        Model.ReceiveTransport;
      match datagram {
        case None => r := Err(InvalidPacket);
        case Some(Initiation(_, _, _)) => r := ReceiveInitiation(now, remote, underLoad, datagram.value, out, rng);
        case Some(Response(_, _, _)) => r := ReceiveResponse(now, remote, underLoad, datagram.value, out, rng);
        case Some(Cookies(reply)) => r := ReceiveCookie(now, reply);
        case Some(Transport(_, _, _)) => r := ReceiveTransport(now, datagram.value, out);
      }
    }
  }

  ghost function Dispatched(s: Model.State, now: Ticks, remote: seq<u8>, underLoad: bool,
      datagram: Option<Model.Packet>, outLen: nat, rng: Model.Entropy): (r: (Model.State, Result<Model.Received>))
  {
    match datagram
    case None => (s, Err(InvalidPacket))
    case Some(Initiation(_, _, _)) => Model.ReceiveInitiation(s, now, remote, underLoad, datagram.value, outLen, rng)
    case Some(Response(_, _, _)) => Model.ReceiveResponse(s, now, remote, underLoad, datagram.value, outLen, rng)
    case Some(Cookies(reply)) => Model.ReceiveCookie(s, now, reply)
    case Some(Transport(_, _, _)) => Model.ReceiveTransport(s, now, datagram.value, outLen)
  }

  lemma DispatchStep(s: Model.State, now: Now, remote: seq<u8>, underLoad: bool, datagram: Option<Model.Packet>,
      outLen: nat, rng: Model.Entropy)
    ensures Model.Decapsulate(s, now, remote, underLoad, datagram, outLen, rng)
         == Dispatched(Model.AtClock(s, now), Model.Clamped(s, now).ticks, remote, underLoad, datagram, outLen, rng)
  {
    hide Model.ReceiveInitiation, Model.ReceiveResponse, Model.ReceiveCookie, Model.ReceiveTransport;
  }

  /** What answering computes before the first write. */
  ghost function Answered(s: Model.State, p: Model.Packet, outLen: nat, rng: Model.Entropy): (r: Result<Answer>)
    requires p.Initiation?
  {
    var consumed := ConsumeInitiation(s.config.localStatic, s.LocalPublic(), s.config.peerPublic, s.ss, p.init);
    if consumed.Err? then Err(consumed.error) else
    if s.greatestTimestamp.Some? && LexLessEq(consumed.value.timestamp, s.greatestTimestamp.value)
    then Err(ReplayedTimestamp) else
    var index := Model.FreshIndex(s, rng.indices, 0);
    if index.Err? then Err(index.error) else
    if rng.eph.None? then Err(EntropyFailure) else
    var created := CreateResponse(consumed.value, s.config.psk, index.value, rng.eph.value, outLen);
    if created.Err? then Err(created.error) else
    Ok(Answer(created.value.0, created.value.1, consumed.value.timestamp))
  }

  lemma InitiationSplit(s: Model.State, now: Ticks, remote: seq<u8>, underLoad: bool, p: Model.Packet, outLen: nat,
      rng: Model.Entropy)
    requires p.Initiation?
    ensures Model.ReceiveInitiation(s, now, remote, underLoad, p, outLen, rng) ==
      var alpha := InitiationAlpha(p.init);
      if p.mac1 != Mac(s.Keys().mac1Recv, alpha) then (s, Err(InvalidMac1))
      else if underLoad && !VerifyMac2(s.jar, remote, Pair(alpha, p.mac1), p.mac2) then
        Model.RespondWithCookie(s, now, remote, p.init.sender, p.mac1, outLen, rng)
      else
        var a := Answered(s, p, outLen, rng);
        if a.Err? then (s, Err(a.error)) else Replying(s, a.value, now)
  {
    hide ConsumeInitiation, CreateResponse, ApplyMacs, LexLessEq, Model.FreshIndex, ResponseAlpha, VerifyMac2,
      Model.RespondWithCookie;
  }
}
