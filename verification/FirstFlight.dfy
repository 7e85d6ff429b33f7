/** The protocol does its job: two new tunnels establish a session and carry a payload.
    The established state also shows the one case where `poll` acts before `next_wake`. */
module FirstFlight {
  import opened Machine
  import opened Time
  import opened Terms
  import opened Noise
  import opened Sessions
  import opened Cookie
  import opened Timers
  import opened TunnelModel
  import opened KeyAgreement
  import opened Polling
  import TunnelInvariant
  import Replay

  /** A configuration of one end, talking to the other. */
  function End(p: Party, psk: Term, keepalive: Option<Interval>, mtu: Option<Interval>): (c: Config) {
    Config(Static(p), Pub(Static(Other(p))), psk, keepalive, mtu)
  }

  function NewEnd(p: Party, psk: Term, keepalive: Option<Interval>, mtu: Option<Interval>): (s: State)
    ensures NewTunnel(End(p, psk, keepalive, mtu)) == Ok(s)
  {
    NewTunnel(End(p, psk, keepalive, mtu)).value
  }

  /** Entropy that does not fail: one index and one ephemeral name. */
  function Good(index: u32, eph: Name): (e: Entropy) {
    Entropy([Some(index)], Some(eph), Some(0), JarEntropy(None, None))
  }

  lemma FirstIndex(s: State, index: u32, eph: Name)
    requires !Clashes(s, index)
    ensures FreshIndex(s, Good(index, eph).indices, 0) == Ok(index)
  {}

  /** What the initiator holds after its first initiation. */
  predicate Opened(p: Party, s: State, psk: Term, index: u32, eph: Name, stamp: Tai64N, now: Ticks, pkt: Packet) {
    && s.config.localStatic == Static(p) && s.config.peerPublic == Pub(Static(Other(p))) && s.config.psk == psk
    && s.previous.None? && s.current.None? && s.next.None? && s.inflight.Some? && s.cookie.None?
    && s.lastNow == now
    && s.timers == DEFAULT_TIMERS.(attemptStarted := Some(now), lastInitiationTx := Some(now),
        retransmitAt := Some(AddNanos(now, REKEY_TIMEOUT)))
    && pkt.Initiation?
    && s.ss == DhTerm(Static(p), Static(Other(p)))
    && CreateInitiation(Pub(Static(p)), Pub(Static(Other(p))), s.ss, index, eph, stamp, HANDSHAKE_INITIATION_LEN)
       == Ok((s.inflight.value, pkt.init))
    && pkt.mac1 == Mac(Hash(LABEL_MAC1, Pub(Static(Other(p)))), InitiationAlpha(pkt.init))
  }

  lemma OpensHandshake(p: Party, psk: Term, keepalive: Option<Interval>, mtu: Option<Interval>, now: Now,
      outLen: nat, index: u32, eph: Name)
    returns (s: State, pkt: Packet)
    requires outLen >= HANDSHAKE_INITIATION_LEN
    ensures InitiateHandshake(NewEnd(p, psk, keepalive, mtu), now, outLen, Good(index, eph)) == (s, Ok(pkt))
    ensures Opened(p, s, psk, index, eph, Stamp(now), now.ticks, pkt)
    ensures s.config.keepalive == keepalive && s.config.mtu == mtu
  {
    var s0 := NewEnd(p, psk, keepalive, mtu);
    var a := AtClock(s0, now);
    FirstIndex(a.(timers := a.timers.(gaveUp := false, attemptStarted := None)), index, eph);
    var r := InitiateHandshake(s0, now, outLen, Good(index, eph));
    hide Stamp;
    s, pkt := r.0, r.1.value;
  }

  /** The responder answers a first initiation. */
  lemma Answers(q: Party, s: State, psk: Term, b: State, now: Now, remote: seq<u8>, outLen: nat, indexI: u32,
      ei: Name, stamp: Tai64N,
                nowI: Ticks, pkt: Packet, index: u32, eph: Name) returns (b1: State, resp: Packet)
    requires Opened(Other(q), s, psk, indexI, ei, stamp, nowI, pkt) && outLen >= HANDSHAKE_RESPONSE_LEN
    requires exists keepalive: Option<Interval>, mtu: Option<Interval> :: b == NewEnd(q, psk, keepalive, mtu)
    ensures Decapsulate(b, now, remote, false, Some(pkt), outLen, Good(index, eph)) == (b1, Ok(Reply(resp)))
    ensures resp.Response? && b1.next.Some? && b1.current.None? && b1.previous.None? && b1.inflight.None?
    ensures b1.next == Some(NewSession(b1.next.value.keys, now.ticks)) && b1.lastNow == now.ticks
    ensures b1.next.value.keys.localIndex == index && b1.next.value.keys.peerIndex == indexI
        && !b1.next.value.keys.isInitiator
    ensures resp.mac1 == Mac(Hash(LABEL_MAC1, Pub(Static(Other(q)))), ResponseAlpha(resp.resp))
    ensures resp.resp.receiver == indexI && resp.resp.sender == index
    ensures ConsumeResponse(s.inflight.value, Static(Other(q)), psk, resp.resp)
            == Ok(SessionKeys(b1.next.value.keys.recv, b1.next.value.keys.send, indexI, index, true))
  {
    var a := AtClock(b, now);
    FirstIndex(a, index, eph);
    DhCommutes(Static(q), Static(Other(q)));
    InitiationIsConsumed(Static(Other(q)), Static(q), s.ss, ei, stamp, indexI);
    var c := ConsumeInitiation(Static(q), Pub(Static(q)), Pub(Static(Other(q))), s.ss, pkt.init).value;
    ResponseIsConsumed(s.inflight.value, c, Static(Other(q)), eph, psk, psk, index);
    ResponseIndices(c, psk, index, eph, outLen);
    hide CreateInitiation, ConsumeInitiation, CreateResponse, ConsumeResponse, DhTerm, FreshIndex, InitiationAlpha,
      ResponseAlpha;
    var r := Decapsulate(b, now, remote, false, Some(pkt), outLen, Good(index, eph));
    b1, resp := r.0, r.1.value.wire;
  }

  lemma ResponseIndices(c: Consumed, psk: Term, index: u32, eph: Name, outLen: nat)
    requires outLen >= HANDSHAKE_RESPONSE_LEN && CreateResponse(c, psk, index, eph, HANDSHAKE_RESPONSE_LEN).Ok?
    ensures CreateResponse(c, psk, index, eph, outLen) == CreateResponse(c, psk, index, eph, HANDSHAKE_RESPONSE_LEN)
    ensures var body := CreateResponse(c, psk, index, eph, outLen).value.1;
            body.sender == index && body.receiver == c.peerIndex
  {}

  /** The initiator completes. */
  lemma Finishes(p: Party, s: State, psk: Term, indexI: u32, ei: Name, stamp: Tai64N, nowI: Ticks, pkt: Packet,
      resp: Packet, keys: SessionKeys,
                 now: Now, remote: seq<u8>, outLen: nat, rng: Entropy) returns (s1: State)
    requires Opened(p, s, psk, indexI, ei, stamp, nowI, pkt) && now.ticks >= nowI
    requires resp.Response? && resp.resp.receiver == indexI
    requires resp.mac1 == Mac(Hash(LABEL_MAC1, Pub(Static(p))), ResponseAlpha(resp.resp))
    requires ConsumeResponse(s.inflight.value, Static(p), psk, resp.resp) == Ok(keys) && keys.isInitiator
    ensures Decapsulate(s, now, remote, false, Some(resp), outLen, rng) == (s1, Ok(HandshakeComplete))
    ensures s1.current == Some(NewSession(keys, now.ticks)) && s1.inflight.None? && s1.lastNow == now.ticks
    ensures s1.previous.None? && s1.next.None? && s1.config == s.config
    ensures s1.timers == DEFAULT_TIMERS.(lastInitiationTx := Some(nowI), confirmKeepaliveDue := true)
  {
    assert s.inflight.value.localIndex == indexI;
    hide CreateInitiation, ConsumeResponse, ResponseAlpha;
    s1 := Decapsulate(s, now, remote, false, Some(resp), outLen, rng).0;
  }

  /** The payload sealed by `a` is delivered by `b`, padded to `plain`, and both then hold
      matching keys. */
  ghost predicate Crosses(a: State, b: State, t2: Now, u1: Now, payload: seq<u8>, plain: seq<u8>, rng: Entropy) {
    var (a3, sealed) := Encapsulate(a, t2, payload, |plain| + 32, rng);
    && sealed.Ok? && sealed.value.Sealed? && a3.current.Some?
    && var (b2, got) := Decapsulate(b, u1, [], false, Some(sealed.value.wire), |plain|, rng);
       && got == Ok(Data(plain))
       && b2.current.Some? && b2.current.value.confirmed && b2.next.None?
       && b2.current.value.keys.send == a3.current.value.keys.recv
       && b2.current.value.keys.recv == a3.current.value.keys.send
  }

  /** The initiator takes the response, and the payload then crosses. */
  ghost predicate Completes(a: State, b: State, response: Packet, t1: Now, t2: Now, u1: Now, payload: seq<u8>,
      plain: seq<u8>, rng: Entropy) {
    var (a2, done) := Decapsulate(a, t1, [], false, Some(response), 0, rng);
    done == Ok(HandshakeComplete) && Crosses(a2, b, t2, u1, payload, plain, rng)
  }

  /** The responder takes the initiation, and the rest follows. */
  ghost predicate Answered(a: State, b: State, initiation: Packet, t1: Now, t2: Now, u0: Now, u1: Now,
      payload: seq<u8>, plain: seq<u8>,
                           answer: Entropy, rng: Entropy)
  {
    var (b1, reply) := Decapsulate(b, u0, [], false, Some(initiation), 92, answer);
    reply.Ok? && reply.value.Reply? && Completes(a, b1, reply.value.wire, t1, t2, u1, payload, plain, rng)
  }

  /** For every payload, pre-shared key, MTU and pair of clocks, as long as each end sees
      the exchange within its 180 s: handshake out, response back, payload out, and the
      other end delivers exactly the padded payload and promotes its session. */
  lemma FirstPayloadArrives(p: Party, psk: Term, keepP: Option<Interval>, keepQ: Option<Interval>,
      mtu: Option<Interval>, mtuQ: Option<Interval>,
                            t0: Now, t1: Now, t2: Now, u0: Now, u1: Now, payload: seq<u8>,
                            indexP: u32, indexQ: u32, ei: Name, er: Name, rng: Entropy)
    requires payload != []
    requires t0.ticks <= t1.ticks <= t2.ticks < t1.ticks + REJECT_AFTER_TIME
    requires u0.ticks <= u1.ticks < u0.ticks + REJECT_AFTER_TIME
    ensures var (a1, init) := InitiateHandshake(NewEnd(p, psk, keepP, mtu), t0, 148, Good(indexP, ei));
            init.Ok? && Answered(a1, NewEnd(Other(p), psk, keepQ, mtuQ), init.value, t1, t2, u0, u1, payload,
                Pad(payload, mtu), Good(indexQ, er), rng)
  {
    hide NewEnd, InitiateHandshake, Stamp, ConsumeResponse, ResponseAlpha, Decapsulate, Encapsulate, CreateInitiation,
      InitiationAlpha, Crosses;
    var a1, pkt := OpensHandshake(p, psk, keepP, mtu, t0, 148, indexP, ei);
    var b0 := NewEnd(Other(p), psk, keepQ, mtuQ);
    var b1, resp := Answers(Other(p), a1, psk, b0, u0, [], 92, indexP, ei, Stamp(t0), t0.ticks, pkt, indexQ, er);
    var keys := SessionKeys(b1.next.value.keys.recv, b1.next.value.keys.send, indexP, indexQ, true);
    var a2 := Finishes(p, a1, psk, indexP, ei, Stamp(t0), t0.ticks, pkt, resp, keys, t1, [], 0, rng);
    PayloadCrosses(a2, b1, keys, t1, t2, u0, u1, payload, rng);
  }

  /** Both ends of a fresh session: the payload sealed by one is delivered by the other. */
  lemma PayloadCrosses(a: State, b: State, keys: SessionKeys, t1: Now, t2: Now, u0: Now, u1: Now, payload: seq<u8>,
      rng: Entropy)
    requires payload != [] && t1.ticks <= t2.ticks < t1.ticks + REJECT_AFTER_TIME
        && u0.ticks <= u1.ticks < u0.ticks + REJECT_AFTER_TIME
    requires a.current == Some(NewSession(keys, t1.ticks)) && a.lastNow == t1.ticks && keys.isInitiator
    requires b.next.Some? && b.next == Some(NewSession(b.next.value.keys, u0.ticks)) && b.lastNow == u0.ticks
    requires b.next.value.keys == SessionKeys(keys.recv, keys.send, keys.peerIndex, keys.localIndex, false)
    ensures Crosses(a, b, t2, u1, payload, Pad(payload, a.config.mtu), rng)
  {
    var plain := Pad(payload, a.config.mtu);
    assert plain != [];
    hide Pad;
    var wire := Transport(keys.peerIndex, 0, Seal(keys.send, 0, EMPTY, Atom(plain)));
    assert Encapsulate(a, t2, payload, |plain| + 32, rng).1 == Ok(Sealed(wire));
    hide Encapsulate;
    var x := AtClock(b, u1);
    assert SlotOf(x, keys.peerIndex) == Some(Next);
    assert Len(Atom(plain)) == |plain| && BodyLen(wire.ciphertext) == |plain|;
    assert ReceiveTransport(x, u1.ticks, wire, |plain|) == (Deliver(x, u1.ticks, Next, 0, false), Ok(Data(plain)));
  }

  // ----- Poll before next_wake ----------------------------------------------------------------

  lemma ThreeSteps(config: Config, s0: State, e1: Event, s1: State, e2: Event, s2: State, e3: Event, s3: State)
    requires NewTunnel(config) == Ok(s0) && ClockBelowSaturation(e1) && ClockBelowSaturation(e2)
      && ClockBelowSaturation(e3)
    requires Step(s0, e1).0 == s1 && Step(s1, e2).0 == s2 && Step(s2, e3).0 == s3
    ensures Reachable(s3)
  {
    hide Step, NewTunnel, ClockBelowSaturation;
    var events := [e1, e2, e3];
    assert events[..2] == [e1, e2] && [e1, e2][..1] == [e1] && [e1][..0] == [];
    assert Run(s0, []) == s0;
    assert Run(s0, [e1]) == s1;
    assert Run(s0, [e1, e2]) == s2;
    assert Run(s0, events) == s3;
    assert ClocksBelowSaturation(events);
  }

  /** After an initiator handshake at zero and its confirming keepalive, with a persistent
      keepalive of 300 s. */
  lemma Confirmed(a: State, keys: SessionKeys, rng: Entropy) returns (s: State)
    requires a.current == Some(NewSession(keys, 0)) && a.inflight.None? && a.lastNow == 0 && keys.isInitiator
    requires a.previous.None? && a.next.None? && a.config.keepalive == Some(300)
    requires a.timers == DEFAULT_TIMERS.(lastInitiationTx := Some(0), confirmKeepaliveDue := true)
    ensures Poll(a, Now(0, 0, 0), 148, rng).0 == s
    ensures s.current == Some(NewSession(keys, 0).(sendCounter := 1)) && s.inflight.None? && s.lastNow == 0
    ensures s.previous.None? && s.next.None? && s.config == a.config && s.cookie == a.cookie && s.ss == a.ss
        && s.lastSentTai == a.lastSentTai
    ensures s.timers == DEFAULT_TIMERS.(lastInitiationTx := Some(0), lastAnyTx := Some(0))
  {
    s := Poll(a, Now(0, 0, 0), 148, rng).0;
  }

  lemma RevivesEarly(s: State, keys: SessionKeys, index: u32, eph: Name)
    requires s.current == Some(NewSession(keys, 0).(sendCounter := 1)) && s.inflight.None? && s.lastNow == 0
        && keys.isInitiator
    requires s.previous.None? && s.next.None? && s.config.keepalive == Some(300) && s.config.peerPublic.Pub?
    requires s.timers == DEFAULT_TIMERS.(lastInitiationTx := Some(0), lastAnyTx := Some(0))
    requires index != keys.localIndex
    ensures NextWake(s) == Some(300_000_000_000)
    ensures var r := Poll(s, Now(200_000_000_000, 0, 0), 148, Good(index, eph)).1;
            r.Ok? && r.value.Send? && r.value.reason == FreshInitiation
  {
    var now := Now(200_000_000_000, 0, 0);
    var a := AtClock(s, now);
    assert DropStaleNext(a, now.ticks) == a && !DiscardDue(a, now.ticks) && !RetransmitDue(a, now.ticks)
        && !a.Usable(now.ticks);
    assert Poll(s, now, 148, Good(index, eph)) == PollRekey(a, now, 148, Good(index, eph));
    var b := a.(timers := a.timers.(attemptStarted := None));
    FirstIndex(b, index, eph);
    hide OutgoingStamp, FreshIndex;
    assert PollRekey(a, now, 148, Good(index, eph)) == StartAttempt(a, now, 148, Good(index, eph));
    assert SendInitiation(b, now, 148, Good(index, eph), true).1.Ok?;
  }

  /** The run behind the example, with its arguments left open. */
  lemma EstablishAndConfirm(zero: Now, psk: Term, index: u32, ei: Name, er: Name, good: Entropy) returns (s: State,
      keys: SessionKeys)
    requires zero == Now(0, 0, 0)
    ensures Reachable(s) && keys.localIndex == index && keys.isInitiator
    ensures s.current == Some(NewSession(keys, 0).(sendCounter := 1)) && s.inflight.None? && s.lastNow == 0
    ensures s.previous.None? && s.next.None? && s.config.keepalive == Some(300) && s.config.peerPublic.Pub?
    ensures s.timers == DEFAULT_TIMERS.(lastInitiationTx := Some(0), lastAnyTx := Some(0))
  {
    hide Stamp, ConsumeResponse, ResponseAlpha, Decapsulate, InitiateHandshake, Poll, NextWake, CreateInitiation,
      NewEnd, NewTunnel;
    var s0 := NewEnd(Alice, psk, Some(300), None);
    var a1, pkt := OpensHandshake(Alice, psk, Some(300), None, zero, 148, index, ei);
    var b1, resp := Answers(Bob, a1, psk, NewEnd(Bob, psk, None, None), zero, [], 92, index, ei, Stamp(zero), 0, pkt,
        index, er);
    keys := SessionKeys(b1.next.value.keys.recv, b1.next.value.keys.send, index, index, true);
    var a2 := Finishes(Alice, a1, psk, index, ei, Stamp(zero), 0, pkt, resp, keys, zero, [], 0, good);
    hide Opened;
    s := Confirmed(a2, keys, good);
    ThreeSteps(End(Alice, psk, Some(300), None), s0, DoInitiate(zero, 148, Good(index, ei)), a1,
               DoDecapsulate(zero, [], false, Some(resp), 0, good), a2, DoPoll(zero, 148, good), s);
  }

  /** A reachable state whose advertised wake-up is at 300 s and that starts a handshake when
      polled at 200 s: the current session died at 180 s, which `next_wake` does not count. */
  lemma EarlyRevivalHappens() returns (s: State, now: Now, outLen: nat, rng: Entropy)
    ensures Reachable(s) && Ahead(NextWake(s), now.ticks) && s.lastNow <= now.ticks
    ensures EarlyRevival(s, now.ticks)
    ensures Poll(s, now, outLen, rng).1.Ok? && Poll(s, now, outLen, rng).1.value.Send?
  {
    var keys: SessionKeys;
    rng := Good(1, Draw(Alice, 1));
    s, keys := EstablishAndConfirm(Now(0, 0, 0), EMPTY, 0, Draw(Alice, 0), Draw(Bob, 0), rng);
    RevivesEarly(s, keys, 1, Draw(Alice, 1));
    hide Poll, NextWake;
    now, outLen := Now(200_000_000_000, 0, 0), 148;
  }
}
