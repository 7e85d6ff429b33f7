/** Two endpoints and the bytes between them: a whole handshake, and the cookie exchange of a
    responder under load. */
module OverTheWire {
  import opened Machine
  import opened Bytes
  import opened Time
  import opened Sessions
  import opened Rotation
  import opened NoiseBytes
  import opened CookieBytes
  import opened Endpoint
  import Aead
  import Message
  import Model = TunnelModel
  import Replay
  import Transport
  import Kdf
  import X25519

  /** Two configurations for each other. */
  ghost predicate Paired(a: Config, b: Config) {
    && a.constants == b.constants && a.psk == b.psk && a.ss == b.ss
    && a.localPublic == X25519.PublicKey(a.localStatic) == b.peerPublic
    && b.localPublic == X25519.PublicKey(b.localStatic) == a.peerPublic
    && a.macKeys == KeysOf(a.localPublic, a.peerPublic) && b.macKeys == KeysOf(b.localPublic, b.peerPublic)
  }

  lemma KeysCross(a: Config, b: Config)
    requires Paired(a, b)
    ensures a.macKeys.mac1Send == b.macKeys.mac1Recv && b.macKeys.mac1Send == a.macKeys.mac1Recv
    ensures a.macKeys.cookieRecv == b.macKeys.cookieSend
  {
    hide Labelled, X25519.PublicKey;
  }

  /** A message that carries both MACs parses and passes the first check of the other end; what
      it says under its second MAC is everything before that. */
  lemma InitiationParses(a: Config, b: Config, cookie: Option<LastCookie>, now: Ticks, index: u32, eph: Key,
      stamp: Tai64N)
    requires Paired(a, b) && Agree(X25519.ClampScalar(eph), b.localStatic)
    ensures var sent := Initiation(a.constants, a.localPublic, a.peerPublic, a.ss, index, eph, stamp);
            && sent.Ok? && sent.value.0.localIndex == index && sent.value.0.ephSecret == X25519.ClampScalar(eph)
            && var body := sent.value.1;
               var wire := Macced(a.macKeys, cookie, now, body);
               var mac1 := MacOf(a.macKeys.mac1Send, body);
               && |wire| == HANDSHAKE_INITIATION_LEN
               && Message.Parse(wire).Ok?
               && var p := Message.Parse(wire).value;
                  && p.HandshakeInitiation? && Message.WellFormed(p)
                  && p.sender == index && p.alpha == body && p.mac1 == mac1 && p.beta == body + mac1
                  && p.mac2 == Mac2Of(cookie, now, body + mac1)
                  && ConsumedInitiation(b.constants, b.localStatic, b.localPublic, b.peerPublic, b.ss, p)
                     == Ok(Consumed(index, a.localPublic, stamp, X25519.PublicKey(X25519.ClampScalar(eph)),
                                    sent.value.0.chain, sent.value.0.hash))
  {
    hide X25519.PublicKey, X25519.Shared, X25519.ClampScalar, Message.Parse, Message.WellFormed, MacOf, Mac2Of,
      ConsumedInitiation, Labelled, Message.InitiationBody, WithEphemeral, SealedUnder, After;
    var sent := Initiation(a.constants, a.localPublic, a.peerPublic, a.ss, index, eph, stamp);
    var body := sent.value.1;
    var mac1 := MacOf(a.macKeys.mac1Send, body);
    var mac2 := Mac2Of(cookie, now, body + mac1);
    InitiationArrives(a.constants, a.localStatic, b.localStatic, a.ss, index, eph, stamp, mac1, mac2);
    var secret := X25519.ClampScalar(eph);
    var e := X25519.PublicKey(secret);
    var t := WithEphemeral(Start(a.constants, a.peerPublic), e);
    var es := X25519.Shared(secret, a.peerPublic).value;
    var identity := SealedUnder(t, es, a.localPublic);
    var sealed := SealedUnder(After(t, es, identity), a.ss, stamp);
    Message.InitiationRoundTrip(index, e, identity, sealed, mac1, mac2);
  }

  lemma ResponseParses(a: Config, b: Config, f: InFlight, consumed: Consumed, cookie: Option<LastCookie>, now: Ticks,
      index: u32, eph: Key)
    requires Paired(a, b)
    requires consumed.chain == f.chain && consumed.hash == f.hash && consumed.peerIndex == f.localIndex
    requires consumed.ephemeral == X25519.PublicKey(f.ephSecret) && consumed.staticPublic == a.localPublic
    requires Agree(X25519.ClampScalar(eph), f.ephSecret) && Agree(X25519.ClampScalar(eph), a.localStatic)
    ensures var sent := Response(consumed, b.psk, index, eph);
            && sent.Ok? && sent.value.0.localIndex == index && sent.value.0.peerIndex == f.localIndex
            && !sent.value.0.isInitiator
            && var body := sent.value.1;
               var wire := Macced(b.macKeys, cookie, now, body);
               && |wire| == HANDSHAKE_RESPONSE_LEN
               && Message.Parse(wire).Ok?
               && var p := Message.Parse(wire).value;
                  && p.HandshakeResponse? && Message.WellFormed(p)
                  && p.receiver == f.localIndex && p.alpha == body && p.mac1 == MacOf(b.macKeys.mac1Send, body)
                  && ConsumedResponse(f, a.localStatic, a.psk, p)
                     == Ok(SessionKeys(sent.value.0.recv, sent.value.0.send, f.localIndex, index, true))
  {
    hide X25519.PublicKey, X25519.Shared, X25519.ClampScalar, Message.Parse, Message.WellFormed, MacOf, Mac2Of,
      ConsumedResponse, Labelled, Message.ResponseBody, WithEphemeral, Psk2, Aead.Sealed, Aead.NonceFromCounter,
      Kdf.Derived;
    var sent := Response(consumed, b.psk, index, eph);
    var body := sent.value.1;
    var mac1 := MacOf(b.macKeys.mac1Send, body);
    var mac2 := Mac2Of(cookie, now, body + mac1);
    ResponseArrives(f, consumed, a.localStatic, b.psk, index, eph, mac1, mac2);
    var secret := X25519.ClampScalar(eph);
    var e := X25519.PublicKey(secret);
    var t := WithEphemeral(Transcript(consumed.chain, consumed.hash), e);
    var ee, se := X25519.Shared(secret, consumed.ephemeral).value, X25519.Shared(secret, consumed.staticPublic).value;
    var keyed := Psk2(t, ee, se, b.psk);
    var nothing := Aead.Sealed(keyed.1, Aead.NonceFromCounter(0), keyed.0.h, []);
    Message.ResponseRoundTrip(index, consumed.peerIndex, e, nothing, mac1, mac2);
  }

  /** What the responder makes of an initiation that parses, passes the MACs and decrypts. */
  lemma Responds(e: Env, s: State, wire: seq<u8>, consumed: Consumed, reply: seq<u8>)
    requires Message.Parse(wire).Ok? && Message.Parse(wire).value.HandshakeInitiation?
    requires Message.WellFormed(Message.Parse(wire).value)
    requires var p := Message.Parse(wire).value;
             && p.mac1 == MacOf(e.config.macKeys.mac1Recv, p.alpha)
             && ConsumedInitiation(e.config.constants, e.config.localStatic, e.config.localPublic, e.config.peerPublic,
                                   e.config.ss, p) == Ok(consumed)
             && (e.underLoad ==> Proves(s.jar, e.remote, p.beta, p.mac2))
    requires s.greatestTimestamp.Some? ==> !LexLessEq(consumed.timestamp, s.greatestTimestamp.value)
    requires FirstFree(s, e.rng.indices, 0).Ok? && e.rng.eph.Some?
    ensures Decapsulated(e, s, wire, reply)
         == ResponseOf(e, s, consumed, FirstFree(s, e.rng.indices, 0).value, e.rng.eph.value, reply)
  {
    hide ResponseOf, FirstFree, ConsumedInitiation, LexLessEq, MacOf, Proves, Message.Parse, Message.WellFormed;
  }

  /** What the initiator makes of a response that parses, passes the MACs and decrypts. */
  lemma Completes(e: Env, s: State, wire: seq<u8>, keys: SessionKeys, out: seq<u8>)
    requires Message.Parse(wire).Ok? && Message.Parse(wire).value.HandshakeResponse?
    requires Message.WellFormed(Message.Parse(wire).value)
    requires var p := Message.Parse(wire).value;
             && p.mac1 == MacOf(e.config.macKeys.mac1Recv, p.alpha)
             && (e.underLoad ==> Proves(s.jar, e.remote, p.beta, p.mac2))
             && s.inflight.Some? && s.inflight.value.localIndex == p.receiver
             && ConsumedResponse(s.inflight.value, e.config.localStatic, e.config.psk, p) == Ok(keys)
    ensures Decapsulated(e, s, wire, out) == Outcome(s.Completed(keys, e.now), Ok(HandshakeComplete), out)
  {
    hide ConsumedResponse, MacOf, Proves, Message.Parse, Message.WellFormed;
  }

  lemma Prefix(x: seq<u8>, y: seq<u8>)
    ensures (x + y)[..|x|] == x
  {}

  /** For all keys, indices, clocks, cookies and buffers: the initiation that one endpoint writes is
      answered by the other, and the answer completes the handshake.  Each side then sends under
      the key the other receives under, the indices cross, and the stamp is on record.  The two
      ends of each Diffie-Hellman pair agreeing on a secret that is not zero is assumed. */
  lemma HandshakeOverTheWire(a: Config, b: Config, sa: State, sb: State, now: Now, rng: Entropy, timerDriven: bool,
      out: seq<u8>, eb: Env, reply: seq<u8>, ea: Env, rest: seq<u8>)
    requires Paired(a, b) && ea.config == a && eb.config == b && !ea.underLoad && !eb.underLoad
    requires FirstFree(sa, rng.indices, 0).Ok? && rng.eph.Some? && |out| >= HANDSHAKE_INITIATION_LEN
    requires FirstFree(sb, eb.rng.indices, 0).Ok? && eb.rng.eph.Some? && |reply| >= HANDSHAKE_RESPONSE_LEN
    requires sb.greatestTimestamp.Some? ==> !LexLessEq(OutgoingStamp(sa.lastSentTai, now), sb.greatestTimestamp.value)
    requires Agree(X25519.ClampScalar(rng.eph.value), b.localStatic)
    requires Agree(X25519.ClampScalar(eb.rng.eph.value), X25519.ClampScalar(rng.eph.value))
    requires Agree(X25519.ClampScalar(eb.rng.eph.value), a.localStatic)
    ensures var first := Initiating(a, sa, now, rng, timerDriven, out);
            && first.result == Ok(HANDSHAKE_INITIATION_LEN) && |first.buffer| == |out|
            && var second := Decapsulated(eb, sb, first.buffer[..HANDSHAKE_INITIATION_LEN], reply);
               && second.result == Ok(Reply(HANDSHAKE_RESPONSE_LEN)) && |second.buffer| == |reply|
               && second.state.greatestTimestamp == Some(OutgoingStamp(sa.lastSentTai, now))
               && var third := Decapsulated(ea, first.state, second.buffer[..HANDSHAKE_RESPONSE_LEN], rest);
                  && third.result == Ok(HandshakeComplete)
                  && third.state.current.Some? && second.state.next.Some?
                  && var (i, r) := (third.state.current.value.keys, second.state.next.value.keys);
                     && i.send == r.recv && i.recv == r.send && i.isInitiator && !r.isInitiator
                     && i.localIndex == r.peerIndex && r.localIndex == i.peerIndex
  {
    hide X25519.PublicKey, X25519.Shared, X25519.ClampScalar, Message.Parse, Message.WellFormed, MacOf, Macced,
      ConsumedResponse, ConsumedInitiation, Response, Initiation, OutgoingStamp, FirstFree, Labelled, LexLessEq,
      Decapsulated, InitiationOf, ResponseOf;
    KeysCross(a, b);
    var stamp := OutgoingStamp(sa.lastSentTai, now);
    var index, own := FirstFree(sa, rng.indices, 0).value, FirstFree(sb, eb.rng.indices, 0).value;
    InitiationOutcome(a, sa, now, index, rng.eph.value, Jitter(rng, timerDriven), out);
    InitiationParses(a, b, sa.cookie, now.ticks, index, rng.eph.value, stamp);
    var sent := Initiation(a.constants, a.localPublic, a.peerPublic, a.ss, index, rng.eph.value, stamp).value;
    var wire := Macced(a.macKeys, sa.cookie, now.ticks, sent.1);
    Prefix(wire, out[HANDSHAKE_INITIATION_LEN..]);
    var e := X25519.PublicKey(X25519.ClampScalar(rng.eph.value));
    var consumed := Consumed(index, a.localPublic, stamp, e, sent.0.chain, sent.0.hash);
    Responds(eb, sb, wire, consumed, reply);
    ResponseOutcome(eb, sb, consumed, own, eb.rng.eph.value, reply);
    ResponseParses(a, b, sent.0, consumed, sb.cookie, eb.now, own, eb.rng.eph.value);
    var answered := Response(consumed, b.psk, own, eb.rng.eph.value).value;
    var answer := Macced(b.macKeys, sb.cookie, eb.now, answered.1);
    Prefix(answer, reply[HANDSHAKE_RESPONSE_LEN..]);
    var first := Initiating(a, sa, now, rng, timerDriven, out);
    Completes(ea, first.state, answer, SessionKeys(answered.0.recv, answered.0.send, index, own, true), rest);
  }

  /** Whatever the payload, the MTU and the counter: the datagram that `Transport` describes under
      the key of a live session is delivered with exactly the padded payload in the buffer, and
      its counter enters the window. */
  lemma PayloadOverTheWire(e: Env, s: State, index: u32, counter: u64, payload: seq<u8>, mtu: Option<Transport.Mtu>,
      out: seq<u8>)
    requires s.SlotOf(index).Some? && counter < REJECT_AFTER_MESSAGES && |out| >= |Model.Pad(payload, mtu)|
    requires var x := s.InSlot(s.SlotOf(index).value).value;
             x.Age(e.now) < REJECT_AFTER_TIME && Replay.Fresh(x.seen, counter)
    ensures var slot := s.SlotOf(index).value;
            var key := s.InSlot(slot).value.keys.recv;
            var padded := Model.Pad(payload, mtu);
            Decapsulated(e, s, Transport.Datagram(key, index, counter, payload, mtu), out)
            == Outcome(s.Delivered(slot, counter, payload == [], e.now),
                       Ok(if payload == [] then Keepalive else Data(|padded|)), padded + out[|padded|..])
  {
    hide Message.Parse, Aead.Sealed, Aead.Opened, Aead.NonceFromCounter, Replay.Fresh;
    var key := s.InSlot(s.SlotOf(index).value).value.keys.recv;
    var plain := Model.Pad(payload, mtu);
    assert plain == [] <==> payload == [];
    var sealed := Aead.Sealed(key, Aead.NonceFromCounter(counter), [], plain);
    var p := Message.TransportData(index, counter, sealed);
    Message.ParseIffEncode(Message.Encode(p), p);
    Aead.OpensIffSealed(key, Aead.NonceFromCounter(counter), [], sealed, plain);
  }

  /** A responder under load answers an initiation without proof of address with a cookie reply,
      and the initiator stores the very cookie that the jar makes for its address. */
  lemma CookieOverTheWire(a: Config, b: Config, sa: State, sb: State, now: Now, rng: Entropy, timerDriven: bool,
      out: seq<u8>, eb: Env, reply: seq<u8>, ea: Env, rest: seq<u8>)
    requires Paired(a, b) && ea.config == a && eb.config == b && eb.underLoad
    requires FirstFree(sa, rng.indices, 0).Ok? && rng.eph.Some? && |out| >= HANDSHAKE_INITIATION_LEN
    requires Agree(X25519.ClampScalar(rng.eph.value), b.localStatic)
    requires |reply| >= COOKIE_REPLY_LEN && Rotated(sb.jar, eb.now, eb.rng.secret, eb.rng.seed).Ok?
    requires Unproven(a, b, sa, sb, now, rng, eb.remote)
    ensures var first := Initiating(a, sa, now, rng, timerDriven, out);
            && first.result == Ok(HANDSHAKE_INITIATION_LEN) && |first.buffer| == |out|
            && var second := Decapsulated(eb, sb, first.buffer[..HANDSHAKE_INITIATION_LEN], reply);
               && second.result == Ok(Reply(COOKIE_REPLY_LEN)) && |second.buffer| == |reply|
               && second.state.jar.primed
               && var third := Decapsulated(ea, first.state, second.buffer[..COOKIE_REPLY_LEN], rest);
                  && third.result == Ok(CookieStored)
                  && third.state.cookie == Some(LastCookie(MacOf(second.state.jar.secret, eb.remote), ea.now))
  {
    hide X25519.PublicKey, X25519.Shared, X25519.ClampScalar, Message.Parse, Message.WellFormed, Message.Encode,
      MacOf, Macced, ConsumedInitiation, Initiation, InitiationOf, OutgoingStamp, FirstFree, Labelled, Decapsulated,
      CookieReplying, ReplyOf, Aead.XOpened, Proves, Mac2Of, Rotated, NextNonce;
    KeysCross(a, b);
    var stamp := OutgoingStamp(sa.lastSentTai, now);
    var index := FirstFree(sa, rng.indices, 0).value;
    InitiationOutcome(a, sa, now, index, rng.eph.value, Jitter(rng, timerDriven), out);
    InitiationParses(a, b, sa.cookie, now.ticks, index, rng.eph.value, stamp);
    var body := Initiation(a.constants, a.localPublic, a.peerPublic, a.ss, index, rng.eph.value, stamp).value.1;
    var wire := Macced(a.macKeys, sa.cookie, now.ticks, body);
    Prefix(wire, out[HANDSHAKE_INITIATION_LEN..]);
    var mac1 := MacOf(a.macKeys.mac1Send, body);
    AsksForCookie(eb, sb, wire, reply);
    var jar := Rotated(sb.jar, eb.now, eb.rng.secret, eb.rng.seed).value;
    var packet := ReplyOf(b.macKeys, jar, index, mac1, eb.remote);
    CookieOutcome(eb, sb, index, mac1, reply);
    Prefix(Message.Encode(packet), reply[COOKIE_REPLY_LEN..]);
    var first := Initiating(a, sa, now, rng, timerDriven, out);
    StoresCookie(a, b, jar, index, mac1, eb.remote, ea, first.state, rest);
  }

  /** The initiation carries no proof that the jar accepts. */
  ghost predicate Unproven(a: Config, b: Config, sa: State, sb: State, now: Now, rng: Entropy, remote: seq<u8>)
    requires FirstFree(sa, rng.indices, 0).Ok? && rng.eph.Some?
  {
    var stamp := OutgoingStamp(sa.lastSentTai, now);
    var index := FirstFree(sa, rng.indices, 0).value;
    var sent := Initiation(a.constants, a.localPublic, a.peerPublic, a.ss, index, rng.eph.value, stamp);
    && sent.Ok?
    && var beta := sent.value.1 + MacOf(a.macKeys.mac1Send, sent.value.1);
       !Proves(sb.jar, remote, beta, Mac2Of(sa.cookie, now.ticks, beta))
  }

  lemma AsksForCookie(e: Env, s: State, wire: seq<u8>, reply: seq<u8>)
    requires Message.Parse(wire).Ok? && Message.Parse(wire).value.HandshakeInitiation?
    requires Message.WellFormed(Message.Parse(wire).value) && e.underLoad
    requires var p := Message.Parse(wire).value;
             p.mac1 == MacOf(e.config.macKeys.mac1Recv, p.alpha) && !Proves(s.jar, e.remote, p.beta, p.mac2)
    ensures var p := Message.Parse(wire).value;
            Decapsulated(e, s, wire, reply) == CookieReplying(e, s, p.sender, p.mac1, reply)
  {
    hide CookieReplying, MacOf, Proves, Message.Parse, Message.WellFormed;
  }

  lemma CookieOutcome(e: Env, s: State, sender: u32, mac1: Mac16, reply: seq<u8>)
    requires |reply| >= COOKIE_REPLY_LEN && Rotated(s.jar, e.now, e.rng.secret, e.rng.seed).Ok?
    ensures var jar := Rotated(s.jar, e.now, e.rng.secret, e.rng.seed).value;
            var wire := Message.Encode(ReplyOf(e.config.macKeys, jar, sender, mac1, e.remote));
            && |wire| == COOKIE_REPLY_LEN && jar.primed
            && CookieReplying(e, s, sender, mac1, reply)
               == Outcome(s.(jar := jar.(nonce := NextNonce(jar.nonce))), Ok(Reply(COOKIE_REPLY_LEN)),
                          wire + reply[COOKIE_REPLY_LEN..])
  {
    hide MacOf, Aead.XSealed, NonceBytes, NextNonce;
  }

  /** The cookie reply to the last initiation is stored. */
  lemma StoresCookie(a: Config, b: Config, jar: Jar<Key>, index: u32, mac1: Mac16, remote: seq<u8>, e: Env, s: State,
      out: seq<u8>)
    requires Paired(a, b) && e.config == a
    requires s.inflight.Some? && s.inflight.value.localIndex == index && s.lastInitMac1 == Some(mac1)
    ensures Decapsulated(e, s, Message.Encode(ReplyOf(b.macKeys, jar, index, mac1, remote)), out)
         == Outcome(s.(cookie := Some(LastCookie(MacOf(jar.secret, remote), e.now))), Ok(CookieStored), out)
  {
    hide MacOf, Aead.XSealed, Aead.XOpened, Message.Encode, Message.Parse, NonceBytes, NextNonce, Labelled,
      X25519.PublicKey;
    KeysCross(a, b);
    var reply := ReplyOf(b.macKeys, jar, index, mac1, remote);
    Message.ParseIffEncode(Message.Encode(reply), reply);
    Aead.XOpensIffSealed(b.macKeys.cookieSend, reply.nonce, mac1, reply.encryptedCookie, MacOf(jar.secret, remote));
  }

  /** Any initiation written within 120 s of storing that cookie passes both MAC checks of the
      responder under load, from the same address, as long as the jar still holds the secret: it
      is answered with a response. */
  lemma CookieOpensTheGate(a: Config, b: Config, secret: Key, stored: Ticks, now: Ticks, index: u32, eph: Key,
      stamp: Tai64N, e: Env, s: State, reply: seq<u8>)
    requires Paired(a, b) && e.config == b && Since(now, stored) < COOKIE_LIFETIME
    requires Agree(X25519.ClampScalar(eph), b.localStatic)
    requires s.jar.primed && (s.jar.secret == secret || (s.jar.hasPrevious && s.jar.previous == secret))
    requires FirstFree(s, e.rng.indices, 0).Ok? && e.rng.eph.Some?
    requires s.greatestTimestamp.Some? ==> !LexLessEq(stamp, s.greatestTimestamp.value)
    ensures var sent := Initiation(a.constants, a.localPublic, a.peerPublic, a.ss, index, eph, stamp);
            && sent.Ok?
            && var wire := Macced(a.macKeys, Some(LastCookie(MacOf(secret, e.remote), stored)), now, sent.value.1);
               var consumed := Consumed(index, a.localPublic, stamp, X25519.PublicKey(X25519.ClampScalar(eph)),
                                        sent.value.0.chain, sent.value.0.hash);
               Decapsulated(e, s, wire, reply)
               == ResponseOf(e, s, consumed, FirstFree(s, e.rng.indices, 0).value, e.rng.eph.value, reply)
  {
    hide X25519.PublicKey, X25519.Shared, X25519.ClampScalar, Message.Parse, Message.WellFormed, MacOf, Macced,
      ConsumedInitiation, Initiation, FirstFree, Labelled, Decapsulated, ResponseOf, LexLessEq;
    KeysCross(a, b);
    var cookie := Some(LastCookie(MacOf(secret, e.remote), stored));
    InitiationParses(a, b, cookie, now, index, eph, stamp);
    var sent := Initiation(a.constants, a.localPublic, a.peerPublic, a.ss, index, eph, stamp).value;
    var wire := Macced(a.macKeys, cookie, now, sent.1);
    var public := X25519.PublicKey(X25519.ClampScalar(eph));
    var consumed := Consumed(index, a.localPublic, stamp, public, sent.0.chain, sent.0.hash);
    Responds(e, s, wire, consumed, reply);
  }
}
