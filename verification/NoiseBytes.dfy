/** `src/noise.rs` on real bytes: the four handshake functions as they write their messages. */
module NoiseBytes {
  import opened Machine
  import opened Bytes
  import opened Time
  import opened Kdf
  import opened Sessions
  import Aead
  import Blake2s
  import opened Labels
  import Message
  import X25519

  // ----- The symmetric state ----------------------------------------------------------------------------

  datatype HandshakeConstants = HandshakeConstants(ck0: Bytes32, h0: Bytes32)

  datatype Transcript = Transcript(ck: Bytes32, h: Bytes32)

  datatype InFlight = InFlight(localIndex: u32, ephSecret: Bytes32, chain: Bytes32, hash: Bytes32)

  datatype Consumed = Consumed(
    peerIndex: u32, staticPublic: Bytes32, timestamp: Tai64N, ephemeral: Bytes32, chain: Bytes32, hash: Bytes32)

  type SessionKeys = KeyPair<Bytes32>

  method NewConstants() returns (c: HandshakeConstants)
    ensures c.ck0 == Blake2s.Hash([], Ascii(CONSTRUCTION), 32)
    ensures c.h0 == Blake2s.Hash([], c.ck0 + Ascii(IDENTIFIER), 32)
  {
    hide Blake2s.Hash, Ascii, Concat;
    var ck0 := Blake2s.HashParts([Ascii(CONSTRUCTION)]);
    ConcatOne(Ascii(CONSTRUCTION));
    var h0 := Blake2s.HashParts([ck0, Ascii(IDENTIFIER)]);
    ConcatTwo(ck0, Ascii(IDENTIFIER));
    c := HandshakeConstants(ck0, h0);
  }

  function Mixed(h: Bytes32, part: seq<u8>): (r: Bytes32) {
    Blake2s.Hash([], h + part, 32)
  }

  /** `mix_hash`. */
  method MixHash(h: Bytes32, part: seq<u8>) returns (r: Bytes32)
    ensures r == Mixed(h, part)
  {
    hide Blake2s.Hash, Concat;
    r := Blake2s.HashParts([h, part]);
    ConcatTwo(h, part);
  }

  /** Mixing in a public ephemeral. */
  function WithEphemeral(t: Transcript, e: Bytes32): (r: Transcript) {
    Transcript(Derived(t.ck, e, 1), Mixed(t.h, e))
  }

  function SealedUnder(t: Transcript, secret: Bytes32, plain: seq<u8>): (c: seq<u8>)
    ensures |c| == |plain| + Aead.TAG_LEN
  {
    hide Derived, Aead.Sealed;
    Aead.Sealed(Derived(t.ck, secret, 2), Aead.NonceFromCounter(0), t.h, plain)
  }

  function OpenedUnder(t: Transcript, secret: Bytes32, sealed: seq<u8>): (r: Option<seq<u8>>)
    ensures match r case Some(p) => |p| + Aead.TAG_LEN == |sealed| case None => true
  {
    hide Derived, Aead.Opened;
    Aead.Opened(Derived(t.ck, secret, 2), Aead.NonceFromCounter(0), t.h, sealed)
  }

  /** After a message part sealed under `secret`. */
  function After(t: Transcript, secret: Bytes32, sealed: seq<u8>): (r: Transcript) {
    Transcript(Derived(t.ck, secret, 1), Mixed(t.h, sealed))
  }

  /** One secret mixed in, one field sealed into a buffer of exactly its size. */
  method SealStep(t: Transcript, secret: Bytes32, plain: seq<u8>, field: array<u8>) returns (r: Result<Transcript>)
    modifies field
    ensures r.Ok? <==> field.Length >= |plain| + Aead.TAG_LEN
    ensures r.Err? ==> r.error == BufferTooSmall
    ensures r.Ok? && field.Length == |plain| + Aead.TAG_LEN ==>
      field[..] == SealedUnder(t, secret, plain) && r.value == After(t, secret, field[..])
  {
    hide Aead.Sealed, Derived, Mixed, Aead.NonceFromCounter;
    var ck, k := Kdf2(t.ck, secret);
    var sealed := Aead.Seal(Aead.Scalar, k, Aead.NonceFromCounter(0), t.h, plain, field);
    if sealed.Err? {
      return Err(ErrorOf(sealed));
    }
    assert field[..] == field[..field.Length];
    var h := MixHash(t.h, field[..]);
    r := Ok(Transcript(ck, h));
  }

  /** One field opened and mixed in. */
  function Unsealed(t: Transcript, secret: Bytes32, sealed: seq<u8>): (r: Result<(seq<u8>, Transcript)>)
    ensures match r case Ok(v) => |v.0| + Aead.TAG_LEN == |sealed| case Err(e) => e == AuthFailure
  {
    hide OpenedUnder, After;
    var plain := OpenedUnder(t, secret, sealed);
    if plain.None? then Err(AuthFailure) else Ok((plain.value, After(t, secret, sealed)))
  }

  /** One secret mixed in, one field opened into a buffer of exactly its size. */
  method OpenStep(t: Transcript, secret: Bytes32, sealed: seq<u8>, n: nat) returns (r: Result<(seq<u8>, Transcript)>)
    requires |sealed| == n + Aead.TAG_LEN
    ensures r == Unsealed(t, secret, sealed)
  {
    hide Aead.Opened, Derived, Mixed, Aead.NonceFromCounter;
    var ck, k := Kdf2(t.ck, secret);
    var plain := new u8[n];
    var result := Aead.Open(Aead.Scalar, k, Aead.NonceFromCounter(0), t.h, sealed, plain);
    if result != Ok(n) {
      return Err(AuthFailure);
    }
    assert plain[..] == plain[..n];
    var h := MixHash(t.h, sealed);
    r := Ok((plain[..], Transcript(ck, h)));
  }

  // ----- The initiation ------------------------------------------------------------------------------------

  function Start(c: HandshakeConstants, responder: Bytes32): (t: Transcript) {
    Transcript(c.ck0, Mixed(c.h0, responder))
  }

  /** Everything an initiation is made of: the state kept for the response and the body sent. */
  function Initiation(c: HandshakeConstants, localPublic: Bytes32, peerPublic: Bytes32, ss: Bytes32, localIndex: u32,
      raw: Bytes32, timestamp: Tai64N): (r: Result<(InFlight, seq<u8>)>)
    ensures match r case Ok(v) => |v.1| == Message.INIT_ALPHA_LEN case Err(e) => e == InvalidPublicKey
  {
    hide X25519.Shared, X25519.PublicKey, WithEphemeral, SealedUnder, After, Start;
    var secret := X25519.ClampScalar(raw);
    var e := X25519.PublicKey(secret);
    var t := WithEphemeral(Start(c, peerPublic), e);
    var es := X25519.Shared(secret, peerPublic);
    if es.Err? then Err(ErrorOf(es)) else
    var identity := SealedUnder(t, es.value, localPublic);
    var t := After(t, es.value, identity);
    var stamp := SealedUnder(t, ss, timestamp);
    var t := After(t, ss, stamp);
    Ok((InFlight(localIndex, secret, t.ck, t.h), Message.InitiationBody(localIndex, e, identity, stamp)))
  }

  /** `create_initiation`: on every error the buffer is untouched, and neither a seal into a
      buffer of the exact size nor the assembly of the message can fail. */
  method CreateInitiation(c: HandshakeConstants, localPublic: Bytes32, peerPublic: Bytes32, ss: Bytes32,
      localIndex: u32, raw: Bytes32, timestamp: Tai64N, out: array<u8>)
    returns (r: Result<InFlight>)
    modifies out
    ensures var spec := Initiation(c, localPublic, peerPublic, ss, localIndex, raw, timestamp);
            && r == (if out.Length < HANDSHAKE_INITIATION_LEN then Err(BufferTooSmall)
                     else if spec.Err? then Err(InvalidPublicKey) else Ok(spec.value.0))
            && (r.Err? ==> out[..] == old(out[..]))
            && (r.Ok? ==> out[..148] == Message.Unmacced(spec.value.1) && out[148..] == old(out[148..]))
  {
    hide WithEphemeral, SealedUnder, After, Mixed, X25519.PublicKey, X25519.Shared, X25519.ClampScalar,
      Message.InitiationBody, Derived, Message.Unmacced;
    if out.Length < HANDSHAKE_INITIATION_LEN {
      return Err(BufferTooSmall);
    }
    var h := MixHash(c.h0, peerPublic);
    var secret := X25519.ClampScalar(raw);
    var e := X25519.Base(secret);
    var t := EphemeralStep(Transcript(c.ck0, h), e);
    var es := X25519.SharedSecret(secret, peerPublic);
    if es.Err? {
      return Err(ErrorOf(es));
    }
    var identity := new u8[48];
    var first := SealStep(t, es.value, localPublic, identity);
    if first.Err? {
      return Err(ErrorOf(first));
    }
    var stamp := new u8[28];
    var second := SealStep(first.value, ss, timestamp, stamp);
    if second.Err? {
      return Err(ErrorOf(second));
    }
    var built := Message.BuildInitiation(out, localIndex, e, identity[..], stamp[..]);
    if built.Err? {
      return Err(ErrorOf(built));
    }
    r := Ok(InFlight(localIndex, secret, second.value.ck, second.value.h));
  }

  method EphemeralStep(t: Transcript, e: Bytes32) returns (r: Transcript)
    ensures r == WithEphemeral(t, e)
  {
    hide Derived, Mixed;
    var ck := Kdf1(t.ck, e);
    var h := MixHash(t.h, e);
    r := Transcript(ck, h);
  }

  function ConsumedInitiation(c: HandshakeConstants, localStatic: Bytes32, localPublic: Bytes32, peerPublic: Bytes32,
      ss: Bytes32, p: Message.Packet): (r: Result<Consumed>)
    requires p.HandshakeInitiation? && Message.WellFormed(p)
    ensures match r case Ok(_) => true case Err(e) => e == InvalidPublicKey || e == AuthFailure || e == UnknownPeer
  {
    hide X25519.Shared, WithEphemeral, Unsealed, Start;
    var t := WithEphemeral(Start(c, localPublic), p.ephemeral);
    var es := X25519.Shared(localStatic, p.ephemeral);
    if es.Err? then Err(ErrorOf(es)) else
    var identity := Unsealed(t, es.value, p.encryptedStatic);
    if identity.Err? then Err(ErrorOf(identity)) else
    if identity.value.0 != peerPublic then Err(UnknownPeer) else
    var stamp := Unsealed(identity.value.1, ss, p.encryptedTimestamp);
    if stamp.Err? then Err(ErrorOf(stamp)) else
    Ok(Consumed(p.sender, peerPublic, stamp.value.0, p.ephemeral, stamp.value.1.ck, stamp.value.1.h))
  }

  /** `consume_initiation`. */
  method ConsumeInitiation(c: HandshakeConstants, localStatic: Bytes32, localPublic: Bytes32, peerPublic: Bytes32,
      ss: Bytes32, p: Message.Packet)
    returns (r: Result<Consumed>)
    requires p.HandshakeInitiation? && Message.WellFormed(p)
    ensures r == ConsumedInitiation(c, localStatic, localPublic, peerPublic, ss, p)
  {
    hide WithEphemeral, Unsealed, Mixed, X25519.Shared, Derived;
    var h := MixHash(c.h0, localPublic);
    var t := EphemeralStep(Transcript(c.ck0, h), p.ephemeral);
    var es := X25519.SharedSecret(localStatic, p.ephemeral);
    if es.Err? {
      return Err(ErrorOf(es));
    }
    var identity := OpenStep(t, es.value, p.encryptedStatic, 32);
    if identity.Err? {
      return Err(ErrorOf(identity));
    }
    var known := Aead.CtEq(identity.value.0, peerPublic);
    if !known {
      return Err(UnknownPeer);
    }
    var stamp := OpenStep(identity.value.1, ss, p.encryptedTimestamp, 12);
    if stamp.Err? {
      return Err(ErrorOf(stamp));
    }
    var end := stamp.value.1;
    r := Ok(Consumed(p.sender, identity.value.0, stamp.value.0, p.ephemeral, end.ck, end.h));
  }

  // ----- The response --------------------------------------------------------------------------------------

  /** The two Diffie-Hellman results and the pre-shared key, mixed in after the ephemeral. */
  function Psk2(t: Transcript, ee: Bytes32, se: Bytes32, psk: Bytes32): (r: (Transcript, Bytes32)) {
    hide Derived, Mixed;
    var ck := Derived(Derived(t.ck, ee, 1), se, 1);
    (Transcript(Derived(ck, psk, 1), Mixed(t.h, Derived(ck, psk, 2))), Derived(ck, psk, 3))
  }

  method Psk2Step(t: Transcript, ee: Bytes32, se: Bytes32, psk: Bytes32) returns (r: (Transcript, Bytes32))
    ensures r == Psk2(t, ee, se, psk)
  {
    hide Derived, Mixed;
    var ck := Kdf1(t.ck, ee);
    ck := Kdf1(ck, se);
    var next, tau, k := Kdf3(ck, psk);
    var h := MixHash(t.h, tau);
    r := (Transcript(next, h), k);
  }

  function Response(consumed: Consumed, psk: Bytes32, localIndex: u32,
      raw: Bytes32): (r: Result<(SessionKeys, seq<u8>)>)
    ensures match r case Ok(v) => |v.1| == Message.RESP_ALPHA_LEN case Err(e) => e == InvalidPublicKey
  {
    hide X25519.Shared, X25519.PublicKey, WithEphemeral, Psk2, Aead.Sealed, Derived, Aead.NonceFromCounter;
    var secret := X25519.ClampScalar(raw);
    var e := X25519.PublicKey(secret);
    var t := WithEphemeral(Transcript(consumed.chain, consumed.hash), e);
    var ee := X25519.Shared(secret, consumed.ephemeral);
    if ee.Err? then Err(ErrorOf(ee)) else
    var se := X25519.Shared(secret, consumed.staticPublic);
    if se.Err? then Err(ErrorOf(se)) else
    var (t, k) := Psk2(t, ee.value, se.value, psk);
    var nothing := Aead.Sealed(k, Aead.NonceFromCounter(0), t.h, []);
    Ok((SessionKeys(Derived(t.ck, [], 2), Derived(t.ck, [], 1), localIndex, consumed.peerIndex, false),
        Message.ResponseBody(localIndex, consumed.peerIndex, e, nothing)))
  }

  /** `create_response`: on every error the buffer is untouched. */
  method CreateResponse(consumed: Consumed, psk: Bytes32, localIndex: u32, raw: Bytes32, out: array<u8>)
    returns (r: Result<SessionKeys>)
    modifies out
    ensures var spec := Response(consumed, psk, localIndex, raw);
            && r == (if out.Length < HANDSHAKE_RESPONSE_LEN then Err(BufferTooSmall)
                     else if spec.Err? then Err(InvalidPublicKey) else Ok(spec.value.0))
            && (r.Err? ==> out[..] == old(out[..]))
            && (r.Ok? ==> out[..92] == Message.Unmacced(spec.value.1) && out[92..] == old(out[92..]))
  {
    hide WithEphemeral, Psk2, Mixed, X25519.PublicKey, X25519.Shared, X25519.ClampScalar, Message.ResponseBody,
      Derived, Message.Unmacced, Aead.Sealed, Aead.NonceFromCounter;
    if out.Length < HANDSHAKE_RESPONSE_LEN {
      return Err(BufferTooSmall);
    }
    var secret := X25519.ClampScalar(raw);
    var e := X25519.Base(secret);
    var t := EphemeralStep(Transcript(consumed.chain, consumed.hash), e);
    var ee := X25519.SharedSecret(secret, consumed.ephemeral);
    if ee.Err? {
      return Err(ErrorOf(ee));
    }
    var se := X25519.SharedSecret(secret, consumed.staticPublic);
    if se.Err? {
      return Err(ErrorOf(se));
    }
    var keyed := Psk2Step(t, ee.value, se.value, psk);
    var nothing := new u8[16];
    var sealed := Aead.Seal(Aead.Scalar, keyed.1, Aead.NonceFromCounter(0), keyed.0.h, [], nothing);
    if sealed.Err? {
      return Err(ErrorOf(sealed));
    }
    assert nothing[..] == nothing[..16];
    var built := Message.BuildResponse(out, localIndex, consumed.peerIndex, e, nothing[..]);
    if built.Err? {
      return Err(ErrorOf(built));
    }
    var toResponder, toInitiator := Kdf2(keyed.0.ck, []);
    r := Ok(SessionKeys(toInitiator, toResponder, localIndex, consumed.peerIndex, false));
  }

  function ConsumedResponse(inflight: InFlight, localStatic: Bytes32, psk: Bytes32, p: Message.Packet)
    : (r: Result<SessionKeys>)
    requires p.HandshakeResponse? && Message.WellFormed(p)
    ensures match r case Ok(_) => true case Err(e) => e == InvalidPublicKey || e == AuthFailure
  {
    hide X25519.Shared, WithEphemeral, Psk2, Aead.Opened, Derived, Aead.NonceFromCounter;
    var t := WithEphemeral(Transcript(inflight.chain, inflight.hash), p.ephemeral);
    var ee := X25519.Shared(inflight.ephSecret, p.ephemeral);
    if ee.Err? then Err(ErrorOf(ee)) else
    var se := X25519.Shared(localStatic, p.ephemeral);
    if se.Err? then Err(ErrorOf(se)) else
    var (t, k) := Psk2(t, ee.value, se.value, psk);
    if Aead.Opened(k, Aead.NonceFromCounter(0), t.h, p.encryptedNothing).None? then Err(AuthFailure) else
    Ok(SessionKeys(Derived(t.ck, [], 1), Derived(t.ck, [], 2), inflight.localIndex, p.sender, true))
  }

  /** `consume_response`. */
  method ConsumeResponse(inflight: InFlight, localStatic: Bytes32, psk: Bytes32, p: Message.Packet)
    returns (r: Result<SessionKeys>)
    requires p.HandshakeResponse? && Message.WellFormed(p)
    ensures r == ConsumedResponse(inflight, localStatic, psk, p)
  {
    hide WithEphemeral, Psk2, Mixed, X25519.Shared, Derived, Aead.Opened, Aead.NonceFromCounter;
    var t := EphemeralStep(Transcript(inflight.chain, inflight.hash), p.ephemeral);
    var ee := X25519.SharedSecret(inflight.ephSecret, p.ephemeral);
    if ee.Err? {
      return Err(ErrorOf(ee));
    }
    var se := X25519.SharedSecret(localStatic, p.ephemeral);
    if se.Err? {
      return Err(ErrorOf(se));
    }
    var keyed := Psk2Step(t, ee.value, se.value, psk);
    var nothing := new u8[0];
    var result := Aead.Open(Aead.Scalar, keyed.1, Aead.NonceFromCounter(0), keyed.0.h, p.encryptedNothing, nothing);
    if result != Ok(0) {
      return Err(AuthFailure);
    }
    var toResponder, toInitiator := Kdf2(keyed.0.ck, []);
    r := Ok(SessionKeys(toResponder, toInitiator, inflight.localIndex, p.sender, true));
  }

  // ----- The four together ----------------------------------------------------------------------------------

  /** The two ends compute the same secret, and it is not zero. */
  predicate Agree(a: Bytes32, b: Bytes32) {
    && X25519.Shared(a, X25519.PublicKey(b)) == X25519.Shared(b, X25519.PublicKey(a))
    && X25519.Shared(a, X25519.PublicKey(b)).Ok?
  }

  /** Whatever MACs are filled in, the initiation on the wire parses, and the responder recovers
      from it the initiator's identity, stamp, index and transcript. */
  lemma InitiationArrives(c: HandshakeConstants, si: Bytes32, sr: Bytes32, ss: Bytes32, index: u32, raw: Bytes32,
      stamp: Tai64N, mac1: seq<u8>, mac2: seq<u8>)
    requires |mac1| == 16 && |mac2| == 16 && Agree(X25519.ClampScalar(raw), sr)
    ensures var sent := Initiation(c, X25519.PublicKey(si), X25519.PublicKey(sr), ss, index, raw, stamp);
            && sent.Ok?
            && var p := Message.Parse(sent.value.1 + mac1 + mac2);
               && p.Ok? && p.value.HandshakeInitiation? && Message.WellFormed(p.value)
               && ConsumedInitiation(c, sr, X25519.PublicKey(sr), X25519.PublicKey(si), ss, p.value)
                  == Ok(Consumed(index, X25519.PublicKey(si), stamp, X25519.PublicKey(X25519.ClampScalar(raw)),
                                 sent.value.0.chain, sent.value.0.hash))
  {
    hide WithEphemeral, SealedUnder, Unsealed, After, Mixed, X25519.PublicKey, X25519.Shared, X25519.ClampScalar,
      Message.InitiationBody, Derived, Message.Parse, Message.WellFormed;
    var secret := X25519.ClampScalar(raw);
    var e, i, r := X25519.PublicKey(secret), X25519.PublicKey(si), X25519.PublicKey(sr);
    var es := X25519.Shared(secret, r).value;
    var t := WithEphemeral(Start(c, r), e);
    var identity := SealedUnder(t, es, i);
    var u := After(t, es, identity);
    var sealed := SealedUnder(u, ss, stamp);
    OpensUnder(t, es, i);
    OpensUnder(u, ss, stamp);
    Message.InitiationRoundTrip(index, e, identity, sealed, mac1, mac2);
    var body := Message.InitiationBody(index, e, identity, sealed);
    Message.ParseIffEncode(body + mac1 + mac2,
      Message.HandshakeInitiation(index, e, identity, sealed, mac1, mac2, body, body + mac1));
  }

  lemma OpensUnder(t: Transcript, secret: Bytes32, plain: seq<u8>)
    ensures Unsealed(t, secret, SealedUnder(t, secret, plain))
      == Ok((plain, After(t, secret, SealedUnder(t, secret, plain))))
  {
    hide Derived, Aead.Opened, Aead.Sealed, Aead.NonceFromCounter, Mixed;
    var k := Derived(t.ck, secret, 2);
    Aead.OpensIffSealed(k, Aead.NonceFromCounter(0), t.h, SealedUnder(t, secret, plain), plain);
  }

  /** The response on the wire parses, and the initiator derives from it the responder's keys,
      exchanged, with the indices crossed. */
  lemma ResponseArrives(f: InFlight, consumed: Consumed, si: Bytes32, psk: Bytes32, index: u32, raw: Bytes32,
      mac1: seq<u8>, mac2: seq<u8>)
    requires |mac1| == 16 && |mac2| == 16
    requires consumed.chain == f.chain && consumed.hash == f.hash
    requires consumed.ephemeral == X25519.PublicKey(f.ephSecret) && consumed.staticPublic == X25519.PublicKey(si)
    requires Agree(X25519.ClampScalar(raw), f.ephSecret) && Agree(X25519.ClampScalar(raw), si)
    ensures var sent := Response(consumed, psk, index, raw);
            && sent.Ok?
            && var p := Message.Parse(sent.value.1 + mac1 + mac2);
               && p.Ok? && p.value.HandshakeResponse? && Message.WellFormed(p.value)
               && p.value.receiver == consumed.peerIndex
               && ConsumedResponse(f, si, psk, p.value)
                  == Ok(SessionKeys(sent.value.0.recv, sent.value.0.send, f.localIndex, index, true))
  {
    hide WithEphemeral, Psk2, Mixed, X25519.PublicKey, X25519.Shared, X25519.ClampScalar, Message.ResponseBody,
      Derived, Message.Parse, Message.WellFormed, Aead.Opened, Aead.Sealed, Aead.NonceFromCounter;
    var secret := X25519.ClampScalar(raw);
    var e := X25519.PublicKey(secret);
    var ee := X25519.Shared(secret, consumed.ephemeral).value;
    var se := X25519.Shared(secret, consumed.staticPublic).value;
    var keyed := Psk2(WithEphemeral(Transcript(f.chain, f.hash), e), ee, se, psk);
    var nothing := Aead.Sealed(keyed.1, Aead.NonceFromCounter(0), keyed.0.h, []);
    Aead.OpensIffSealed(keyed.1, Aead.NonceFromCounter(0), keyed.0.h, nothing, []);
    Message.ResponseRoundTrip(index, consumed.peerIndex, e, nothing, mac1, mac2);
    var body := Message.ResponseBody(index, consumed.peerIndex, e, nothing);
    Message.ParseIffEncode(body + mac1 + mac2,
      Message.HandshakeResponse(index, consumed.peerIndex, e, nothing, mac1, mac2, body, body + mac1));
  }
}
