/** What the symbolic handshake stands for: under any assignment of bytes to names, the functions
    on terms compute the same handshake as the functions on bytes. */
module Realization {
  import opened Machine
  import opened Arith
  import opened Bytes
  import opened Time
  import opened Terms
  import opened Rotation
  import opened Sessions
  import Aead
  import Blake2s
  import Cookie
  import CookieBytes
  import Kdf
  import Labels
  import Message
  import Model = TunnelModel
  import Noise
  import NB = NoiseBytes
  import Transport
  import X25519

  /** The secret bytes behind each name. */
  type World = Name -> Bytes32

  function Fit(b: seq<u8>): (k: Bytes32) {
    if |b| == 32 then b else Zeros(32)
  }

  /** The bytes a term stands for. */
  ghost function Image(w: World, t: Term): (b: seq<u8>) {
    match t
    case Atom(b) => b
    case Number(n) => ToLe(n % U32_LIMIT, 4)
    case Secret(n) => w(n)
    case Pub(n) => X25519.PublicKey(w(n))
    case LowOrder => Zeros(32)
    case Dh(a, b) => X25519.ScalarMultiple(w(a), X25519.PublicKey(w(b)))
    case DhPoint(a, p) => X25519.ScalarMultiple(w(a), Fit(Image(w, p)))
    case Hash(l, r) => Blake2s.Hash([], Image(w, l) + Image(w, r), 32)
    case Kdf(i, k, x) => if 0 < i < 256 then Kdf.Derived(Fit(Image(w, k)), Image(w, x), i) else Zeros(32)
    case Mac(k, x) => CookieBytes.MacOf(Image(w, k), Image(w, x))
    case Pair(a, b) => Image(w, a) + Image(w, b)
    case Seal(k, c, aad, p) => Aead.Sealed(Fit(Image(w, k)), Aead.NonceFromCounter(c), Image(w, aad), Image(w, p))
    case XSeal(k, n, aad, p) =>
      if |n| == 3 then Aead.XSealed(Fit(Image(w, k)), CookieBytes.NonceBytes(n), Image(w, aad), Image(w, p))
      else Image(w, p) + Zeros(16)
  }

  // ----- One constructor at a time -----------------------------------------------------------------------------

  lemma AtomBytes(w: World, b: seq<u8>)
    ensures Image(w, Atom(b)) == b
  {
    hide X25519.PublicKey, X25519.ScalarMultiple, Blake2s.Hash, Kdf.Derived, CookieBytes.MacOf, Aead.Sealed,
      Aead.XSealed, Aead.NonceFromCounter, CookieBytes.NonceBytes, ToLe, Zeros;
  }

  lemma PublicBytes(w: World, n: Name)
    ensures Image(w, Pub(n)) == X25519.PublicKey(w(n))
  {
    hide X25519.PublicKey, X25519.ScalarMultiple, Blake2s.Hash, Kdf.Derived, CookieBytes.MacOf, Aead.Sealed,
      Aead.XSealed, Aead.NonceFromCounter, CookieBytes.NonceBytes, ToLe, Zeros;
  }

  lemma SharedBytes(w: World, a: Name, b: Name)
    ensures Image(w, Dh(a, b)) == X25519.ScalarMultiple(w(a), X25519.PublicKey(w(b)))
  {
    hide X25519.PublicKey, X25519.ScalarMultiple, Blake2s.Hash, Kdf.Derived, CookieBytes.MacOf, Aead.Sealed,
      Aead.XSealed, Aead.NonceFromCounter, CookieBytes.NonceBytes, ToLe, Zeros;
  }

  lemma HashedBytes(w: World, l: Term, r: Term)
    ensures Image(w, Hash(l, r)) == Blake2s.Hash([], Image(w, l) + Image(w, r), 32)
  {
    hide X25519.PublicKey, X25519.ScalarMultiple, Blake2s.Hash, Kdf.Derived, CookieBytes.MacOf, Aead.Sealed,
      Aead.XSealed, Aead.NonceFromCounter, CookieBytes.NonceBytes, ToLe, Zeros;
  }

  lemma DerivedBytes(w: World, i: nat, key: Term, input: Term)
    requires 0 < i < 256
    ensures Image(w, Kdf(i, key, input)) == Kdf.Derived(Fit(Image(w, key)), Image(w, input), i)
  {
    hide X25519.PublicKey, X25519.ScalarMultiple, Blake2s.Hash, Kdf.Derived, CookieBytes.MacOf, Aead.Sealed,
      Aead.XSealed, Aead.NonceFromCounter, CookieBytes.NonceBytes, ToLe, Zeros;
  }

  lemma MacBytes(w: World, k: Term, x: Term)
    ensures Image(w, Mac(k, x)) == CookieBytes.MacOf(Image(w, k), Image(w, x))
  {
    hide X25519.PublicKey, X25519.ScalarMultiple, Blake2s.Hash, Kdf.Derived, CookieBytes.MacOf, Aead.Sealed,
      Aead.XSealed, Aead.NonceFromCounter, CookieBytes.NonceBytes, ToLe, Zeros;
  }

  lemma PairBytes(w: World, a: Term, b: Term)
    ensures Image(w, Pair(a, b)) == Image(w, a) + Image(w, b)
  {
    hide X25519.PublicKey, X25519.ScalarMultiple, Blake2s.Hash, Kdf.Derived, CookieBytes.MacOf, Aead.Sealed,
      Aead.XSealed, Aead.NonceFromCounter, CookieBytes.NonceBytes, ToLe, Zeros;
  }

  lemma SealedBytes(w: World, key: Term, counter: u64, h: Term, plain: Term)
    ensures Image(w, Seal(key, counter, h, plain))
         == Aead.Sealed(Fit(Image(w, key)), Aead.NonceFromCounter(counter), Image(w, h), Image(w, plain))
  {
    hide X25519.PublicKey, X25519.ScalarMultiple, Blake2s.Hash, Kdf.Derived, CookieBytes.MacOf, Aead.Sealed,
      Aead.XSealed, Aead.NonceFromCounter, CookieBytes.NonceBytes, ToLe, Zeros;
  }

  lemma XSealedBytes(w: World, key: Term, nonce: NonceWords, aad: Term, plain: Term)
    ensures Image(w, XSeal(key, nonce, aad, plain))
         == Aead.XSealed(Fit(Image(w, key)), CookieBytes.NonceBytes(nonce), Image(w, aad), Image(w, plain))
  {
    hide X25519.PublicKey, X25519.ScalarMultiple, Blake2s.Hash, Kdf.Derived, CookieBytes.MacOf, Aead.Sealed,
      Aead.XSealed, Aead.NonceFromCounter, CookieBytes.NonceBytes, ToLe, Zeros;
  }

  lemma NumberBytes(w: World, n: u32)
    ensures Image(w, Number(n)) == ToLe(n, 4)
  {
    hide X25519.PublicKey, X25519.ScalarMultiple, Blake2s.Hash, Kdf.Derived, CookieBytes.MacOf, Aead.Sealed,
      Aead.XSealed, Aead.NonceFromCounter, CookieBytes.NonceBytes, ToLe, Zeros;
    SmallMod(n, U32_LIMIT);
  }

  /** The length of a term is the length of its bytes. */
  lemma {:induction false} ImageLength(w: World, t: Term)
    ensures |Image(w, t)| == Len(t)
  {
    hide X25519.PublicKey, X25519.ScalarMultiple, Blake2s.Hash, Kdf.Derived, CookieBytes.MacOf, Aead.Sealed,
      Aead.XSealed, Aead.NonceFromCounter, CookieBytes.NonceBytes, ToLe, Zeros;
    match t
    case Pair(a, b) =>
      ImageLength(w, a);
      ImageLength(w, b);
    case Seal(_, _, _, p) => ImageLength(w, p);
    case XSeal(_, _, _, p) => ImageLength(w, p);
    case _ =>
  }

  // ----- Diffie-Hellman ------------------------------------------------------------------------------------

  /** Any two names agree on a secret that is not zero. */
  ghost predicate Agreeing(w: World) {
    forall a: Name, b: Name :: NB.Agree(w(a), w(b))
  }

  lemma SharedImage(w: World, a: Name, b: Name)
    requires Agreeing(w)
    ensures X25519.Shared(w(a), Fit(Image(w, Pub(b)))) == Ok(Fit(Image(w, DhTerm(a, b))))
    ensures X25519.Shared(X25519.ClampScalar(w(a)), Fit(Image(w, Pub(b)))) == Ok(Fit(Image(w, DhTerm(a, b))))
    ensures X25519.PublicKey(X25519.ClampScalar(w(a))) == Fit(Image(w, Pub(a)))
  {
    hide Image, X25519.ScalarMultiple, X25519.ClampScalar;
    PublicBytes(w, a);
    PublicBytes(w, b);
    SharedBytes(w, a, b);
    SharedBytes(w, b, a);
    assert NB.Agree(w(a), w(b));
    X25519.ClampedTwice(w(a), X25519.PublicKey(w(b)));
    X25519.ClampedTwice(w(a), X25519.BASEPOINT);
  }

  // ----- The symmetric state -------------------------------------------------------------------------------

  ghost function TranscriptImage(w: World, ck: Term, h: Term): (t: NB.Transcript) {
    NB.Transcript(Fit(Image(w, ck)), Fit(Image(w, h)))
  }

  lemma KdfFits(w: World, i: nat, key: Term, input: Term)
    ensures Fit(Image(w, Kdf(i, key, input))) == Image(w, Kdf(i, key, input))
  {
    hide Image;
    ImageLength(w, Kdf(i, key, input));
  }

  lemma MixImage(w: World, h: Term, part: Term)
    requires Len(h) == 32
    ensures Fit(Image(w, Hash(h, part))) == NB.Mixed(Fit(Image(w, h)), Image(w, part))
  {
    hide Image, Blake2s.Hash;
    HashedBytes(w, h, part);
    ImageLength(w, h);
  }

  lemma KdfImage(w: World, i: nat, key: Term, input: Term)
    requires 0 < i < 256
    ensures Fit(Image(w, Kdf(i, key, input))) == Kdf.Derived(Fit(Image(w, key)), Image(w, input), i)
  {
    hide Image, Kdf.Derived;
    DerivedBytes(w, i, key, input);
  }

  lemma EphemeralImage(w: World, ck: Term, h: Term, n: Name)
    requires Len(h) == 32
    ensures TranscriptImage(w, Kdf(1, ck, Pub(n)), Hash(h, Pub(n)))
         == NB.WithEphemeral(TranscriptImage(w, ck, h), Fit(Image(w, Pub(n))))
  {
    hide Image, Kdf.Derived, NB.Mixed, X25519.PublicKey;
    MixImage(w, h, Pub(n));
    KdfImage(w, 1, ck, Pub(n));
    ImageLength(w, Pub(n));
  }

  lemma SealImage(w: World, ck: Term, h: Term, secret: Term, plain: Term)
    requires Len(secret) == 32 && Len(h) == 32
    ensures var sealed := Seal(Kdf(2, ck, secret), 0, h, plain);
            && Image(w, sealed) == NB.SealedUnder(TranscriptImage(w, ck, h), Fit(Image(w, secret)), Image(w, plain))
            && TranscriptImage(w, Kdf(1, ck, secret), Hash(h, sealed))
               == NB.After(TranscriptImage(w, ck, h), Fit(Image(w, secret)), Image(w, sealed))
  {
    hide Image, Kdf.Derived, NB.Mixed, Aead.Sealed, Aead.NonceFromCounter;
    ImageLength(w, secret);
    ImageLength(w, h);
    SealedBytes(w, Kdf(2, ck, secret), 0, h, plain);
    var sealed := Seal(Kdf(2, ck, secret), 0, h, plain);
    KdfImage(w, 1, ck, secret);
    KdfImage(w, 2, ck, secret);
    MixImage(w, h, sealed);
  }

  /** The transcript and the key after the pre-shared key is mixed into the chain `c`. */
  ghost function PskTerms(w: World, c: Term, h: Term, psk: Term): (r: (NB.Transcript, Bytes32)) {
    hide Image;
    (TranscriptImage(w, Kdf(1, c, psk), Hash(h, Kdf(2, c, psk))), Fit(Image(w, Kdf(3, c, psk))))
  }

  lemma PskImage(w: World, ck: Term, h: Term, ee: Term, se: Term, psk: Term)
    requires Len(ee) == 32 && Len(se) == 32 && Len(psk) == 32 && Len(h) == 32
    ensures NB.Psk2(TranscriptImage(w, ck, h), Fit(Image(w, ee)), Fit(Image(w, se)), Fit(Image(w, psk)))
         == PskTerms(w, Kdf(1, Kdf(1, ck, ee), se), h, psk)
  {
    hide Image, Kdf.Derived, NB.Mixed, Fit, Len;
    Fits(w, ee);
    Fits(w, se);
    Fits(w, psk);
    KdfImage(w, 1, ck, ee);
    KdfImage(w, 1, Kdf(1, ck, ee), se);
    var c := Kdf(1, Kdf(1, ck, ee), se);
    KdfImage(w, 1, c, psk);
    KdfImage(w, 2, c, psk);
    KdfImage(w, 3, c, psk);
    MixImage(w, h, Kdf(2, c, psk));
    KdfFits(w, 2, c, psk);
  }

  // ----- The constants ---------------------------------------------------------------------------------------

  ghost function Constants(w: World): (c: NB.HandshakeConstants) {
    NB.HandshakeConstants(Fit(Image(w, Noise.CK0)), Fit(Image(w, Noise.H0)))
  }

  /** They are the constants of the code, whatever the names stand for. */
  lemma ConstantsAreReal(w: World)
    ensures Constants(w).ck0 == Blake2s.Hash([], Labels.Ascii(Labels.CONSTRUCTION), 32)
    ensures Constants(w).h0 == Blake2s.Hash([], Constants(w).ck0 + Labels.Ascii(Labels.IDENTIFIER), 32)
  {
    hide Image, Blake2s.Hash, Labels.Ascii;
    HashedBytes(w, Noise.CONSTRUCTION, EMPTY);
    HashedBytes(w, Noise.CK0, Noise.IDENTIFIER);
    AtomBytes(w, Labels.Ascii(Labels.CONSTRUCTION));
    AtomBytes(w, Labels.Ascii(Labels.IDENTIFIER));
    AtomBytes(w, []);
    assert Labels.Ascii(Labels.CONSTRUCTION) + [] == Labels.Ascii(Labels.CONSTRUCTION);
  }

  // ----- The four functions ------------------------------------------------------------------------------------

  ghost function FlightImage(w: World, f: Noise.InFlight): (r: NB.InFlight) {
    NB.InFlight(f.localIndex, X25519.ClampScalar(w(f.eph)), Fit(Image(w, f.chain)), Fit(Image(w, f.hash)))
  }

  ghost function KeysImage(w: World, k: KeyPair<Term>): (r: KeyPair<Bytes32>) {
    SessionKeys(Fit(Image(w, k.send)), Fit(Image(w, k.recv)), k.localIndex, k.peerIndex, k.isInitiator)
  }

  ghost function ConsumedImage(w: World, c: Noise.Consumed): (r: NB.Consumed) {
    NB.Consumed(c.peerIndex, Fit(Image(w, c.staticPublic)), c.timestamp, Fit(Image(w, c.ephemeral)),
                Fit(Image(w, c.chain)), Fit(Image(w, c.hash)))
  }

  ghost function InitiationImage(w: World, b: Noise.InitiationBody): (r: seq<u8>) {
    Message.InitiationBody(b.sender, Image(w, b.ephemeral), Image(w, b.encStatic), Image(w, b.encTimestamp))
  }

  ghost function ResponseImage(w: World, b: Noise.ResponseBody): (r: seq<u8>) {
    Message.ResponseBody(b.sender, b.receiver, Image(w, b.ephemeral), Image(w, b.encNothing))
  }

  /** What `create_initiation` writes and keeps is what the term-level function makes, in bytes. */
  lemma InitiationRealized(w: World, l: Name, p: Name, index: u32, eph: Name, stamp: Tai64N)
    requires Agreeing(w)
    ensures var t := Noise.CreateInitiation(Pub(l), Pub(p), DhTerm(l, p), index, eph, stamp, HANDSHAKE_INITIATION_LEN);
            && t.Ok?
            && NB.Initiation(Constants(w), Fit(Image(w, Pub(l))), Fit(Image(w, Pub(p))), Fit(Image(w, DhTerm(l, p))),
               index,
                             w(eph), stamp) == Ok((FlightImage(w, t.value.0), InitiationImage(w, t.value.1)))
  {
    hide Image, NB.WithEphemeral, NB.SealedUnder, NB.After, NB.Mixed, X25519.PublicKey, X25519.Shared,
      X25519.ClampScalar, Message.InitiationBody, DhTerm, Fit;
    var t := Noise.CreateInitiation(Pub(l), Pub(p), DhTerm(l, p), index, eph, stamp, HANDSHAKE_INITIATION_LEN).value;
    var h0 := Hash(Noise.H0, Pub(p));
    var ck, h := Kdf(1, Noise.CK0, Pub(eph)), Hash(h0, Pub(eph));
    var es := DhTerm(eph, p);
    var identity := Seal(Kdf(2, ck, es), 0, h, Pub(l));
    SharedImage(w, eph, p);
    Fits(w, Pub(l));
    Fits(w, Pub(p));
    Fits(w, Pub(eph));
    SharedLength(eph, p);
    SharedLength(l, p);
    Fits(w, es);
    Fits(w, DhTerm(l, p));
    MixImage(w, Noise.H0, Pub(p));
    EphemeralImage(w, Noise.CK0, h0, eph);
    SealImage(w, ck, h, es, Pub(l));
    SealImage(w, Kdf(1, ck, es), Hash(h, identity), DhTerm(l, p), Atom(stamp));
    AtomBytes(w, stamp);
  }

  lemma SharedLength(a: Name, b: Name)
    ensures Len(DhTerm(a, b)) == 32
  {}

  lemma Fits(w: World, t: Term)
    requires Len(t) == 32
    ensures |Image(w, t)| == 32 && Fit(Image(w, t)) == Image(w, t)
  {
    hide Image;
    ImageLength(w, t);
  }

  /** Opening what a sealed term stands for gives what its plaintext stands for. */
  lemma OpenImage(w: World, ck: Term, h: Term, secret: Term, sealed: Term)
    requires Len(secret) == 32 && Len(h) == 32 && Open(Kdf(2, ck, secret), 0, h, sealed).Some?
    ensures NB.Unsealed(TranscriptImage(w, ck, h), Fit(Image(w, secret)), Image(w, sealed))
         == Ok((Image(w, sealed.plain), TranscriptImage(w, Kdf(1, ck, secret), Hash(h, sealed))))
  {
    hide Image, NB.SealedUnder, NB.Unsealed, NB.After;
    SealImage(w, ck, h, secret, sealed.plain);
    NB.OpensUnder(TranscriptImage(w, ck, h), Fit(Image(w, secret)), Image(w, sealed.plain));
  }

  /** An initiation that the responder accepts on terms, it accepts on bytes, with the same outcome. */
  lemma ConsumedRealized(w: World, l: Name, p: Name, e: Name, msg: Noise.InitiationBody, packet: Message.Packet)
    requires Agreeing(w) && msg.ephemeral == Pub(e)
    requires Noise.ConsumeInitiation(l, Pub(l), Pub(p), DhTerm(l, p), msg).Ok?
    requires packet.HandshakeInitiation? && Message.WellFormed(packet) && packet.sender == msg.sender
    requires packet.ephemeral == Image(w, Pub(e)) && packet.encryptedStatic == Image(w, msg.encStatic)
    requires packet.encryptedTimestamp == Image(w, msg.encTimestamp)
    ensures NB.ConsumedInitiation(Constants(w), w(l), Fit(Image(w, Pub(l))), Fit(Image(w, Pub(p))),
                                  Fit(Image(w, DhTerm(l, p))), packet)
         == Ok(ConsumedImage(w, Noise.ConsumeInitiation(l, Pub(l), Pub(p), DhTerm(l, p), msg).value))
  {
    hide Image, NB.WithEphemeral, NB.Unsealed, NB.Mixed, X25519.PublicKey, X25519.Shared, DhTerm, Fit,
      Message.WellFormed;
    var h0 := Hash(Noise.H0, Pub(l));
    var ck, h := Kdf(1, Noise.CK0, Pub(e)), Hash(h0, Pub(e));
    var es := DhTerm(l, e);
    SharedImage(w, l, e);
    SharedLength(l, e);
    SharedLength(l, p);
    Fits(w, Pub(l));
    Fits(w, Pub(p));
    Fits(w, Pub(e));
    Fits(w, es);
    Fits(w, DhTerm(l, p));
    MixImage(w, Noise.H0, Pub(l));
    EphemeralImage(w, Noise.CK0, h0, e);
    OpenImage(w, ck, h, es, msg.encStatic);
    OpenImage(w, Kdf(1, ck, es), Hash(h, msg.encStatic), DhTerm(l, p), msg.encTimestamp);
    AtomBytes(w, msg.encTimestamp.plain.bytes);
  }

  /** The response and the responder's keys. */
  lemma ResponseRealized(w: World, c: Noise.Consumed, e: Name, p: Name, psk: Term, index: u32, eph: Name)
    requires Agreeing(w) && c.ephemeral == Pub(e) && c.staticPublic == Pub(p)
    requires Len(c.chain) == 32 && Len(c.hash) == 32 && Len(psk) == 32
    ensures var t := Noise.CreateResponse(c, psk, index, eph, HANDSHAKE_RESPONSE_LEN);
            && t.Ok?
            && NB.Response(ConsumedImage(w, c), Fit(Image(w, psk)), index, w(eph))
               == Ok((KeysImage(w, t.value.0), ResponseImage(w, t.value.1)))
  {
    hide Image, NB.WithEphemeral, NB.Psk2, X25519.PublicKey, X25519.Shared, X25519.ClampScalar, Message.ResponseBody,
      DhTerm, Fit, Aead.Sealed, Aead.NonceFromCounter, Kdf.Derived;
    var ck, h := Kdf(1, c.chain, Pub(eph)), Hash(c.hash, Pub(eph));
    var ee, se := DhTerm(eph, e), DhTerm(eph, p);
    SharedImage(w, eph, e);
    SharedImage(w, eph, p);
    SharedLength(eph, e);
    SharedLength(eph, p);
    Fits(w, Pub(e));
    Fits(w, Pub(p));
    Fits(w, Pub(eph));
    Fits(w, ee);
    Fits(w, se);
    ScheduleImage(w, c.chain, c.hash, eph, ee, se, psk);
    TransportImage(w, Kdf(1, Kdf(1, ck, ee), se), h, psk);
  }

  /** The key schedule of a response from its ephemeral to the pre-shared key. */
  lemma ScheduleImage(w: World, chain: Term, hash: Term, n: Name, ee: Term, se: Term, psk: Term)
    requires Len(hash) == 32 && Len(ee) == 32 && Len(se) == 32 && Len(psk) == 32
    ensures var t := NB.WithEphemeral(TranscriptImage(w, chain, hash), Fit(Image(w, Pub(n))));
            NB.Psk2(t, Fit(Image(w, ee)), Fit(Image(w, se)), Fit(Image(w, psk)))
            == PskTerms(w, Kdf(1, Kdf(1, Kdf(1, chain, Pub(n)), ee), se), Hash(hash, Pub(n)), psk)
  {
    hide Image, NB.WithEphemeral, NB.Psk2, PskTerms, Fit;
    EphemeralImage(w, chain, hash, n);
    PskImage(w, Kdf(1, chain, Pub(n)), Hash(hash, Pub(n)), ee, se, psk);
  }

  /** The last steps, common to both sides: the empty seal and the two transport keys. */
  lemma TransportImage(w: World, c: Term, h: Term, psk: Term)
    requires Len(h) == 32
    ensures var ck, k, g := Kdf(1, c, psk), Kdf(3, c, psk), Hash(h, Kdf(2, c, psk));
            && Image(w, Seal(k, 0, g, EMPTY))
               == Aead.Sealed(Fit(Image(w, k)), Aead.NonceFromCounter(0), Fit(Image(w, g)), [])
            && Fit(Image(w, Kdf(1, ck, EMPTY))) == Kdf.Derived(Fit(Image(w, ck)), [], 1)
            && Fit(Image(w, Kdf(2, ck, EMPTY))) == Kdf.Derived(Fit(Image(w, ck)), [], 2)
  {
    hide Image, Aead.Sealed, Aead.NonceFromCounter, Kdf.Derived, Fit;
    var ck, k, g := Kdf(1, c, psk), Kdf(3, c, psk), Hash(h, Kdf(2, c, psk));
    AtomBytes(w, []);
    SealedBytes(w, k, 0, g, EMPTY);
    Fits(w, g);
    KdfImage(w, 1, ck, EMPTY);
    KdfImage(w, 2, ck, EMPTY);
  }

  /** A response that the initiator accepts on terms, it accepts on bytes, with the same keys. */
  lemma FinalKeysRealized(w: World, f: Noise.InFlight, l: Name, psk: Term, e: Name, msg: Noise.ResponseBody,
      packet: Message.Packet)
    requires Agreeing(w) && msg.ephemeral == Pub(e) && Len(f.chain) == 32 && Len(f.hash) == 32 && Len(psk) == 32
    requires Noise.ConsumeResponse(f, l, psk, msg).Ok?
    requires packet.HandshakeResponse? && Message.WellFormed(packet) && packet.sender == msg.sender
    requires packet.ephemeral == Image(w, Pub(e)) && packet.encryptedNothing == Image(w, msg.encNothing)
    ensures NB.ConsumedResponse(FlightImage(w, f), w(l), Fit(Image(w, psk)), packet)
         == Ok(KeysImage(w, Noise.ConsumeResponse(f, l, psk, msg).value))
  {
    hide Image, NB.WithEphemeral, NB.Psk2, X25519.PublicKey, X25519.Shared, X25519.ClampScalar, DhTerm, Fit,
      Aead.Sealed, Aead.Opened, Aead.NonceFromCounter, Kdf.Derived, Message.WellFormed;
    var ck, h := Kdf(1, f.chain, Pub(e)), Hash(f.hash, Pub(e));
    var ee, se := DhTerm(f.eph, e), DhTerm(l, e);
    SharedImage(w, f.eph, e);
    SharedImage(w, l, e);
    SharedLength(f.eph, e);
    SharedLength(l, e);
    Fits(w, Pub(e));
    Fits(w, ee);
    Fits(w, se);
    ScheduleImage(w, f.chain, f.hash, e, ee, se, psk);
    var c := Kdf(1, Kdf(1, ck, ee), se);
    TransportImage(w, c, h, psk);
    Aead.OpensIffSealed(Fit(Image(w, Kdf(3, c, psk))), Aead.NonceFromCounter(0), Fit(Image(w, Hash(h, Kdf(2, c, psk)))),
      packet.encryptedNothing, []);
  }

  // ----- What goes on the wire -----------------------------------------------------------------------------------

  ghost function CookieImage(w: World, c: Option<Cookie.LastCookie>): (r: Option<CookieBytes.LastCookie>) {
    if c.None? then None else Some(CookieBytes.LastCookie(Fit16(Image(w, c.value.value)), c.value.receivedAt))
  }

  function Fit16(b: seq<u8>): (m: CookieBytes.Mac16) {
    if |b| == 16 then b else Zeros(16)
  }

  lemma HeaderBytes(w: World)
    ensures Image(w, Number(1)) == Message.Header(1) && Image(w, Number(2)) == Message.Header(2)
  {
    hide Image;
    NumberBytes(w, 1);
    NumberBytes(w, 2);
  }

  /** The term that the MACs of a message cover stands for its body. */
  lemma AlphaBytes(w: World, i: Noise.InitiationBody, r: Noise.ResponseBody)
    ensures Image(w, Cookie.InitiationAlpha(i)) == InitiationImage(w, i)
    ensures Image(w, Cookie.ResponseAlpha(r)) == ResponseImage(w, r)
  {
    hide Image, Message.Header, ToLe;
    HeaderBytes(w);
    NumberBytes(w, i.sender);
    NumberBytes(w, r.sender);
    NumberBytes(w, r.receiver);
    PairBytes(w, i.encStatic, i.encTimestamp);
    PairBytes(w, i.ephemeral, Pair(i.encStatic, i.encTimestamp));
    PairBytes(w, Number(i.sender), Pair(i.ephemeral, Pair(i.encStatic, i.encTimestamp)));
    PairBytes(w, Number(1), Pair(Number(i.sender), Pair(i.ephemeral, Pair(i.encStatic, i.encTimestamp))));
    PairBytes(w, r.ephemeral, r.encNothing);
    PairBytes(w, Number(r.receiver), Pair(r.ephemeral, r.encNothing));
    PairBytes(w, Number(r.sender), Pair(Number(r.receiver), Pair(r.ephemeral, r.encNothing)));
    PairBytes(w, Number(2), Pair(Number(r.sender), Pair(Number(r.receiver), Pair(r.ephemeral, r.encNothing))));
  }

  lemma MacKeysRealized(w: World, l: Name, p: Name)
    ensures var k, b := Cookie.NewMacKeys(Pub(l), Pub(p)),
      CookieBytes.KeysOf(Fit(Image(w, Pub(l))), Fit(Image(w, Pub(p))));
            && Image(w, k.mac1Send) == b.mac1Send && Image(w, k.mac1Recv) == b.mac1Recv
            && Image(w, k.cookieSend) == b.cookieSend && Image(w, k.cookieRecv) == b.cookieRecv
  {
    hide Image, Blake2s.Hash, Labels.Ascii, X25519.PublicKey, Fit;
    Fits(w, Pub(l));
    Fits(w, Pub(p));
    AtomBytes(w, Labels.Ascii(Labels.MAC1));
    AtomBytes(w, Labels.Ascii(Labels.COOKIE));
    HashedBytes(w, Cookie.LABEL_MAC1, Pub(l));
    HashedBytes(w, Cookie.LABEL_MAC1, Pub(p));
    HashedBytes(w, Cookie.LABEL_COOKIE, Pub(l));
    HashedBytes(w, Cookie.LABEL_COOKIE, Pub(p));
  }

  /** `apply_macs` fills the slots with what the two MAC terms stand for, whatever the message. */
  lemma MacsRealized(w: World, l: Name, p: Name, cookie: Option<Cookie.LastCookie>, now: Ticks, alpha: Term,
      body: seq<u8>)
    requires Image(w, alpha) == body && (cookie.Some? ==> Len(cookie.value.value) == 16)
    ensures var macs := Cookie.ApplyMacs(Cookie.NewMacKeys(Pub(l), Pub(p)), cookie, now, alpha);
            CookieBytes.Macced(CookieBytes.KeysOf(Fit(Image(w, Pub(l))), Fit(Image(w, Pub(p)))),
                CookieImage(w, cookie), now, body)
            == body + Image(w, macs.0) + Image(w, macs.1)
  {
    hide Image, CookieBytes.MacOf, CookieBytes.KeysOf, Cookie.NewMacKeys, Fit;
    var keys := Cookie.NewMacKeys(Pub(l), Pub(p));
    MacKeysRealized(w, l, p);
    var mac1 := Mac(keys.mac1Send, alpha);
    MacBytes(w, keys.mac1Send, alpha);
    PairBytes(w, alpha, mac1);
    AtomBytes(w, Cookie.ZERO_MAC.bytes);
    assert Cookie.ZERO_MAC.bytes == Zeros(16);
    if cookie.Some? {
      ImageLength(w, cookie.value.value);
      MacBytes(w, cookie.value.value, Pair(alpha, mac1));
    }
  }

  /** The datagram of a transport term, with the payload it carries. */
  lemma DatagramRealized(w: World, key: Term, receiver: u32, counter: u64, payload: seq<u8>, mtu: Option<Transport.Mtu>)
    ensures Transport.Datagram(Fit(Image(w, key)), receiver, counter, payload, mtu)
         == Message.Encode(Message.TransportData(receiver, counter,
              Image(w, Seal(key, counter, EMPTY, Atom(Model.Pad(payload, mtu))))))
  {
    hide Image, Aead.Sealed, Aead.NonceFromCounter, Message.Encode, Fit, Model.Pad;
    AtomBytes(w, []);
    AtomBytes(w, Model.Pad(payload, mtu));
    SealedBytes(w, key, counter, EMPTY, Atom(Model.Pad(payload, mtu)));
  }
}
