/** A Dolev-Yao adversary for the handshake terms: what it can derive, what honest parties
    have sealed, and why it can forge none of it. */
module Adversary {
  import opened Machine
  import opened Time
  import opened Terms
  import opened Noise
  import opened TunnelModel

  // ----- What the adversary can derive ------------------------------------------------------

  /** An over-approximation of everything an adversary can build that holds its own names,
      sees every honest ciphertext in `log`, and is given every MAC for free. */
  predicate Derivable(t: Term, log: set<Term>) {
    match t
    case Atom(_) => true
    case Number(_) => true
    case Secret(n) => n.Adversarial?
    case Pub(_) => true
    case LowOrder => true
    case Dh(a, b) => a.Adversarial? || b.Adversarial?
    case DhPoint(a, point) => a.Adversarial? && Derivable(point, log)
    case Hash(l, r) => Derivable(l, log) && Derivable(r, log)
    case Kdf(_, k, x) => Derivable(k, log) && Derivable(x, log)
    case Mac(_, _) => true
    case Pair(a, b) => Derivable(a, log) && Derivable(b, log)
    case Seal(k, _, aad, p) => t in log || (Derivable(k, log) && Derivable(aad, log) && Derivable(p, log))
    case XSeal(k, _, aad, p) => Derivable(k, log) && Derivable(aad, log) && Derivable(p, log)
  }

  predicate PacketDerivable(p: Packet, log: set<Term>) {
    match p
    case Initiation(b, mac1, mac2) =>
      && Derivable(b.ephemeral, log) && Derivable(b.encStatic, log) && Derivable(b.encTimestamp, log)
      && Derivable(mac1, log) && Derivable(mac2, log)
    case Response(b, mac1, mac2) =>
      && Derivable(b.ephemeral, log) && Derivable(b.encNothing, log)
      && Derivable(mac1, log) && Derivable(mac2, log)
    case Cookies(reply) => Derivable(reply.encrypted, log)
    case Transport(_, _, ciphertext) => Derivable(ciphertext, log)
  }

  /** More honest ciphertexts never take anything away from the adversary. */
  lemma {:induction false} DerivableMonotone(t: Term, log: set<Term>, more: set<Term>)
    requires log <= more && Derivable(t, log)
    ensures Derivable(t, more)
  {
    match t
    case DhPoint(_, point) => DerivableMonotone(point, log, more);
    case Hash(l, r) => DerivableMonotone(l, log, more); DerivableMonotone(r, log, more);
    case Kdf(_, k, x) => DerivableMonotone(k, log, more); DerivableMonotone(x, log, more);
    case Pair(a, b) => DerivableMonotone(a, log, more); DerivableMonotone(b, log, more);
    case Seal(k, _, aad, p) =>
      if t !in log {
        DerivableMonotone(k, log, more); DerivableMonotone(aad, log, more); DerivableMonotone(p, log, more);
      }
    case XSeal(k, _, aad, p) =>
      DerivableMonotone(k, log, more); DerivableMonotone(aad, log, more); DerivableMonotone(p, log, more);
    case _ =>
  }

  // ----- The terms of an honest exchange -------------------------------------------------------

  const SS: Term := DhTerm(Static(Alice), Static(Bob))

  /** Chain after the ephemeral key, after `es`, and after `ss`: the initiator `e.owner`
      talks to the other party. */
  function ChainE(e: Name): (t: Term) { Kdf(1, CK0, Pub(e)) }

  function Es(e: Name): (t: Term)
    requires e.Draw?
  {
    DhTerm(e, Static(Other(e.owner)))
  }

  function ChainEs(e: Name): (t: Term)
    requires e.Draw?
  {
    Kdf(1, ChainE(e), Es(e))
  }

  function ChainSs(e: Name): (t: Term)
    requires e.Draw?
  {
    Kdf(1, ChainEs(e), SS)
  }

  /** Chain after the responder's ephemeral `r`, `ee` and `se`. */
  function ChainSe(e: Name, r: Name): (t: Term)
    requires e.Draw?
  {
    Kdf(1, Kdf(1, Kdf(1, ChainSs(e), Pub(r)), DhTerm(r, e)), DhTerm(r, Static(e.owner)))
  }

  /** The two transport keys: index 1 carries initiator to responder, index 2 back. */
  function TransportKey(direction: nat, e: Name, r: Name, psk: Term): (t: Term)
    requires e.Draw?
  {
    Kdf(direction, Kdf(1, ChainSe(e, r), psk), EMPTY)
  }

  /** Two ephemeral names of opposite honest parties. */
  predicate Opposite(e: Name, r: Name) {
    e.Draw? && r.Draw? && r.owner == Other(e.owner)
  }

  lemma {:induction false} TransportKeyInjective(d1: nat, e1: Name, r1: Name, p1: Term, d2: nat, e2: Name, r2: Name,
      p2: Term)
    requires e1.Draw? && e2.Draw?
    requires TransportKey(d1, e1, r1, p1) == TransportKey(d2, e2, r2, p2)
    ensures d1 == d2 && e1 == e2 && r1 == r2 && p1 == p2
  {
    assert ChainSe(e1, r1) == ChainSe(e2, r2);
    hide DhTerm;
    assert ChainSs(e1) == ChainSs(e2);
  }

  lemma {:induction false} SsIsSecret(log: set<Term>)
    ensures !Derivable(SS, log)
  {}

  lemma {:induction false} ChainsAreSecret(e: Name, r: Name, log: set<Term>)
    requires e.Draw?
    ensures !Derivable(ChainSs(e), log)
    ensures !Derivable(ChainSe(e, r), log)
  {
    SsIsSecret(log);
    hide DhTerm, SS;
    assert !Derivable(Kdf(1, ChainSs(e), Pub(r)), log);
    assert !Derivable(Kdf(1, Kdf(1, ChainSs(e), Pub(r)), DhTerm(r, e)), log);
  }

  lemma {:induction false} TransportKeyIsSecret(d: nat, e: Name, r: Name, psk: Term, log: set<Term>)
    requires e.Draw?
    ensures !Derivable(TransportKey(d, e, r, psk), log)
  {
    ChainsAreSecret(e, r, log);
    hide ChainSe;
    assert !Derivable(Kdf(1, ChainSe(e, r), psk), log);
  }

  // ----- The honest log -------------------------------------------------------------------------

  function HashE(e: Name): (t: Term)
    requires e.Draw?
  {
    Hash(Hash(H0, Pub(Static(Other(e.owner)))), Pub(e))
  }

  function StaticSeal(e: Name): (t: Term)
    requires e.Draw?
  {
    Seal(Kdf(2, ChainE(e), Es(e)), 0, HashE(e), Pub(Static(e.owner)))
  }

  function StampSeal(e: Name, stamp: Tai64N): (t: Term)
    requires e.Draw?
  {
    Seal(Kdf(2, ChainEs(e), SS), 0, Hash(HashE(e), StaticSeal(e)), Atom(stamp))
  }

  function HashSs(e: Name, stamp: Tai64N): (t: Term)
    requires e.Draw?
  {
    Hash(Hash(HashE(e), StaticSeal(e)), StampSeal(e, stamp))
  }

  function NothingSeal(e: Name, r: Name, stamp: Tai64N, psk: Term): (t: Term)
    requires e.Draw?
  {
    Seal(Kdf(3, ChainSe(e, r), psk), 0, Hash(Hash(HashSs(e, stamp), Pub(r)), Kdf(2, ChainSe(e, r), psk)), EMPTY)
  }

  function TransportSeal(direction: nat, e: Name, r: Name, psk: Term, counter: u64, plain: seq<u8>): (t: Term)
    requires e.Draw?
  {
    Seal(TransportKey(direction, e, r, psk), counter, EMPTY, Atom(plain))
  }

  /** Where an honest ciphertext came from. */
  datatype Origin =
    | FromStatic(e: Name)
    | FromStamp(e: Name, stamp: Tai64N)
    | FromNothing(e: Name, r: Name, stamp: Tai64N, psk: Term)
    | FromTransport(direction: nat, e: Name, r: Name, psk: Term, counter: u64, plain: seq<u8>)

  predicate OriginOk(o: Origin) {
    && o.e.Draw?
    && (o.FromNothing? || o.FromTransport? ==> Opposite(o.e, o.r))
    && (o.FromTransport? ==> o.direction == 1 || o.direction == 2)
  }

  function SealOf(o: Origin): (t: Term)
    requires OriginOk(o)
  {
    match o
    case FromStatic(e) => StaticSeal(e)
    case FromStamp(e, stamp) => StampSeal(e, stamp)
    case FromNothing(e, r, stamp, psk) => NothingSeal(e, r, stamp, psk)
    case FromTransport(d, e, r, psk, counter, plain) => TransportSeal(d, e, r, psk, counter, plain)
  }

  /** Every honest ciphertext was made by one of the four sealing steps. */
  ghost predicate LogOk(log: set<Term>) {
    forall t :: t in log ==> exists o: Origin :: OriginOk(o) && t == SealOf(o)
  }

  /** No honest key is derivable. */
  lemma {:induction false} HonestKeysAreSecret(o: Origin, log: set<Term>)
    requires OriginOk(o)
    ensures !Derivable(SealOf(o).key, log)
  {
    match o
    case FromStatic(e) => assert Es(e).Dh?;
    case FromStamp(e, stamp) => StampKeyIsSecret(ChainEs(e), log);
    case FromNothing(e, r, stamp, psk) => ChainsAreSecret(e, r, log);
    case FromTransport(d, e, r, psk, counter, plain) => TransportKeyIsSecret(d, e, r, psk, log);
  }

  /** The adversary is closed under decryption too: whatever it can open with a key it has
      gives it nothing it could not derive already. */
  lemma {:induction false} DecryptionGainsNothing(k: Term, counter: u64, aad: Term, plain: Term, log: set<Term>)
    requires LogOk(log) && Derivable(Seal(k, counter, aad, plain), log) && Derivable(k, log)
    ensures Derivable(plain, log)
  {
    if Seal(k, counter, aad, plain) in log {
      var o: Origin :| OriginOk(o) && Seal(k, counter, aad, plain) == SealOf(o);
      HonestKeysAreSecret(o, log);
    }
  }

  // ----- Authentication ----------------------------------------------------------------------------

  lemma {:induction false} StampKeyIsSecret(ck: Term, log: set<Term>)
    ensures !Derivable(Kdf(2, ck, SS), log)
  {
    SsIsSecret(log);
    hide SS;
  }

  /** Only the peer's own initiation gets past the responder. */
  lemma {:induction false} InitiationAuthentic(p: Party, msg: InitiationBody, log: set<Term>) returns (e: Name)
    requires LogOk(log)
    requires Derivable(msg.encTimestamp, log)
    requires ConsumeInitiation(Static(p), Pub(Static(p)), Pub(Static(Other(p))), SS, msg).Ok?
    ensures e.Draw? && e.owner == Other(p)
    ensures var c := ConsumeInitiation(Static(p), Pub(Static(p)), Pub(Static(Other(p))), SS, msg).value;
            && c.ephemeral == Pub(e) && c.chain == ChainSs(e) && c.hash == HashSs(e, c.timestamp)
            && c.staticPublic == Pub(Static(e.owner))
            && msg.encTimestamp == StampSeal(e, c.timestamp) && msg.encTimestamp in log
  {
    var es := SharedSecret(Static(p), msg.ephemeral).value;
    var ck := Kdf(1, Kdf(1, CK0, msg.ephemeral), es);
    StampKeyIsSecret(ck, log);
    assert msg.encTimestamp.Seal? && msg.encTimestamp.key == Kdf(2, ck, SS);
    assert msg.encTimestamp in log;
    var o: Origin :| OriginOk(o) && msg.encTimestamp == SealOf(o);
    assert SS.Dh?;
    assert o.FromStamp?;
    e := o.e;
    assert msg.ephemeral == Pub(e);
    assert es == DhTerm(Static(p), e) == DhTerm(e, Static(Other(e.owner)));
    DhInjective(Static(p), e, e, Static(Other(e.owner)));
  }

  /** Only the peer's answer to this very handshake gets past the initiator. */
  lemma {:induction false} ResponseAuthentic(f: InFlight, psk: Term, msg: ResponseBody, log: set<Term>)
    returns (r: Name)
    requires LogOk(log)
    requires f.eph.Draw? && f.chain == ChainSs(f.eph)
    requires Derivable(msg.encNothing, log)
    requires ConsumeResponse(f, Static(f.eph.owner), psk, msg).Ok?
    ensures Opposite(f.eph, r) && msg.ephemeral == Pub(r) && msg.encNothing in log
    ensures var keys := ConsumeResponse(f, Static(f.eph.owner), psk, msg).value;
            keys.send == TransportKey(1, f.eph, r, psk) && keys.recv == TransportKey(2, f.eph, r, psk)
  {
    var key := msg.encNothing.key;
    assert key.Kdf? && key.index == 3;
    var ck := key.key;
    assert ck.Kdf? && ck.key.Kdf? && ck.key.key.Kdf? && ck.key.key.key == f.chain && ck.key.key.input == msg.ephemeral;
    ChainsAreSecret(f.eph, f.eph, log);
    assert !Derivable(ck.key.key, log);
    assert !Derivable(ck.key, log);
    assert !Derivable(ck, log);
    assert !Derivable(key, log);
    assert msg.encNothing in log;
    var o: Origin :| OriginOk(o) && msg.encNothing == SealOf(o);
    assert o.FromNothing?;
    r := o.r;
    assert msg.ephemeral == Pub(r);
    assert f.chain == ChainSs(o.e);
    assert f.eph == o.e;
    DhCommutes(f.eph, r);
    DhCommutes(Static(f.eph.owner), r);
  }

  /** A transport ciphertext that opens under a genuine key was sealed under that key by
      the party at the other end. */
  lemma {:induction false} TransportAuthentic(d: nat, e: Name, r: Name, psk: Term, counter: u64, t: Term,
      log: set<Term>) returns (plain: seq<u8>)
    requires LogOk(log) && Opposite(e, r) && (d == 1 || d == 2)
    requires Derivable(t, log)
    requires Open(TransportKey(d, e, r, psk), counter, EMPTY, t).Some?
    ensures t in log && t == TransportSeal(d, e, r, psk, counter, plain)
  {
    TransportKeyIsSecret(d, e, r, psk, log);
    assert t in log;
    var o: Origin :| OriginOk(o) && t == SealOf(o);
    assert t.key.input == EMPTY;
    assert o.FromTransport? by {
      hide TransportKey, ChainSe, ChainEs, ChainE, DhTerm;
    }
    TransportKeyInjective(d, e, r, psk, o.direction, o.e, o.r, o.psk);
    plain := o.plain;
  }
}
