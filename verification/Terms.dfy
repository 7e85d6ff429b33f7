/** A free term algebra for the cryptographic primitives.  Two terms are the same byte
    string exactly when they are the same term, up to the one equation that
    Diffie-Hellman commutes, which the normal form `Dh` builds in. */
module Terms {
  import opened Machine

  datatype Party = Alice | Bob

  function Other(p: Party): (q: Party)
    ensures q != p
  {
    if p == Alice then Bob else Alice
  }

  /** Names of 32-byte secrets: the two static keys, the entropy drawn by each honest
      party, and whatever the adversary picks for itself. */
  datatype Name =
    | Static(owner: Party)
    | Draw(owner: Party, n: nat)
    | Adversarial(n: nat)

  datatype Term =
    | Atom(bytes: seq<u8>)                                  // public data
    | Number(value: nat)                                    // a public index or type tag
    | Secret(name: Name)                                    // a raw 32-byte secret
    | Pub(name: Name)                                       // its X25519 public key
    | LowOrder                                              // a point of low order
    | Dh(a: Name, b: Name)                                  // shared secret of two names
    | DhPoint(a: Name, point: Term)                         // ... with a point of unknown logarithm
    | Hash(left: Term, right: Term)
    | Kdf(index: nat, key: Term, input: Term)               // output number `index` of the KDF
    | Mac(key: Term, input: Term)
    | Pair(first: Term, second: Term)
    | Seal(key: Term, counter: u64, aad: Term, plain: Term)
    | XSeal(key: Term, nonce: seq<u64>, aad: Term, plain: Term)

  const EMPTY: Term := Atom([])

  // ----- Diffie-Hellman ------------------------------------------------------

  function Rank(n: Name): (r: (int, int)) {
    match n
    case Static(p) => (0, if p == Alice then 0 else 1)
    case Draw(p, k) => (if p == Alice then 1 else 2, k)
    case Adversarial(k) => (3, k)
  }

  predicate NameLess(a: Name, b: Name) {
    Rank(a).0 < Rank(b).0 || (Rank(a).0 == Rank(b).0 && Rank(a).1 < Rank(b).1)
  }

  function DhTerm(a: Name, b: Name): (t: Term) {
    if NameLess(b, a) then Dh(b, a) else Dh(a, b)
  }

  /** `shared_secret`: an all-zero result is an error, every other point agrees. */
  function SharedSecret(mine: Name, point: Term): (r: Result<Term>)
    ensures r.Err? ==> r.error == InvalidPublicKey
  {
    match point
    case LowOrder => Err(InvalidPublicKey)
    case Pub(theirs) => Ok(DhTerm(mine, theirs))
    case _ => Ok(DhPoint(mine, point))
  }

  lemma DhCommutes(a: Name, b: Name)
    ensures SharedSecret(a, Pub(b)) == SharedSecret(b, Pub(a))
  {}

  /** A shared secret names its two owners and nobody else. */
  lemma DhInjective(a: Name, b: Name, c: Name, d: Name)
    requires DhTerm(a, b) == DhTerm(c, d)
    ensures (a == c && b == d) || (a == d && b == c)
  {}

  // ----- Authenticated encryption --------------------------------------------

  function Open(key: Term, counter: u64, aad: Term, t: Term): (r: Option<Term>)
    ensures r.Some? <==> t.Seal? && t.key == key && t.counter == counter && t.aad == aad
    ensures r.Some? ==> t == Seal(key, counter, aad, r.value)
  {
    if t.Seal? && t.key == key && t.counter == counter && t.aad == aad then Some(t.plain) else None
  }

  function XOpen(key: Term, nonce: seq<u64>, aad: Term, t: Term): (r: Option<Term>) {
    if t.XSeal? && t.key == key && t.nonce == nonce && t.aad == aad then Some(t.plain) else None
  }

  /** The length in bytes of what a term stands for. */
  function Len(t: Term): (n: nat) {
    match t
    case Atom(b) => |b|
    case Number(_) => 4
    case Mac(_, _) => 16
    case Pair(a, b) => Len(a) + Len(b)
    case Seal(_, _, _, p) => Len(p) + 16
    case XSeal(_, _, _, p) => Len(p) + 16
    case _ => 32
  }

  /** Plaintext length of a sealed byte string, as its wire length shows it before any
      key is involved. */
  function BodyLen(t: Term): (n: nat) {
    if Len(t) >= 16 then Len(t) - 16 else 0
  }
}
