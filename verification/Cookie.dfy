/** `src/cookie.rs`: the two MACs of a handshake message, the rotating cookie jar and the
    cookie reply. */
module Cookie {
  import opened Machine
  import opened Time
  import opened Terms
  import opened Noise
  import Labels
  import opened Arith
  import opened Rotation

  const LABEL_MAC1: Term := Atom(Labels.Ascii(Labels.MAC1))
  const LABEL_COOKIE: Term := Atom(Labels.Ascii(Labels.COOKIE))

  const ZERO_SECRET: Term := Atom([0, 0, 0, 0, 0, 0, 0, 0, 0, 0, 0, 0, 0, 0, 0, 0, 0, 0, 0, 0, 0, 0, 0, 0, 0, 0, 0,
      0, 0, 0, 0, 0])
  const ZERO_MAC: Term := Atom([0, 0, 0, 0, 0, 0, 0, 0, 0, 0, 0, 0, 0, 0, 0, 0])

  datatype MacKeys = MacKeys(mac1Send: Term, mac1Recv: Term, cookieSend: Term, cookieRecv: Term)

  function NewMacKeys(localPublic: Term, peerPublic: Term): (k: MacKeys) {
    MacKeys(Hash(LABEL_MAC1, peerPublic), Hash(LABEL_MAC1, localPublic),
            Hash(LABEL_COOKIE, localPublic), Hash(LABEL_COOKIE, peerPublic))
  }

  // ----- MAC inputs ----------------------------------------------------------

  /** Every byte before `mac1`. */
  function InitiationAlpha(b: InitiationBody): (t: Term) {
    Pair(Number(1), Pair(Number(b.sender), Pair(b.ephemeral, Pair(b.encStatic, b.encTimestamp))))
  }

  function ResponseAlpha(b: ResponseBody): (t: Term) {
    Pair(Number(2), Pair(Number(b.sender), Pair(Number(b.receiver), Pair(b.ephemeral, b.encNothing))))
  }

  // ----- The initiator's side ------------------------------------------------

  datatype LastCookie = LastCookie(value: Term, receivedAt: Ticks)

  function FreshValue(c: LastCookie, now: Ticks): (r: Option<Term>) {
    if Since(now, c.receivedAt) < COOKIE_LIFETIME then Some(c.value) else None
  }

  /** `apply_macs`: the pair of MAC fields for a message body. */
  function ApplyMacs(keys: MacKeys, cookie: Option<LastCookie>, now: Ticks, alpha: Term): (r: (Term, Term)) {
    var mac1 := Mac(keys.mac1Send, alpha);
    var value := if cookie.Some? then FreshValue(cookie.value, now) else None;
    (mac1, if value.Some? then Mac(value.value, Pair(alpha, mac1)) else ZERO_MAC)
  }

  predicate VerifyMac1(keys: MacKeys, alpha: Term, mac1: Term) {
    mac1 == Mac(keys.mac1Recv, alpha)
  }

  datatype CookieReply = CookieReply(receiver: u32, nonce: seq<u64>, encrypted: Term)

  function ConsumeCookieReply(keys: MacKeys, lastSentMac1: Term, msg: CookieReply, now: Ticks)
    : (r: Result<LastCookie>)
  {
    var cookie := XOpen(keys.cookieRecv, msg.nonce, lastSentMac1, msg.encrypted);
    if cookie.None? then Err(InvalidCookie) else Ok(LastCookie(cookie.value, now))
  }

  // ----- The jar -------------------------------------------------------------

  const EMPTY_JAR: Jar<Term> := Unprimed(ZERO_SECRET)

  /** What the entropy source would hand out for a rotation; `None` is a failed draw. */
  datatype JarEntropy = JarEntropy(secret: Option<Name>, seed: Option<NonceWords>)

  function Drawn(rng: JarEntropy): (s: Option<Term>) {
    if rng.secret.Some? then Some(Secret(rng.secret.value)) else None
  }

  function Rotate(j: Jar<Term>, now: Ticks, rng: JarEntropy): (r: Result<Jar<Term>>) {
    Rotated(j, now, Drawn(rng), rng.seed)
  }

  function CookieFor(secret: Term, remote: seq<u8>): (t: Term) {
    Mac(secret, Atom(remote))
  }

  function Mint(j: Jar<Term>, now: Ticks, rng: JarEntropy, remote: seq<u8>): (r: Result<(Jar<Term>, Term)>) {
    var rotated := Rotate(j, now, rng);
    if rotated.Err? then Err(rotated.error)
    else Ok((rotated.value, CookieFor(rotated.value.secret, remote)))
  }

  predicate VerifyMac2(j: Jar<Term>, remote: seq<u8>, beta: Term, mac2: Term) {
    && j.primed
    && (|| mac2 == Mac(CookieFor(j.secret, remote), beta)
        || (mac2 == Mac(CookieFor(j.previous, remote), beta) && j.hasPrevious))
  }

  function BuildCookieReply(keys: MacKeys, j: Jar<Term>, now: Ticks, rng: JarEntropy, peerSender: u32,
                            theirMac1: Term, remote: seq<u8>, outLen: nat): (r: Result<(Jar<Term>, CookieReply)>)
  {
    if outLen < COOKIE_REPLY_LEN then Err(BufferTooSmall) else
    var minted := Mint(j, now, rng, remote);
    if minted.Err? then Err(minted.error) else
    var nonce := NextNonce(minted.value.0.nonce);
    Ok((minted.value.0.(nonce := nonce),
        CookieReply(peerSender, nonce, XSeal(keys.cookieSend, nonce, theirMac1, minted.value.1))))
  }

  // ----- Properties of runs --------------------------------------------------

  /** One use of the jar by a responder under load. */
  datatype Use = Use(now: Ticks, rng: JarEntropy, peerSender: u32, theirMac1: Term, remote: seq<u8>, outLen: nat)

  function AfterUse(keys: MacKeys, j: Jar<Term>, u: Use): (r: Jar<Term>) {
    var built := BuildCookieReply(keys, j, u.now, u.rng, u.peerSender, u.theirMac1, u.remote, u.outLen);
    if built.Ok? then built.value.0 else j
  }

  function AfterUses(keys: MacKeys, j: Jar<Term>, uses: seq<Use>): (r: Jar<Term>) {
    if uses == [] then j
    else AfterUse(keys, AfterUses(keys, j, uses[..|uses| - 1]), uses[|uses| - 1])
  }

  /** The state of a jar relative to a secret it used to mint while last rotated at `since`. */
  predicate StillHolds(j: Jar<Term>, secret: Term, since: Ticks) {
    && j.primed
    && (|| (j.secret == secret && j.rotatedAt == since)
        || (j.hasPrevious && j.previous == secret && j.rotatedAt >= since + COOKIE_LIFETIME))
  }

  lemma {:induction false} SecretIsKept(keys: MacKeys, j: Jar<Term>, secret: Term, since: Ticks, uses: seq<Use>)
    requires StillHolds(j, secret, since)
    requires forall i :: 0 <= i < |uses| ==> uses[i].now < since + 2 * COOKIE_LIFETIME
    ensures StillHolds(AfterUses(keys, j, uses), secret, since)
  {
    if uses != [] {
      SecretIsKept(keys, j, secret, since, uses[..|uses| - 1]);
    }
  }

  /** A cookie minted at clock reading T verifies for its remote and every message body
      after any schedule of further replies none of which reads past T + 120 s, whether or
      not those readings are monotone. */
  lemma CookieOutlivesRotation(keys: MacKeys, j: Jar<Term>, mintedAt: Ticks, rng: JarEntropy, remote: seq<u8>,
                               uses: seq<Use>, beta: Term)
    requires Mint(j, mintedAt, rng, remote).Ok?
    requires forall i :: 0 <= i < |uses| ==> uses[i].now <= mintedAt + COOKIE_LIFETIME
    ensures var (after, cookie) := Mint(j, mintedAt, rng, remote).value;
            VerifyMac2(AfterUses(keys, after, uses), remote, beta, Mac(cookie, beta))
  {
    var after := Mint(j, mintedAt, rng, remote).value.0;
    assert StillHolds(after, after.secret, after.rotatedAt);
    assert mintedAt < after.rotatedAt + COOKIE_LIFETIME;
    SecretIsKept(keys, after, after.secret, after.rotatedAt, uses);
  }

  /** One nanosecond more is too much: a cookie minted at T, just before the jar rotates, no
      longer verifies after two replies at T + 1 ns and T + 120 s + 1 ns that draw new secrets. */
  lemma CookieIsForgotten(keys: MacKeys, j: Jar<Term>, mintedAt: Ticks, rng: JarEntropy, first: Use, second: Use,
      remote: seq<u8>, beta: Term)
    requires j.primed && mintedAt == j.rotatedAt + COOKIE_LIFETIME - 1
    requires first.now == mintedAt + 1 && second.now == mintedAt + COOKIE_LIFETIME + 1
    requires first.outLen >= COOKIE_REPLY_LEN && second.outLen >= COOKIE_REPLY_LEN
    requires first.rng.secret.Some? && second.rng.secret.Some?
    requires Secret(first.rng.secret.value) != j.secret && Secret(second.rng.secret.value) != j.secret
    ensures Mint(j, mintedAt, rng, remote) == Ok((j, CookieFor(j.secret, remote)))
    ensures !VerifyMac2(AfterUses(keys, j, [first, second]), remote, beta, Mac(CookieFor(j.secret, remote), beta))
  {
    assert [first, second][..1] == [first];
    assert [first][..0] == [];
    var one := AfterUse(keys, j, first);
    assert AfterUses(keys, j, [first]) == one;
    assert one.rotatedAt == first.now && one.secret == Secret(first.rng.secret.value);
  }

  /** Exactly how long: over all schedules that never read past `bound` the secret of a jar
      keeps verifying if and only if `bound` stays short of 240 s after the rotation. */
  lemma SecretServesIff(keys: MacKeys, j: Jar<Term>, bound: Ticks, remote: seq<u8>, beta: Term)
    requires j.primed
    ensures (forall uses: seq<Use> | (forall i :: 0 <= i < |uses| ==> uses[i].now <= bound) ::
               VerifyMac2(AfterUses(keys, j, uses), remote, beta, Mac(CookieFor(j.secret, remote), beta)))
            <==> bound < j.rotatedAt + 2 * COOKIE_LIFETIME
  {
    if bound < j.rotatedAt + 2 * COOKIE_LIFETIME {
      forall uses: seq<Use> | (forall i :: 0 <= i < |uses| ==> uses[i].now <= bound)
        ensures VerifyMac2(AfterUses(keys, j, uses), remote, beta, Mac(CookieFor(j.secret, remote), beta))
      {
        SecretIsKept(keys, j, j.secret, j.rotatedAt, uses);
      }
    } else {
      var a, b := Adversarial(0), Adversarial(1);
      var x := if j.secret == Secret(a) then Adversarial(2) else a;
      var y := if j.secret == Secret(b) then Adversarial(2) else b;
      var mintedAt := j.rotatedAt + COOKIE_LIFETIME - 1;
      var first := Use(mintedAt + 1, JarEntropy(Some(x), None), 0, EMPTY, [], COOKIE_REPLY_LEN);
      var second := Use(mintedAt + COOKIE_LIFETIME + 1, JarEntropy(Some(y), None), 0, EMPTY, [], COOKIE_REPLY_LEN);
      CookieIsForgotten(keys, j, mintedAt, JarEntropy(None, None), first, second, remote, beta);
      var uses := [first, second];
      assert forall i :: 0 <= i < |uses| ==> uses[i].now <= bound;
    }
  }

  /** A jar that entropy has not primed holds nothing; one that it has primed holds only
      drawn secrets wherever verification looks. */
  predicate JarValid(j: Jar<Term>) {
    && (j.primed ==> j.secret.Secret?)
    && (j.hasPrevious ==> j.primed && j.previous.Secret?)
  }

  lemma {:induction false} JarStaysValid(keys: MacKeys, uses: seq<Use>)
    ensures JarValid(AfterUses(keys, EMPTY_JAR, uses))
  {
    if uses != [] { JarStaysValid(keys, uses[..|uses| - 1]); }
  }

  /** The all-zero secret of a new jar never verifies anything, in any run: what verifies
      was made with a secret drawn from entropy. */
  lemma ZeroSecretNeverServes(keys: MacKeys, uses: seq<Use>, remote: seq<u8>, beta: Term, mac2: Term)
    requires VerifyMac2(AfterUses(keys, EMPTY_JAR, uses), remote, beta, mac2)
    ensures mac2 != Mac(CookieFor(ZERO_SECRET, remote), beta)
    ensures exists n: Name :: mac2 == Mac(CookieFor(Secret(n), remote), beta)
  {
    JarStaysValid(keys, uses);
    var j := AfterUses(keys, EMPTY_JAR, uses);
    var s := if mac2 == Mac(CookieFor(j.secret, remote), beta) then j.secret else j.previous;
    assert mac2 == Mac(CookieFor(Secret(s.name), remote), beta);
  }

  /** Distance covered on the nonce circle by a run from a primed jar. */
  function Replies(keys: MacKeys, j: Jar<Term>, uses: seq<Use>): (n: nat)
    ensures n <= |uses|
  {
    if uses == [] then 0 else
    var before := AfterUses(keys, j, uses[..|uses| - 1]);
    var u := uses[|uses| - 1];
    Replies(keys, j, uses[..|uses| - 1])
    + if BuildCookieReply(keys, before, u.now, u.rng, u.peerSender, u.theirMac1, u.remote, u.outLen).Ok? then 1 else 0
  }

  lemma {:induction false} NonceIsReplyCount(keys: MacKeys, j: Jar<Term>, uses: seq<Use>)
    requires j.primed
    ensures AfterUses(keys, j, uses).primed
    ensures NonceValue(AfterUses(keys, j, uses).nonce) == (NonceValue(j.nonce) + Replies(keys, j, uses)) % NONCE_LIMIT
  {
    if uses != [] {
      NonceIsReplyCount(keys, j, uses[..|uses| - 1]);
      var before := AfterUses(keys, j, uses[..|uses| - 1]);
      NonceAdvances(before.nonce);
      SuccessorMod(NonceValue(j.nonce) + Replies(keys, j, uses[..|uses| - 1]), NONCE_LIMIT);
    } else {
      SmallMod(NonceValue(j.nonce), NONCE_LIMIT);
    }
  }

  /** Two replies of one run carry different nonces as long as fewer than 2^192 replies
      lie between them. */
  lemma NoncesNeverRepeat(keys: MacKeys, j: Jar<Term>, between: seq<Use>)
    requires j.primed
    requires 0 < Replies(keys, j, between) < NONCE_LIMIT
    ensures AfterUses(keys, j, between).nonce != j.nonce
  {
    hide NonceValue, AfterUses, Replies;
    NonceIsReplyCount(keys, j, between);
    var v, n := NonceValue(j.nonce), Replies(keys, j, between);
    if v + n < NONCE_LIMIT {
      SmallMod(v + n, NONCE_LIMIT);
    } else {
      DivModUnique(v + n, 1, v + n - NONCE_LIMIT, NONCE_LIMIT);
    }
  }

  // ----- On the live jar --------------------------------------------------------

  /** `build_cookie_reply`: mint, take a nonce, seal. The nonce is gone once it is taken, but
      nothing after that can fail: an error leaves the jar as it was. */
  method Reply(jar: CookieJar<Term>, keys: MacKeys, now: Ticks, rng: JarEntropy, peerSender: u32, theirMac1: Term,
      remote: seq<u8>, outLen: nat)
    returns (r: Result<CookieReply>)
    modifies jar
    ensures var spec := BuildCookieReply(keys, old(jar.Contents()), now, rng, peerSender, theirMac1, remote, outLen);
            if spec.Ok? then r == Ok(spec.value.1) && jar.Contents() == spec.value.0
            else r == Err(spec.error) && jar.Contents() == old(jar.Contents())
    ensures r.Err? ==> r.error != Internal
    ensures r.Ok? ==> outLen >= COOKIE_REPLY_LEN
  {
    if outLen < COOKIE_REPLY_LEN {
      return Err(BufferTooSmall);
    }
    var rotated := jar.RotateIfNeeded(now, Drawn(rng), rng.seed);
    if rotated.Err? {
      return Err(ErrorOf(rotated));
    }
    var cookie := CookieFor(jar.secret, remote);
    var nonce := jar.TakeNonce();
    var encrypted := XSeal(keys.cookieSend, nonce, theirMac1, cookie);
    assert Len(cookie) == 16;
    if Len(encrypted) != 32 {
      return Err(Internal);
    }
    r := Ok(CookieReply(peerSender, nonce, encrypted));
  }

  method Verify(jar: CookieJar<Term>, remote: seq<u8>, beta: Term, mac2: Term) returns (r: bool)
    ensures r == VerifyMac2(jar.Contents(), remote, beta, mac2)
  {
    if !jar.primed {
      return false;
    }
    var okCurrent := mac2 == Mac(CookieFor(jar.secret, remote), beta);
    var okPrevious := mac2 == Mac(CookieFor(jar.previous, remote), beta) && jar.hasPrevious;
    r := okCurrent || okPrevious;
  }
}
