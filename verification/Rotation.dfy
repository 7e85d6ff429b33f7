/** The rotating secret and the nonce counter of `src/cookie.rs`, for any kind of secret. */
module Rotation {
  import opened Machine
  import opened Time
  import opened Arith

  const COOKIE_LIFETIME: u64 := 120_000_000_000

  type NonceWords = w: seq<u64> | |w| == 3 witness [0, 0, 0]

  datatype Jar<S> = Jar(secret: S, previous: S, hasPrevious: bool, rotatedAt: Ticks, primed: bool, nonce: NonceWords)

  /** A jar that entropy has not primed yet. */
  function Unprimed<S>(zero: S): (j: Jar<S>) {
    Jar(zero, zero, false, 0, false, [0, 0, 0])
  }

  /** A rotation if one is due; `None` is a failed draw, and a failed draw rotates nothing. */
  function Rotated<S>(j: Jar<S>, now: Ticks, drawn: Option<S>, seed: Option<NonceWords>): (r: Result<Jar<S>>)
    ensures r.Err? ==> r.error == EntropyFailure
  {
    if j.primed && Since(now, j.rotatedAt) < COOKIE_LIFETIME then Ok(j)
    else if drawn.None? then Err(EntropyFailure)
    else if !j.primed && seed.None? then Err(EntropyFailure)
    else Ok(Jar(drawn.value, j.secret, j.primed, now, true, if j.primed then j.nonce else seed.value))
  }

  /** The 192-bit little-endian increment with its two carries. */
  function NextNonce(w: NonceWords): (r: NonceWords) {
    var a := (w[0] + 1) % U64_LIMIT;
    var carryA := if w[0] == U64_MAX then 1 else 0;
    var b := (w[1] + carryA) % U64_LIMIT;
    var carryB := if w[1] == U64_MAX && carryA == 1 then 1 else 0;
    var c := (w[2] + carryB) % U64_LIMIT;
    [a, b, c]
  }

  const NONCE_LIMIT: int := U64_LIMIT * U64_LIMIT * U64_LIMIT

  function NonceValue(w: NonceWords): (v: nat)
    ensures v < NONCE_LIMIT
  {
    w[0] + U64_LIMIT * w[1] + U64_LIMIT * U64_LIMIT * w[2]
  }

  lemma NonceAdvances(w: NonceWords)
    ensures NonceValue(NextNonce(w)) == if NonceValue(w) == NONCE_LIMIT - 1 then 0 else NonceValue(w) + 1
  {}

  // ----- The jar as the source mutates it --------------------------------------

  class CookieJar<S> {
    var secret: S
    var previous: S
    var hasPrevious: bool
    var rotatedAt: Ticks
    var primed: bool
    var nonceCounter: NonceWords

    function Contents(): (j: Jar<S>)
      reads this
    {
      Jar(secret, previous, hasPrevious, rotatedAt, primed, nonceCounter)
    }

    constructor (zero: S)
      ensures Contents() == Unprimed(zero)
    {
      secret, previous, hasPrevious := zero, zero, false;
      rotatedAt, primed, nonceCounter := 0, false, [0, 0, 0];
    }

    /** All entropy is drawn before anything is committed. */
    method RotateIfNeeded(now: Ticks, drawn: Option<S>, seed: Option<NonceWords>) returns (r: Result<()>)
      modifies this
      ensures r == if Rotated(old(Contents()), now, drawn, seed).Ok? then Ok(()) else Err(EntropyFailure)
      ensures r.Ok? ==> Contents() == Rotated(old(Contents()), now, drawn, seed).value
      ensures r.Err? ==> Contents() == old(Contents())
    {
      if !primed || Since(now, rotatedAt) >= COOKIE_LIFETIME {
        if drawn.None? {
          return Err(EntropyFailure);
        }
        var nonceSeed := None;
        if !primed {
          if seed.None? {
            return Err(EntropyFailure);
          }
          nonceSeed := seed;
        }
        previous := secret;
        hasPrevious := primed;
        secret := drawn.value;
        rotatedAt := now;
        if nonceSeed.Some? {
          nonceCounter := nonceSeed.value;
        }
        primed := true;
      }
      r := Ok(());
    }

    method TakeNonce() returns (nonce: NonceWords)
      modifies this`nonceCounter
      ensures nonce == NextNonce(old(nonceCounter)) && nonceCounter == nonce
    {
      var a, b, c := nonceCounter[0], nonceCounter[1], nonceCounter[2];
      var carry := a == U64_MAX;
      a := if carry then 0 else a + 1;
      if carry {
        carry := b == U64_MAX;
        b := if carry then 0 else b + 1;
      }
      if carry {
        c := if c == U64_MAX then 0 else c + 1;
      }
      nonceCounter := [a, b, c];
      nonce := nonceCounter;
    }
  }
}
