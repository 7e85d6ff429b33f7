/** Little-endian byte strings. */
module Bytes {
  import opened Machine

  function Power256(n: nat): (p: nat)
    ensures p > 0
  {
    if n == 0 then 1 else 256 * Power256(n - 1)
  }

  function LeValue(b: seq<u8>): (v: nat) {
    if b == [] then 0 else b[0] + 256 * LeValue(b[1..])
  }

  /** The low `len` bytes of `v`. */
  function ToLe(v: nat, len: nat): (b: seq<u8>)
    ensures |b| == len
  {
    if len == 0 then [] else [v % 256] + ToLe(v / 256, len - 1)
  }

  lemma {:induction false} LeBound(b: seq<u8>)
    ensures LeValue(b) < Power256(|b|)
  {
    if b != [] { LeBound(b[1..]); }
  }

  lemma {:induction false} LeRoundTrip(v: nat, len: nat)
    requires v < Power256(len)
    ensures LeValue(ToLe(v, len)) == v
  {
    if len > 0 {
      LeRoundTrip(v / 256, len - 1);
      assert ToLe(v, len)[1..] == ToLe(v / 256, len - 1);
    }
  }

  lemma {:induction false} LeInverse(b: seq<u8>)
    ensures ToLe(LeValue(b), |b|) == b
  {
    if b != [] {
      LeInverse(b[1..]);
      assert LeValue(b) / 256 == LeValue(b[1..]) && LeValue(b) % 256 == b[0];
      assert b == [b[0]] + b[1..];
    }
  }

  lemma {:induction false} LeConcat(a: seq<u8>, b: seq<u8>)
    ensures LeValue(a + b) == LeValue(a) + Power256(|a|) * LeValue(b)
  {
    if a == [] {
      assert a + b == b;
    } else {
      LeConcat(a[1..], b);
      assert (a + b)[1..] == a[1..] + b;
      assert 256 * (Power256(|a| - 1) * LeValue(b)) == Power256(|a|) * LeValue(b);
    }
  }

  lemma PowersOf256()
    ensures Power256(1) == 0x100 && Power256(2) == 0x1_0000 && Power256(4) == 0x1_0000_0000
    ensures Power256(8) == 0x1_0000_0000_0000_0000
    ensures Power256(16) == 0x1_0000_0000_0000_0000_0000_0000_0000_0000
  {
    assert Power256(4) == 0x1_0000_0000;
    assert Power256(8) == 0x1_0000_0000_0000_0000;
    assert Power256(12) == 0x1_0000_0000_0000_0000_0000_0000;
  }

  function Concat(parts: seq<seq<u8>>): (r: seq<u8>) {
    if parts == [] then [] else Concat(parts[..|parts| - 1]) + parts[|parts| - 1]
  }

  lemma ConcatNext(parts: seq<seq<u8>>, i: nat)
    requires i < |parts|
    ensures Concat(parts[..i + 1]) == Concat(parts[..i]) + parts[i]
  {
    assert parts[..i + 1][..i] == parts[..i];
  }

  lemma ConcatOne(a: seq<u8>)
    ensures Concat([a]) == a
  {
    assert [a][..0] == [];
  }

  lemma ConcatTwo(a: seq<u8>, b: seq<u8>)
    ensures Concat([a, b]) == a + b
  {
    assert [a, b][..1] == [a];
    ConcatOne(a);
  }

  lemma {:induction false} ConcatFront(a: seq<u8>, parts: seq<seq<u8>>)
    ensures Concat([a] + parts) == a + Concat(parts)
  {
    if parts == [] {
      assert [a] + parts == [a];
      ConcatOne(a);
    } else {
      var n := |parts| - 1;
      ConcatFront(a, parts[..n]);
      assert ([a] + parts)[..n + 1] == [a] + parts[..n];
    }
  }

  function TwoTo(n: nat): (p: nat)
    ensures p > 0
  {
    if n == 0 then 1 else 2 * TwoTo(n - 1)
  }

  /** Exclusive or of the low `n` bits. */
  function XorBits(a: nat, b: nat, n: nat): (r: nat)
    ensures r < TwoTo(n)
  {
    if n == 0 then 0 else (if a % 2 == b % 2 then 0 else 1) + 2 * XorBits(a / 2, b / 2, n - 1)
  }

  /** Inclusive or of the low `n` bits. */
  function OrBits(a: nat, b: nat, n: nat): (r: nat)
    ensures r < TwoTo(n)
  {
    if n == 0 then 0 else (if a % 2 == 1 || b % 2 == 1 then 1 else 0) + 2 * OrBits(a / 2, b / 2, n - 1)
  }

  /** Conjunction of the low `n` bits. */
  function AndBits(a: nat, b: nat, n: nat): (r: nat)
    ensures r < TwoTo(n)
  {
    if n == 0 then 0 else (if a % 2 == 1 && b % 2 == 1 then 1 else 0) + 2 * AndBits(a / 2, b / 2, n - 1)
  }

  /** A mask of zeros keeps nothing, a mask of ones everything. */
  lemma {:induction false} MaskBits(b: nat, n: nat)
    requires b < TwoTo(n)
    ensures AndBits(0, b, n) == 0 && AndBits(TwoTo(n) - 1, b, n) == b
  {
    if n > 0 {
      MaskBits(b / 2, n - 1);
      assert (TwoTo(n) - 1) / 2 == TwoTo(n - 1) - 1;
    }
  }

  /** Adding the difference of two words to either gives the other; adding zero changes nothing. */
  lemma {:induction false} XorDifference(a: nat, b: nat, n: nat)
    requires a < TwoTo(n) && b < TwoTo(n)
    ensures XorBits(a, 0, n) == a
    ensures XorBits(a, XorBits(a, b, n), n) == b && XorBits(b, XorBits(a, b, n), n) == a
  {
    if n > 0 {
      var x := XorBits(a, b, n);
      assert x / 2 == XorBits(a / 2, b / 2, n - 1) && x % 2 == (if a % 2 == b % 2 then 0 else 1);
      XorDifference(a / 2, b / 2, n - 1);
    }
  }

  lemma {:induction false} XorTwice(a: nat, b: nat, n: nat)
    requires a < TwoTo(n)
    ensures XorBits(XorBits(a, b, n), b, n) == a
  {
    if n > 0 {
      var x := XorBits(a, b, n);
      assert x / 2 == XorBits(a / 2, b / 2, n - 1) && x % 2 == (if a % 2 == b % 2 then 0 else 1);
      XorTwice(a / 2, b / 2, n - 1);
    }
  }

  lemma {:induction false} XorZero(a: nat, b: nat, n: nat)
    requires a < TwoTo(n) && b < TwoTo(n)
    ensures XorBits(a, b, n) == 0 <==> a == b
  {
    if n > 0 { XorZero(a / 2, b / 2, n - 1); }
  }

  lemma {:induction false} OrZero(a: nat, b: nat, n: nat)
    requires a < TwoTo(n) && b < TwoTo(n)
    ensures OrBits(a, b, n) == 0 <==> a == 0 && b == 0
  {
    if n > 0 { OrZero(a / 2, b / 2, n - 1); }
  }

  lemma EightBits()
    ensures TwoTo(8) == 256
  {
    assert TwoTo(4) == 16;
  }

  function XorByte(a: u8, b: u8): (r: u8) {
    EightBits();
    XorBits(a, b, 8)
  }

  lemma XorByteTwice(a: u8, b: u8)
    ensures XorByte(XorByte(a, b), b) == a
  {
    hide XorBits;
    EightBits();
    XorTwice(a, b, 8);
  }

  /** `diff |= x ^ y`. */
  function OrDifference(diff: u8, x: u8, y: u8): (r: u8) {
    EightBits();
    OrBits(diff, XorByte(x, y), 8)
  }

  lemma OrDifferenceZero(diff: u8, x: u8, y: u8)
    ensures OrDifference(diff, x, y) == 0 <==> diff == 0 && x == y
  {
    hide XorBits, OrBits;
    EightBits();
    OrZero(diff, XorByte(x, y), 8);
    XorZero(x, y, 8);
  }

  /** Copy `src` into a stretch of a buffer. */
  method Copy(data: array<u8>, at: nat, src: seq<u8>)
    requires at + |src| <= data.Length
    modifies data
    ensures data[..at] == old(data[..at]) && data[at..at + |src|] == src
    ensures data[at + |src|..] == old(data[at + |src|..])
  {
    for i := 0 to |src|
      invariant forall k :: 0 <= k < data.Length ==> data[k] == if at <= k < at + i then src[k - at] else old(data[k])
    {
      data[at + i] := src[i];
    }
  }

  type Bytes32 = b: seq<u8> | |b| == 32 witness seq(32, _ => 0)

  function Zeros(n: nat): (z: seq<u8>)
    ensures |z| == n
  {
    seq(n, _ => 0)
  }

  /** `u32::from_le_bytes`. */
  function Word32(b: seq<u8>): (w: bv32)
    requires |b| == 4
  {
    assert LeValue(b) < U32_LIMIT by { LeBound(b); PowersOf256(); }
    LeValue(b) as bv32
  }
}
