/** `src/crypto/x25519.rs`: the Montgomery ladder over the limb field, against section 5 of
    RFC 7748 on plain integers. */
module X25519 {
  import opened Machine
  import opened Bytes
  import opened Arith
  import opened Field25519

  // ----- The reference: integers modulo P -------------------------------------------------------

  function FAdd(x: int, y: int): (r: int) { (x + y) % P }
  function FSub(x: int, y: int): (r: int) { (x - y) % P }
  function FMul(x: int, y: int): (r: int) { x * y % P }

  function Pow(b: int, n: nat): (r: int) {
    if n == 0 then 1 else b * Pow(b, n - 1)
  }

  /** Fermat's exponent; zero goes to zero. */
  function Inverse(z: int): (r: int) { Pow(z, P - 2) % P }

  /** A point by its projective u-coordinate. */
  datatype Projective = Projective(x: int, z: int)

  function Double(q: Projective): (r: Projective) {
    var a, b := FAdd(q.x, q.z), FSub(q.x, q.z);
    var aa, bb := FMul(a, a), FMul(b, b);
    var e := FSub(aa, bb);
    Projective(FMul(aa, bb), FMul(e, FAdd(aa, FMul(e, 121665))))
  }

  /** The sum of two points whose difference has u-coordinate `x1`. */
  function DiffAdd(x1: int, q: Projective, r: Projective): (s: Projective) {
    var da := FMul(FSub(r.x, r.z), FAdd(q.x, q.z));
    var cb := FMul(FAdd(r.x, r.z), FSub(q.x, q.z));
    var sum, difference := FAdd(da, cb), FSub(da, cb);
    Projective(FMul(sum, sum), FMul(x1, FMul(difference, difference)))
  }

  function Bit(k: nat, t: nat): (b: nat)
    ensures b < 2
  {
    k / TwoTo(t) % 2
  }

  /** The two points after the bits of `k` from 254 down to `n`: multiples m and m + 1. */
  function Ladder(k: nat, x1: int, n: nat): (s: (Projective, Projective))
    requires n <= 255
    decreases 255 - n
  {
    if n == 255 then (Projective(1, 0), Projective(x1, 1))
    else
      var (low, high) := Ladder(k, x1, n + 1);
      if Bit(k, n) == 1 then (DiffAdd(x1, low, high), Double(high)) else (Double(low), DiffAdd(x1, low, high))
  }

  const TWO254: int := 0x4000_0000_0000_0000_0000_0000_0000_0000_0000_0000_0000_0000_0000_0000_0000_0000

  /** Section 5 of RFC 7748: bits 0 to 2 cleared, bit 255 cleared, bit 254 set. */
  function Clamped(k: nat): (r: nat) {
    TWO254 + k % TWO254 - k % 8
  }

  function ScalarMultiple(scalar: seq<u8>, u: seq<u8>): (out: seq<u8>)
    requires |scalar| == 32 && |u| == 32
    ensures |out| == 32
  {
    var x1 := LeValue(u) % TWO255 % P;
    var q := Ladder(Clamped(LeValue(scalar)), x1, 0).0;
    ToLe(FMul(q.x, Inverse(q.z)), 32)
  }

  lemma SquareOfOpposite(x: int, y: int)
    ensures FMul(FSub(x, y), FSub(x, y)) == FMul(FSub(y, x), FSub(y, x))
  {
    ModMod(x - y, P);
    ModMod(y - x, P);
    ModMul(FSub(x, y), FSub(x, y), x - y, x - y, P);
    ModMul(FSub(y, x), FSub(y, x), y - x, y - x, P);
    assert (x - y) * (x - y) == (y - x) * (y - x);
  }

  lemma DiffAddSymmetric(x1: int, q: Projective, r: Projective)
    ensures DiffAdd(x1, q, r) == DiffAdd(x1, r, q)
  {
    var da := FMul(FSub(r.x, r.z), FAdd(q.x, q.z));
    var cb := FMul(FAdd(r.x, r.z), FSub(q.x, q.z));
    hide FAdd, FSub;
    assert FMul(FSub(q.x, q.z), FAdd(r.x, r.z)) == cb;
    assert FMul(FAdd(q.x, q.z), FSub(r.x, r.z)) == da;
    SquareOfOpposite(da, cb);
    assert FAdd(da, cb) == FAdd(cb, da) by { Commutes(da, cb); }
  }

  lemma Commutes(x: int, y: int)
    ensures FAdd(x, y) == FAdd(y, x)
  {}

  // ----- Limbs stand for residues -----------------------------------------------------------------

  function Residue(a: Fe): (r: int) { Value(a) % P }

  lemma AddResidue(a: Fe, b: Fe)
    requires Weak(a) && Weak(b)
    ensures Loose(Add(a, b)) && Residue(Add(a, b)) == FAdd(Residue(a), Residue(b))
  {
    hide Add, Value, Weak, Loose;
    AddExact(a, b);
    ModMod(Value(a), P);
    ModMod(Value(b), P);
    ModAdd(Value(a), Value(b), Residue(a), Residue(b), P);
  }

  lemma SubResidue(a: Fe, b: Fe)
    requires Weak(a) && Weak(b)
    ensures Loose(Sub(a, b)) && Residue(Sub(a, b)) == FSub(Residue(a), Residue(b))
  {
    hide Sub, Value, Weak, Loose;
    SubExact(a, b);
    ModMod(Value(a), P);
    ModMod(Value(b), P);
    ModSub(Value(a), Value(b), Residue(a), Residue(b), P);
  }

  lemma MulResidue(a: Fe, b: Fe)
    requires Loose(a) && Loose(b)
    ensures Weak(Mul(a, b)) && Residue(Mul(a, b)) == FMul(Residue(a), Residue(b))
  {
    hide Mul, Value, Weak, Loose;
    MulExact(a, b);
    ModMod(Value(a), P);
    ModMod(Value(b), P);
    ModMul(Value(a), Value(b), Residue(a), Residue(b), P);
  }

  lemma SquareResidue(a: Fe)
    requires Loose(a)
    ensures Weak(Square(a)) && Residue(Square(a)) == FMul(Residue(a), Residue(a))
  {
    hide Square, Value, Weak, Loose;
    SquareExact(a);
    ModMod(Value(a), P);
    ModMul(Value(a), Value(a), Residue(a), Residue(a), P);
  }

  lemma MulSmallResidue(a: Fe, k: u32)
    requires Loose(a)
    ensures Weak(MulSmall(a, k)) && Residue(MulSmall(a, k)) == FMul(Residue(a), k)
  {
    hide MulSmall, Value, Weak, Loose;
    MulSmallExact(a, k);
    ModMod(Value(a), P);
    ModMul(Value(a), k, Residue(a), k, P);
  }

  lemma WeakIsLoose(a: Fe)
    requires Weak(a)
    ensures Loose(a)
  {}

  // ----- Inversion ------------------------------------------------------------------------------------

  lemma {:induction false} PowAdd(b: int, m: nat, n: nat)
    ensures Pow(b, m + n) == Pow(b, m) * Pow(b, n)
  {
    if m > 0 {
      PowAdd(b, m - 1, n);
      assert b * (Pow(b, m - 1) * Pow(b, n)) == (b * Pow(b, m - 1)) * Pow(b, n);
    }
  }

  lemma Regrouped(k: int, x: int, y: int)
    ensures k * (x * y) == (k * x) * y
  {}

  lemma TwoToNext(n: nat)
    ensures TwoTo(n + 1) == 2 * TwoTo(n)
  {}

  lemma {:induction false} TwoToAdd(m: nat, n: nat)
    ensures TwoTo(m + n) == TwoTo(m) * TwoTo(n)
  {
    if m > 0 {
      TwoToAdd(m - 1, n);
      TwoToNext(m - 1);
      TwoToNext(m - 1 + n);
      hide TwoTo;
      Regrouped(2, TwoTo(m - 1), TwoTo(n));
    }
  }

  /** The weakly reduced `a` stands for the `e`-th power of `z`. */
  ghost predicate IsPower(a: Fe, z: int, e: nat) {
    Weak(a) && Residue(a) == Pow(z, e) % P
  }

  lemma PowerProduct(a: Fe, b: Fe, z: int, e: nat, f: nat)
    requires IsPower(a, z, e) && IsPower(b, z, f)
    ensures IsPower(Mul(a, b), z, e + f)
  {
    hide Mul, Weak, Loose, Residue, Pow;
    WeakIsLoose(a);
    WeakIsLoose(b);
    MulResidue(a, b);
    PowAdd(z, e, f);
    ModMod(Pow(z, e), P);
    ModMod(Pow(z, f), P);
    ModMul(Residue(a), Residue(b), Pow(z, e), Pow(z, f), P);
  }

  lemma PowerSquare(a: Fe, z: int, e: nat)
    requires IsPower(a, z, e)
    ensures IsPower(Square(a), z, 2 * e)
  {
    hide Mul, Square, Loose, IsPower;
    assert Loose(a) by { assert IsPower(a, z, e) ==> Weak(a) by { PowerIsWeak(a, z, e); } WeakIsLoose(a); }
    SquareIsMul(a);
    PowerProduct(a, a, z, e, e);
  }

  lemma PowerIsWeak(a: Fe, z: int, e: nat)
    requires IsPower(a, z, e)
    ensures Weak(a)
  {}

  lemma FirstPower(a: Fe)
    requires Weak(a)
    ensures IsPower(a, Value(a), 1)
  {
    hide Value, Weak;
    assert Pow(Value(a), 1) == Value(a) * Pow(Value(a), 0);
  }

  /** `n` squarings raise to the power 2^n. */
  method NSquare(x: Fe, n: nat, ghost z: int, ghost e: nat) returns (r: Fe)
    requires IsPower(x, z, e)
    ensures IsPower(r, z, e * TwoTo(n))
  {
    hide Square, IsPower;
    r := x;
    for i := 0 to n
      invariant IsPower(r, z, e * TwoTo(i))
    {
      PowerSquare(r, z, e * TwoTo(i));
      assert 2 * (e * TwoTo(i)) == e * TwoTo(i + 1);
      r := Square(r);
    }
  }

  lemma SmallPowers()
    ensures TwoTo(1) == 2 && TwoTo(2) == 4 && TwoTo(3) == 8 && TwoTo(4) == 16 && TwoTo(5) == 32
    ensures TwoTo(6) == 64 && TwoTo(7) == 128 && TwoTo(8) == 256 && TwoTo(10) == 1024
  {
    assert TwoTo(4) == 16 && TwoTo(5) == 32 && TwoTo(8) == 256;
  }

  lemma ChainExponents()
    ensures TwoTo(2) == 4 && TwoTo(5) == 32 && TwoTo(10) == 1024 && TwoTo(20) == 0x10_0000
    ensures TwoTo(50) == 0x4_0000_0000_0000 && TwoTo(100) == 0x10_0000_0000_0000_0000_0000_0000
  {
    hide TwoTo;
    SmallPowers();
    TwoToAdd(10, 10);
    TwoToAdd(20, 20);
    TwoToAdd(40, 10);
    TwoToAdd(50, 50);
  }

  /** The addition chain reaches exactly the exponent P - 2 = 2^255 - 21. */
  method Invert(a: Fe) returns (r: Fe)
    requires Weak(a)
    ensures Weak(r) && Residue(r) == Inverse(Residue(a))
  {
    hide Mul, Square, IsPower, Pow, TwoTo, Value, Weak;
    ghost var z := Value(a);
    FirstPower(a);
    ChainExponents();
    PowerSquare(a, z, 1);
    var z2 := Square(a);
    var t := NSquare(z2, 2, z, 2);
    PowerProduct(t, a, z, 8, 1);
    var z9 := Mul(t, a);
    PowerProduct(z9, z2, z, 9, 2);
    var z11 := Mul(z9, z2);
    PowerSquare(z11, z, 11);
    PowerProduct(Square(z11), z9, z, 22, 9);
    var z_5 := Mul(Square(z11), z9);
    t := NSquare(z_5, 5, z, 31);
    PowerProduct(t, z_5, z, 31 * 32, 31);
    var z_10 := Mul(t, z_5);
    t := NSquare(z_10, 10, z, 1023);
    PowerProduct(t, z_10, z, 1023 * 1024, 1023);
    var z_20 := Mul(t, z_10);
    t := NSquare(z_20, 20, z, 0xf_ffff);
    PowerProduct(t, z_20, z, 0xf_ffff * 0x10_0000, 0xf_ffff);
    var z_40 := Mul(t, z_20);
    t := NSquare(z_40, 10, z, 0xff_ffff_ffff);
    PowerProduct(t, z_10, z, 0xff_ffff_ffff * 1024, 1023);
    var z_50 := Mul(t, z_10);
    r := InvertTail(z_50, z11, z);
    InverseOfResidue(r, z);
  }

  /** The second half of the chain, from 2^50 - 1. */
  method InvertTail(z_50: Fe, z11: Fe, ghost z: int) returns (r: Fe)
    requires IsPower(z_50, z, 0x3_ffff_ffff_ffff) && IsPower(z11, z, 11)
    ensures IsPower(r, z, P - 2)
  {
    hide Mul, Square, IsPower, Pow, TwoTo;
    ChainExponents();
    var t := NSquare(z_50, 50, z, 0x3_ffff_ffff_ffff);
    PowerProduct(t, z_50, z, 0x3_ffff_ffff_ffff * 0x4_0000_0000_0000, 0x3_ffff_ffff_ffff);
    var z_100 := Mul(t, z_50);
    ghost var e100: nat := 0xf_ffff_ffff_ffff_ffff_ffff_ffff;
    t := NSquare(z_100, 100, z, e100);
    PowerProduct(t, z_100, z, e100 * 0x10_0000_0000_0000_0000_0000_0000, e100);
    var z_200 := Mul(t, z_100);
    ghost var e200: nat := e100 * 0x10_0000_0000_0000_0000_0000_0000 + e100;
    t := NSquare(z_200, 50, z, e200);
    PowerProduct(t, z_50, z, e200 * 0x4_0000_0000_0000, 0x3_ffff_ffff_ffff);
    var z_250 := Mul(t, z_50);
    ghost var e250: nat := e200 * 0x4_0000_0000_0000 + 0x3_ffff_ffff_ffff;
    t := NSquare(z_250, 5, z, e250);
    PowerProduct(t, z11, z, e250 * 32, 11);
    r := Mul(t, z11);
  }

  lemma {:induction false} PowCongruent(b: int, c: int, n: nat)
    requires b % P == c % P
    ensures Pow(b, n) % P == Pow(c, n) % P
  {
    if n > 0 {
      PowCongruent(b, c, n - 1);
      ModMul(b, Pow(b, n - 1), c, Pow(c, n - 1), P);
    }
  }

  lemma InverseOfResidue(r: Fe, z: int)
    requires IsPower(r, z, P - 2)
    ensures Weak(r) && Residue(r) == Inverse(z % P)
  {
    hide Pow, Weak, Residue;
    ModMod(z, P);
    PowCongruent(z, z % P, P - 2);
  }

  // ----- Scalars ----------------------------------------------------------------------------------------

  /** `clamp_scalar`: byte 0 `& 248`, byte 31 `& 127 | 64`. */
  function ClampScalar(s: seq<u8>): (k: seq<u8>)
    requires |s| == 32
    ensures |k| == 32
  {
    [s[0] - s[0] % 8] + s[1..31] + [HighByte(s[31])]
  }

  /** `& 127 | 64`. */
  function HighByte(b: u8): (r: u8)
    ensures r == 64 + b % 64
  {
    var masked := b % 128;
    if masked < 64 then masked + 64 else masked
  }

  lemma Split32(s: seq<u8>)
    requires |s| == 32
    ensures LeValue(s) == s[0] + 256 * LeValue(s[1..31]) + TWO248 * s[31]
    ensures LeValue(s[1..31]) < 0x1_0000_0000_0000_0000_0000_0000_0000_0000_0000_0000_0000_0000_0000_0000_0000
  {
    hide LeValue, Power256;
    assert s == [s[0]] + s[1..31] + [s[31]];
    LeConcat([s[0]] + s[1..31], [s[31]]);
    LeConcat([s[0]], s[1..31]);
    LeBound(s[1..31]);
    OneByteValue(s[0]);
    OneByteValue(s[31]);
    Power256Sums();
  }

  const TWO248: int := 0x100_0000_0000_0000_0000_0000_0000_0000_0000_0000_0000_0000_0000_0000_0000_0000

  lemma OneByteValue(b: u8)
    ensures LeValue([b]) == b
  {
    assert LeValue([b]) == b + 256 * LeValue([b][1..]);
    assert [b][1..] == [];
  }

  lemma {:induction false} Power256Add(m: nat, n: nat)
    ensures Power256(m + n) == Power256(m) * Power256(n)
  {
    if m > 0 {
      Power256Add(m - 1, n);
      Regrouped(256, Power256(m - 1), Power256(n));
    }
  }

  lemma Power256Sums()
    ensures Power256(1) == 256 && Power256(31) == TWO248
    ensures Power256(30) == 0x1_0000_0000_0000_0000_0000_0000_0000_0000_0000_0000_0000_0000_0000_0000_0000
  {
    hide Power256;
    PowersOf256();
    Power256Add(16, 8);
    Power256Add(24, 4);
    Power256Add(28, 2);
    Power256Add(30, 1);
  }

  /** Clamping the bytes is clamping the integer. */
  lemma ClampScalarValue(s: seq<u8>)
    requires |s| == 32
    ensures LeValue(ClampScalar(s)) == Clamped(LeValue(s))
  {
    hide LeValue, Clamped, HighByte;
    var k := ClampScalar(s);
    Split32(s);
    Split32(k);
    assert k[1..31] == s[1..31];
    ClampBytes(s[0], LeValue(s[1..31]), s[31]);
  }

  /** A clamped scalar multiplies like the scalar it came from. */
  lemma ClampedTwice(s: Bytes32, u: Bytes32)
    ensures ScalarMultiple(ClampScalar(s), u) == ScalarMultiple(s, u)
  {
    hide LeValue, Clamped, Ladder, Inverse, ToLe;
    ClampScalarValue(s);
    ClampScalarValue(ClampScalar(s));
    assert ClampScalar(ClampScalar(s)) == ClampScalar(s);
  }

  lemma ClampBytes(low: int, m: int, high: int)
    requires 0 <= low < 256 && 0 <= high < 256
    requires 0 <= m < 0x1_0000_0000_0000_0000_0000_0000_0000_0000_0000_0000_0000_0000_0000_0000_0000
    ensures Clamped(low + 256 * m + TWO248 * high) == low - low % 8 + 256 * m + TWO248 * (64 + high % 64)
  {
    hide Clamped;
    ClampIdentity(low / 8, low % 8, m, high / 64, high % 64);
  }

  lemma ClampIdentity(c: int, d: int, m: int, a: int, b: int)
    requires 0 <= c < 32 && 0 <= d < 8 && 0 <= a < 4 && 0 <= b < 64
    requires 0 <= m < 0x1_0000_0000_0000_0000_0000_0000_0000_0000_0000_0000_0000_0000_0000_0000_0000
    ensures Clamped(8 * c + d + 256 * m + TWO248 * (64 * a + b)) == 8 * c + 256 * m + TWO248 * (64 + b)
  {
    var v := 8 * c + d + 256 * m + TWO248 * (64 * a + b);
    DivModUnique(v, a, 8 * c + d + 256 * m + TWO248 * b, TWO254);
    DivModUnique(v, c + 32 * m + TWO245 * (64 * a + b), d, 8);
  }

  const TWO245: int := 0x20_0000_0000_0000_0000_0000_0000_0000_0000_0000_0000_0000_0000_0000_0000_0000

  /** `(byte >> (t & 7)) & 1` of byte `t >> 3` is bit `t` of the integer. */
  lemma {:induction false} BitOfBytes(k: seq<u8>, t: nat)
    requires t < 8 * |k|
    ensures Bit(k[t / 8], t % 8) == Bit(LeValue(k), t)
  {
    hide Bit;
    if t < 8 {
      LowBit(k[0], LeValue(k[1..]), t);
    } else {
      BitOfBytes(k[1..], t - 8);
      HighBit(k[0], LeValue(k[1..]), t);
    }
  }

  lemma LowBit(first: u8, rest: nat, t: nat)
    requires t < 8
    ensures Bit(first, t) == Bit(first + 256 * rest, t)
  {
    hide TwoTo;
    SmallPowers();
    assert TwoTo(0) == 1 by { ZeroPower(); }
    LowBitOf(first, rest, TwoTo(t), TwoTo(7 - t));
  }

  lemma HighBit(first: u8, rest: nat, t: nat)
    requires t >= 8
    ensures Bit(first + 256 * rest, t) == Bit(rest, t - 8)
  {
    hide TwoTo;
    TwoToAdd(8, t - 8);
    SmallPowers();
    HighPart(first, rest, TwoTo(t - 8));
  }

  lemma ZeroPower()
    ensures TwoTo(0) == 1
  {}

  lemma LowBitOf(first: int, rest: nat, p: int, q: int)
    requires 0 <= first < 256 && p > 0 && p * q == 128
    ensures first / p % 2 == (first + 256 * rest) / p % 2
  {
    var d, r := first / p, first % p;
    assert first == p * d + r;
    assert 256 * rest == (2 * (q * rest)) * p by { LowBitIdentity(rest, p, q); }
    assert first + 256 * rest == (d + 2 * (q * rest)) * p + r;
    DivModUnique(first + 256 * rest, d + 2 * (q * rest), r, p);
    ModMultiple(d + 2 * (q * rest), d, q * rest, 2);
  }

  lemma LowBitIdentity(rest: nat, p: int, q: int)
    requires p * q == 128
    ensures 256 * rest == (2 * (q * rest)) * p
  {
    assert (2 * (q * rest)) * p == 2 * (p * q) * rest;
  }

  lemma HighPart(first: int, rest: nat, p: nat)
    requires 0 <= first < 256 && p > 0
    ensures (first + 256 * rest) / (256 * p) == rest / p
  {
    var q, r := rest / p, rest % p;
    assert rest == p * q + r;
    assert first + 256 * rest == q * (256 * p) + (first + 256 * r);
    DivModUnique(first + 256 * rest, q, first + 256 * r, 256 * p);
  }

  // ----- The ladder -------------------------------------------------------------------------------------

  lemma WordBits()
    ensures TwoTo(64) == U64_LIMIT
  {
    hide TwoTo;
    EightBits();
    TwoToAdd(8, 8);
    TwoToAdd(16, 16);
    TwoToAdd(32, 32);
  }

  /** One limb of `cswap`: with `mask` all ones or zero according to `swap`, both limbs take
      the masked difference, which exchanges them exactly when the bit is one. */
  function MaskedExchange(swap: nat, x: u64, y: u64): (r: (u64, u64))
    requires swap < 2
    ensures r == if swap == 1 then (y, x) else (x, y)
  {
    hide XorBits, AndBits, TwoTo;
    WordBits();
    MaskBits(XorBits(x, y, 64), 64);
    XorDifference(x, y, 64);
    XorDifference(y, x, 64);
    var mask := WrapSub(0, swap);
    var t := AndBits(mask, XorBits(x, y, 64), 64);
    (XorBits(x, t, 64), XorBits(y, t, 64))
  }

  predicate Words(a: Fe) {
    0 <= a.l0 < U64_LIMIT && 0 <= a.l1 < U64_LIMIT && 0 <= a.l2 < U64_LIMIT && 0 <= a.l3 < U64_LIMIT
    && 0 <= a.l4 < U64_LIMIT
  }

  /** `cswap` exchanges exactly when the bit is one. */
  function CSwap(swap: nat, a: Fe, b: Fe): (r: (Fe, Fe))
    requires swap < 2 && Words(a) && Words(b)
    ensures r == if swap == 1 then (b, a) else (a, b)
  {
    hide MaskedExchange;
    var m0, m1 := MaskedExchange(swap, a.l0, b.l0), MaskedExchange(swap, a.l1, b.l1);
    var m2, m3 := MaskedExchange(swap, a.l2, b.l2), MaskedExchange(swap, a.l3, b.l3);
    var m4 := MaskedExchange(swap, a.l4, b.l4);
    (Fe(m0.0, m1.0, m2.0, m3.0, m4.0), Fe(m0.1, m1.1, m2.1, m3.1, m4.1))
  }

  /** The ladder step as the code computes it: new x2, z2, x3, z3. */
  function StepLimbs(x1: Fe, x2: Fe, z2: Fe, x3: Fe, z3: Fe): (r: (Fe, Fe, Fe, Fe)) {
    var a, b := Add(x2, z2), Sub(x2, z2);
    var aa, bb := Square(a), Square(b);
    var e := Sub(aa, bb);
    var c, d := Add(x3, z3), Sub(x3, z3);
    var da, cb := Mul(d, a), Mul(c, b);
    (Mul(aa, bb), Mul(e, Add(aa, MulSmall(e, 121665))), Square(Add(da, cb)), Mul(x1, Square(Sub(da, cb))))
  }

  lemma DoubleLimbs(x2: Fe, z2: Fe)
    requires Weak(x2) && Weak(z2)
    ensures var aa, bb := Square(Add(x2, z2)), Square(Sub(x2, z2));
            var e := Sub(aa, bb);
            var x, z := Mul(aa, bb), Mul(e, Add(aa, MulSmall(e, 121665)));
            Weak(x) && Weak(z) && Projective(Residue(x), Residue(z)) == Double(Projective(Residue(x2), Residue(z2)))
  {
    hide Add, Sub, Mul, Square, MulSmall, Weak, Loose, Residue, FAdd, FSub, FMul;
    AddResidue(x2, z2);
    SubResidue(x2, z2);
    var aa, bb := Square(Add(x2, z2)), Square(Sub(x2, z2));
    SquareResidue(Add(x2, z2));
    SquareResidue(Sub(x2, z2));
    var e := Sub(aa, bb);
    SubResidue(aa, bb);
    WeakIsLoose(aa);
    WeakIsLoose(bb);
    MulResidue(aa, bb);
    MulSmallResidue(e, 121665);
    AddResidue(aa, MulSmall(e, 121665));
    MulResidue(e, Add(aa, MulSmall(e, 121665)));
  }

  lemma DiffAddLimbs(x1: Fe, x2: Fe, z2: Fe, x3: Fe, z3: Fe)
    requires Weak(x1) && Weak(x2) && Weak(z2) && Weak(x3) && Weak(z3)
    ensures var da, cb := Mul(Sub(x3, z3), Add(x2, z2)), Mul(Add(x3, z3), Sub(x2, z2));
            var x, z := Square(Add(da, cb)), Mul(x1, Square(Sub(da, cb)));
            && Weak(x) && Weak(z)
            && Projective(Residue(x), Residue(z))
               == DiffAdd(Residue(x1), Projective(Residue(x2), Residue(z2)), Projective(Residue(x3), Residue(z3)))
  {
    hide Add, Sub, Mul, Square, Weak, Loose, Residue, FAdd, FSub, FMul;
    AddResidue(x2, z2);
    SubResidue(x2, z2);
    AddResidue(x3, z3);
    SubResidue(x3, z3);
    var da, cb := Mul(Sub(x3, z3), Add(x2, z2)), Mul(Add(x3, z3), Sub(x2, z2));
    MulResidue(Sub(x3, z3), Add(x2, z2));
    MulResidue(Add(x3, z3), Sub(x2, z2));
    AddResidue(da, cb);
    SubResidue(da, cb);
    SquareResidue(Add(da, cb));
    SquareResidue(Sub(da, cb));
    WeakIsLoose(x1);
    WeakIsLoose(Square(Sub(da, cb)));
    MulResidue(x1, Square(Sub(da, cb)));
  }

  /** The working limbs stand for the ladder's two points, exchanged while a swap is pending. */
  ghost predicate Tracks(x2: Fe, z2: Fe, x3: Fe, z3: Fe, swap: nat, s: (Projective, Projective)) {
    && Weak(x2) && Weak(z2) && Weak(x3) && Weak(z3)
    && var (left, right) := (Projective(Residue(x2), Residue(z2)), Projective(Residue(x3), Residue(z3)));
       s == if swap == 1 then (right, left) else (left, right)
  }

  lemma TrackedWords(x2: Fe, z2: Fe, x3: Fe, z3: Fe, swap: nat, s: (Projective, Projective))
    requires Tracks(x2, z2, x3, z3, swap, s)
    ensures Words(x2) && Words(z2) && Words(x3) && Words(z3)
  {
    hide Residue;
  }

  /** Settling the pending swap against the next bit leaves the next bit pending. */
  lemma SwapTracks(x2: Fe, z2: Fe, x3: Fe, z3: Fe, swap: nat, bit: nat, s: (Projective, Projective))
    requires swap < 2 && bit < 2 && Tracks(x2, z2, x3, z3, swap, s)
    ensures Words(x2) && Words(z2) && Words(x3) && Words(z3)
    ensures var exchange := if swap == bit then 0 else 1;
            var (xs, zs) := (CSwap(exchange, x2, x3), CSwap(exchange, z2, z3));
            Tracks(xs.0, zs.0, xs.1, zs.1, bit, s)
  {
    hide Weak, Residue, CSwap, Words;
    TrackedWords(x2, z2, x3, z3, swap, s);
  }

  /** One iteration after the swap performs the reference step for the same bit. */
  lemma StepTracks(k: nat, x1: Fe, x2: Fe, z2: Fe, x3: Fe, z3: Fe, n: nat)
    requires n < 255 && Weak(x1)
    requires Tracks(x2, z2, x3, z3, Bit(k, n), Ladder(k, Residue(x1), n + 1))
    ensures var (a, b, c, d) := StepLimbs(x1, x2, z2, x3, z3);
            Tracks(a, b, c, d, Bit(k, n), Ladder(k, Residue(x1), n))
  {
    hide Weak, Residue, Double, DiffAdd, Add, Sub, Mul, Square, MulSmall;
    DoubleLimbs(x2, z2);
    DiffAddLimbs(x1, x2, z2, x3, z3);
    DiffAddSymmetric(Residue(x1), Projective(Residue(x2), Residue(z2)), Projective(Residue(x3), Residue(z3)));
  }

  lemma StartTracks(x1: Fe)
    requires Tight(x1)
    ensures Weak(x1)
    ensures Tracks(ONE, ZERO, x1, ONE, 0, (Projective(1, 0), Projective(Residue(x1), 1)))
  {
    assert Value(ONE) == 1 && Value(ZERO) == 0;
  }

  /** `x25519`: 255 iterations with delayed swaps compute the scalar multiple of RFC 7748, for
      every scalar and every u-coordinate. */
  method ScalarMult(scalar: seq<u8>, u: seq<u8>) returns (out: seq<u8>)
    requires |scalar| == 32 && |u| == 32
    ensures out == ScalarMultiple(scalar, u)
  {
    hide LeValue, Weak, Tight, Tracks, StepLimbs, Value, Mul, Bit, Inverse, CSwap, Words;
    var bytes := ClampScalar(scalar);
    ghost var k := LeValue(bytes);
    var x1 := FromBytes(u);
    var x2, z2, x3, z3 := ONE, ZERO, x1, ONE;
    StartTracks(x1);
    var swap, t := 0, 255;
    while t > 0
      invariant 0 <= t <= 255 && 0 <= swap < 2
      invariant Tracks(x2, z2, x3, z3, swap, Ladder(k, Residue(x1), t))
    {
      t := t - 1;
      var bit := Bit(bytes[t / 8], t % 8);
      BitOfBytes(bytes, t);
      SwapTracks(x2, z2, x3, z3, swap, bit, Ladder(k, Residue(x1), t + 1));
      swap := if swap == bit then 0 else 1;
      var xs, zs := CSwap(swap, x2, x3), CSwap(swap, z2, z3);
      x2, z2, x3, z3 := xs.0, zs.0, xs.1, zs.1;
      swap := bit;
      StepTracks(k, x1, x2, z2, x3, z3, t);
      var step := StepLimbs(x1, x2, z2, x3, z3);
      x2, z2, x3, z3 := step.0, step.1, step.2, step.3;
    }
    SwapTracks(x2, z2, x3, z3, swap, 0, Ladder(k, Residue(x1), 0));
    var xs, zs := CSwap(swap, x2, x3), CSwap(swap, z2, z3);
    x2, z2 := xs.0, zs.0;
    out := Affine(x2, z2, xs.1, zs.1, Ladder(k, Residue(x1), 0));
    ClampScalarValue(scalar);
  }

  /** The final `x2 * z2^-1`. */
  method Affine(x2: Fe, z2: Fe, x3: Fe, z3: Fe, ghost s: (Projective, Projective)) returns (out: seq<u8>)
    requires Tracks(x2, z2, x3, z3, 0, s)
    ensures out == ToLe(FMul(s.0.x, Inverse(s.0.z)), 32)
  {
    hide Weak, Value, Mul, Inverse, ToLe, Loose;
    var inverse := Invert(z2);
    WeakIsLoose(x2);
    WeakIsLoose(inverse);
    MulResidue(x2, inverse);
    out := ToBytes(Mul(x2, inverse));
  }

  // ----- Rejecting low-order points -----------------------------------------------------------------------

  lemma InverseOfZero()
    ensures Inverse(0) == 0
  {
    assert Pow(0, P - 2) == 0 * Pow(0, P - 3);
  }

  lemma {:induction false} ZeroValue(n: nat)
    ensures ToLe(0, n) == seq(n, _ => 0)
  {
    if n > 0 { ZeroValue(n - 1); }
  }

  const BASEPOINT: Bytes32 := [9] + Zeros(31)

  /** `x25519_base`. */
  function PublicKey(secret: Bytes32): (k: Bytes32) {
    ScalarMultiple(secret, BASEPOINT)
  }

  method Base(secret: Bytes32) returns (k: Bytes32)
    ensures k == PublicKey(secret)
  {
    hide ScalarMultiple;
    k := ScalarMult(secret, BASEPOINT);
  }

  /** What two keys share: nothing if the multiple is zero. */
  function Shared(private: Bytes32, peer: Bytes32): (r: Result<Bytes32>)
    ensures r.Err? ==> r.error == InvalidPublicKey
  {
    var out := ScalarMultiple(private, peer);
    if out == Zeros(32) then Err(InvalidPublicKey) else Ok(out)
  }

  /** `shared_secret`: the all-zero result is an error, every other result is returned. */
  method SharedSecret(private: Bytes32, peer: Bytes32) returns (r: Result<Bytes32>)
    ensures r == Shared(private, peer)
  {
    var out := ScalarMult(private, peer);
    var zero := true;
    for i := 0 to 32
      invariant zero <==> forall j :: 0 <= j < i ==> out[j] == 0
    {
      zero := zero && out[i] == 0;
    }
    if zero {
      assert out == Zeros(32);
      return Err(InvalidPublicKey);
    }
    r := Ok(out);
  }

  /** Starting from u = 0 the first point never leaves the line z = 0. */
  lemma {:induction false} ZeroLadder(k: nat, n: nat)
    requires n <= 255
    ensures Ladder(k, 0, n).0.z == 0
    decreases 255 - n
  {
    if n < 255 {
      ZeroLadder(k, n + 1);
      var (low, high) := Ladder(k, 0, n + 1);
      assert FAdd(low.x, low.z) == FSub(low.x, low.z);
      assert Double(low).z == 0 && DiffAdd(0, low, high).z == 0;
    }
  }

  /** Every encoding of u = 0, canonical or not, with bit 255 set or clear, gives zero for
      every scalar. */
  lemma ZeroPointRejected(scalar: seq<u8>, u: seq<u8>)
    requires |scalar| == 32 && |u| == 32 && LeValue(u) % TWO255 % P == 0
    ensures ScalarMultiple(scalar, u) == seq(32, _ => 0)
  {
    hide LeValue, Ladder, ToLe, Inverse, Clamped, Pow;
    ZeroLadder(Clamped(LeValue(scalar)), 0);
    InverseOfZero();
    ZeroValue(32);
  }
}
