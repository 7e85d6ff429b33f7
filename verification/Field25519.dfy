/** `src/crypto/x25519.rs`, the field: GF(2^255 - 19) in five 51-bit limbs. */
module Field25519 {
  import opened Machine
  import opened Bytes
  import opened Arith

  const P: int := 0x7fff_ffff_ffff_ffff_ffff_ffff_ffff_ffff_ffff_ffff_ffff_ffff_ffff_ffff_ffff_ffed
  const R51: int := 0x8_0000_0000_0000
  const R102: int := R51 * R51
  const R153: int := R51 * R51 * R51
  const R204: int := R51 * R51 * R51 * R51
  const TWO255: int := R51 * R51 * R51 * R51 * R51
  const U128_LIMIT: int := U64_LIMIT * U64_LIMIT
  const TWO_P0: int := 0xf_ffff_ffff_ffda
  const TWO_P1234: int := 0xf_ffff_ffff_fffe

  datatype Fe = Fe(l0: int, l1: int, l2: int, l3: int, l4: int)

  function Value(a: Fe): (v: int) {
    a.l0 + R51 * a.l1 + R102 * a.l2 + R153 * a.l3 + R204 * a.l4
  }

  predicate Bounded(a: Fe, bound: int) {
    0 <= a.l0 <= bound && 0 <= a.l1 <= bound && 0 <= a.l2 <= bound && 0 <= a.l3 <= bound && 0 <= a.l4 <= bound
  }

  /** Limbs below 2^51 + 2^13: what multiplication leaves. */
  const WEAK: int := R51 + 0x1fff
  /** Limbs of one `add` or `sub` of weak operands: what multiplication accepts. */
  const LOOSE: int := 3 * R51 + 0x1fff

  predicate Weak(a: Fe) { Bounded(a, WEAK) }

  predicate Loose(a: Fe) { Bounded(a, LOOSE) }

  function Add128(x: int, y: int): (r: int) { (x + y) % U128_LIMIT }

  /** The widening product. */
  function Wide(x: int, y: int): (r: int) { x * y % U128_LIMIT }

  const ZERO: Fe := Fe(0, 0, 0, 0, 0)
  const ONE: Fe := Fe(1, 0, 0, 0, 0)

  // ----- Addition and subtraction --------------------------------------------------------------

  function Add(a: Fe, b: Fe): (r: Fe) {
    Fe(WrapAdd(a.l0, b.l0), WrapAdd(a.l1, b.l1), WrapAdd(a.l2, b.l2), WrapAdd(a.l3, b.l3), WrapAdd(a.l4, b.l4))
  }

  lemma AddExact(a: Fe, b: Fe)
    requires Weak(a) && Weak(b)
    ensures Loose(Add(a, b)) && Value(Add(a, b)) == Value(a) + Value(b)
  {
    assert Add(a, b) == Fe(a.l0 + b.l0, a.l1 + b.l1, a.l2 + b.l2, a.l3 + b.l3, a.l4 + b.l4);
  }

  /** `self + 2p - rhs`, limb by limb. */
  function Sub(a: Fe, b: Fe): (r: Fe) {
    Fe(WrapSub(WrapAdd(a.l0, TWO_P0), b.l0), WrapSub(WrapAdd(a.l1, TWO_P1234), b.l1), WrapSub(WrapAdd(a.l2,
        TWO_P1234), b.l2),
       WrapSub(WrapAdd(a.l3, TWO_P1234), b.l3), WrapSub(WrapAdd(a.l4, TWO_P1234), b.l4))
  }

  lemma SubLimb(a: int, b: int, offset: int)
    requires 0 <= a <= WEAK && 0 <= b <= WEAK && (offset == TWO_P0 || offset == TWO_P1234)
    ensures WrapSub(WrapAdd(a, offset), b) == a + offset - b && 0 <= a + offset - b <= LOOSE
  {
    SmallMod(a + offset, U64_LIMIT);
    SmallMod(a + offset - b, U64_LIMIT);
  }

  lemma SubIdentity(a: Fe, b: Fe)
    ensures Value(Fe(a.l0 + TWO_P0 - b.l0, a.l1 + TWO_P1234 - b.l1, a.l2 + TWO_P1234 - b.l2,
                     a.l3 + TWO_P1234 - b.l3, a.l4 + TWO_P1234 - b.l4))
         == Value(a) - Value(b) + 2 * P
  {}

  /** Subtraction of weak operands never underflows a limb. */
  lemma SubExact(a: Fe, b: Fe)
    requires Weak(a) && Weak(b)
    ensures Loose(Sub(a, b)) && Value(Sub(a, b)) % P == (Value(a) - Value(b)) % P
  {
    hide WrapAdd, WrapSub, Value;
    SubLimb(a.l0, b.l0, TWO_P0);
    SubLimb(a.l1, b.l1, TWO_P1234);
    SubLimb(a.l2, b.l2, TWO_P1234);
    SubLimb(a.l3, b.l3, TWO_P1234);
    SubLimb(a.l4, b.l4, TWO_P1234);
    SubIdentity(a, b);
    ModMultiple(Value(Sub(a, b)), Value(a) - Value(b), 2, P);
  }

  // ----- The carry chain ---------------------------------------------------------------------------

  function Carry(t: Fe): (r: Fe) {
    var t1 := Add128(t.l1, t.l0 / R51);
    var t2 := Add128(t.l2, t1 / R51);
    var t3 := Add128(t.l3, t2 / R51);
    var t4 := Add128(t.l4, t3 / R51);
    var c4 := t4 / R51 % U64_LIMIT;
    var r0 := WrapAdd(t.l0 % U64_LIMIT % R51, WrapMul(c4, 19));
    Fe(r0 % R51, WrapAdd(t1 % U64_LIMIT % R51, r0 / R51), t2 % U64_LIMIT % R51, t3 % U64_LIMIT % R51,
        t4 % U64_LIMIT % R51)
  }

  /** Accumulators below 2^113, and the top one below 2^109, carry without wrapping. */
  predicate Carriable(t: Fe) {
    && 0 <= t.l0 <= R102 * 0x800 && 0 <= t.l1 <= R102 * 0x800 && 0 <= t.l2 <= R102 * 0x800 && 0 <= t.l3 <= R102 * 0x800
    && 0 <= t.l4 <= R102 * 0x40
  }

  lemma CarryStep(t: int, c: int) returns (q: int, r: int)
    requires 0 <= t <= R102 * 0x800 && 0 <= c <= R51 * 0x1000
    ensures q == Add128(t, c) / R51 && r == Add128(t, c) % U64_LIMIT % R51
    ensures t + c == R51 * q + r && 0 <= r < R51 && 0 <= q <= R51 * 0x1000
    ensures t <= R102 * 0x40 ==> q <= R51 * 0x41
  {
    SmallMod(t + c, U128_LIMIT);
    q, r := (t + c) / R51, (t + c) % R51;
    ModOfMod(t + c);
  }

  /** `(x as u64) & MASK` is the remainder by 2^51. */
  lemma ModOfMod(x: int)
    requires 0 <= x
    ensures x % U64_LIMIT % R51 == x % R51
  {
    var q := x / U64_LIMIT;
    assert x == U64_LIMIT * q + x % U64_LIMIT;
    assert U64_LIMIT == 0x2000 * R51;
    ModMultiple(x, x % U64_LIMIT, 0x2000 * q, R51);
  }

  lemma CarryIdentity(t: Fe, q0: int, r0: int, q1: int, r1: int, q2: int, r2: int, q3: int, r3: int, q4: int,
      r4: int, q5: int, r5: int)
    requires t.l0 == R51 * q0 + r0 && t.l1 + q0 == R51 * q1 + r1 && t.l2 + q1 == R51 * q2 + r2
    requires t.l3 + q2 == R51 * q3 + r3 && t.l4 + q3 == R51 * q4 + r4 && r0 + 19 * q4 == R51 * q5 + r5
    ensures Value(t) == Value(Fe(r5, r1 + q5, r2, r3, r4)) + q4 * P
  {}

  /** The carry chain is the identity modulo P and leaves weak limbs; nothing wraps. */
  lemma CarryExact(t: Fe)
    requires Carriable(t)
    ensures Weak(Carry(t)) && Value(Carry(t)) % P == Value(t) % P
  {
    hide Add128, Value, WrapAdd, WrapMul;
    var q0, r0 := t.l0 / R51, t.l0 % R51;
    ModOfMod(t.l0);
    var q1, r1 := CarryStep(t.l1, q0);
    var q2, r2 := CarryStep(t.l2, q1);
    var q3, r3 := CarryStep(t.l3, q2);
    var q4, r4 := CarryStep(t.l4, q3);
    var q5, r5 := CarryFold(r0, q4, r1);
    assert Carry(t) == Fe(r5, r1 + q5, r2, r3, r4);
    CarryCongruence(t, q0, r0, q1, r1, q2, r2, q3, r3, q4, r4, q5, r5);
  }

  /** The carry out of the top limb, times 19, into the bottom two: it stays below 2^62. */
  lemma CarryFold(r0: int, q4: int, r1: int) returns (q5: int, r5: int)
    requires 0 <= r0 < R51 && 0 <= q4 <= R51 * 0x41 && 0 <= r1 < R51
    ensures var c := WrapAdd(r0, WrapMul(q4 % U64_LIMIT, 19));
            q5 == c / R51 && r5 == c % R51 && WrapAdd(r1, q5) == r1 + q5
    ensures r0 + 19 * q4 == R51 * q5 + r5 && 0 <= r5 < R51 && 0 <= q5 < 0x800 && 19 * q4 < 0x4000_0000_0000_0000
  {
    SmallMod(q4, U64_LIMIT);
    SmallMod(q4 * 19, U64_LIMIT);
    SmallMod(r0 + 19 * q4, U64_LIMIT);
    q5, r5 := (r0 + 19 * q4) / R51, (r0 + 19 * q4) % R51;
    SmallMod(r1 + q5, U64_LIMIT);
  }

  lemma CarryCongruence(t: Fe, q0: int, r0: int, q1: int, r1: int, q2: int, r2: int, q3: int, r3: int, q4: int,
      r4: int, q5: int, r5: int)
    requires t.l0 == R51 * q0 + r0 && t.l1 + q0 == R51 * q1 + r1 && t.l2 + q1 == R51 * q2 + r2
    requires t.l3 + q2 == R51 * q3 + r3 && t.l4 + q3 == R51 * q4 + r4 && r0 + 19 * q4 == R51 * q5 + r5
    ensures Value(t) % P == Value(Fe(r5, r1 + q5, r2, r3, r4)) % P
  {
    hide Value;
    CarryIdentity(t, q0, r0, q1, r1, q2, r2, q3, r3, q4, r4, q5, r5);
    ModMultiple(Value(t), Value(Fe(r5, r1 + q5, r2, r3, r4)), q4, P);
  }

  // ----- Multiplication and squaring -----------------------------------------------------------

  function Add5(a: int, b: int, c: int, d: int, e: int): (r: int) {
    Add128(Add128(Add128(Add128(a, b), c), d), e)
  }

  function Add3(a: int, b: int, c: int): (r: int) { Add128(Add128(a, b), c) }

  /** The five `u128` accumulators of the schoolbook product. */
  function Columns(a: Fe, b: Fe): (t: Fe) {
    var b1x19, b2x19, b3x19, b4x19 := WrapMul(b.l1, 19), WrapMul(b.l2, 19), WrapMul(b.l3, 19), WrapMul(b.l4, 19);
    Fe(Add5(Wide(a.l0, b.l0), Wide(a.l1, b4x19), Wide(a.l2, b3x19), Wide(a.l3, b2x19), Wide(a.l4, b1x19)),
       Add5(Wide(a.l0, b.l1), Wide(a.l1, b.l0), Wide(a.l2, b4x19), Wide(a.l3, b3x19), Wide(a.l4, b2x19)),
       Add5(Wide(a.l0, b.l2), Wide(a.l1, b.l1), Wide(a.l2, b.l0), Wide(a.l3, b4x19), Wide(a.l4, b3x19)),
       Add5(Wide(a.l0, b.l3), Wide(a.l1, b.l2), Wide(a.l2, b.l1), Wide(a.l3, b.l0), Wide(a.l4, b4x19)),
       Add5(Wide(a.l0, b.l4), Wide(a.l1, b.l3), Wide(a.l2, b.l2), Wide(a.l3, b.l1), Wide(a.l4, b.l0)))
  }

  function Mul(a: Fe, b: Fe): (r: Fe) { Carry(Columns(a, b)) }

  function SquareColumns(a: Fe): (t: Fe) {
    var d0, d1, d2, d3 := WrapMul(a.l0, 2), WrapMul(a.l1, 2), WrapMul(a.l2, 2), WrapMul(a.l3, 2);
    var a3x19, a4x19 := WrapMul(a.l3, 19), WrapMul(a.l4, 19);
    Fe(Add3(Wide(a.l0, a.l0), Wide(d1, a4x19), Wide(d2, a3x19)),
       Add3(Wide(d0, a.l1), Wide(d2, a4x19), Wide(a.l3, a3x19)),
       Add3(Wide(d0, a.l2), Wide(a.l1, a.l1), Wide(d3, a4x19)),
       Add3(Wide(d0, a.l3), Wide(d1, a.l2), Wide(a.l4, a4x19)),
       Add3(Wide(d0, a.l4), Wide(d1, a.l3), Wide(a.l2, a.l2)))
  }

  function Square(a: Fe): (r: Fe) { Carry(SquareColumns(a)) }

  function MulSmall(a: Fe, k: u32): (r: Fe) {
    Carry(Fe(Wide(a.l0, k), Wide(a.l1, k), Wide(a.l2, k), Wide(a.l3, k), Wide(a.l4, k)))
  }

  /** A product of loose limbs, either one scaled by up to 38, is exact in `u128`. */
  lemma WideExact(x: int, y: int)
    requires 0 <= x <= 2 * LOOSE && 0 <= y <= 19 * LOOSE
    ensures Wide(x, y) == x * y && 0 <= x * y <= 38 * (LOOSE * LOOSE)
  {
    ProductBound(x, y, 2 * LOOSE, 19 * LOOSE);
    SmallMod(x * y, U128_LIMIT);
  }

  lemma ScaleExact(x: int, k: int)
    requires 0 <= x <= LOOSE && 0 <= k <= 19
    ensures WrapMul(x, k) == k * x
  {
    ProductBound(x, k, LOOSE, 19);
    SmallMod(x * k, U64_LIMIT);
  }

  lemma Add5Exact(a: int, b: int, c: int, d: int, e: int)
    requires 0 <= a <= 38 * (LOOSE * LOOSE) && 0 <= b <= 38 * (LOOSE * LOOSE) && 0 <= c <= 38 * (LOOSE * LOOSE)
    requires 0 <= d <= 38 * (LOOSE * LOOSE) && 0 <= e <= 38 * (LOOSE * LOOSE)
    ensures Add5(a, b, c, d, e) == a + b + c + d + e
    ensures Add3(a, b, c) == a + b + c
  {
    SmallMod(a + b, U128_LIMIT);
    SmallMod(a + b + c, U128_LIMIT);
    SmallMod(a + b + c + d, U128_LIMIT);
    SmallMod(a + b + c + d + e, U128_LIMIT);
  }

  /** What the columns are meant to be. */
  function ExactColumns(a: Fe, b: Fe): (t: Fe) {
    Fe(a.l0 * b.l0 + 19 * (a.l1 * b.l4 + a.l2 * b.l3 + a.l3 * b.l2 + a.l4 * b.l1),
       a.l0 * b.l1 + a.l1 * b.l0 + 19 * (a.l2 * b.l4 + a.l3 * b.l3 + a.l4 * b.l2),
       a.l0 * b.l2 + a.l1 * b.l1 + a.l2 * b.l0 + 19 * (a.l3 * b.l4 + a.l4 * b.l3),
       a.l0 * b.l3 + a.l1 * b.l2 + a.l2 * b.l1 + a.l3 * b.l0 + 19 * (a.l4 * b.l4),
       a.l0 * b.l4 + a.l1 * b.l3 + a.l2 * b.l2 + a.l3 * b.l1 + a.l4 * b.l0)
  }

  /** 2^255 = P + 19: the folded columns differ from the product by a multiple of P. */
  lemma FoldIdentity(a: Fe, b: Fe)
    ensures Value(a) * Value(b) == Value(ExactColumns(a, b)) + FoldQuotient(a, b) * P
  {}

  function FoldQuotient(a: Fe, b: Fe): (k: int) {
    a.l1 * b.l4 + a.l2 * b.l3 + a.l3 * b.l2 + a.l4 * b.l1
    + R51 * (a.l2 * b.l4 + a.l3 * b.l3 + a.l4 * b.l2)
    + R102 * (a.l3 * b.l4 + a.l4 * b.l3)
    + R153 * (a.l4 * b.l4)
  }

  function Dot(x0: int, y0: int, x1: int, y1: int, x2: int, y2: int, x3: int, y3: int, x4: int, y4: int): (r: int) {
    x0 * y0 + x1 * y1 + x2 * y2 + x3 * y3 + x4 * y4
  }

  lemma Column(x0: int, y0: int, x1: int, y1: int, x2: int, y2: int, x3: int, y3: int, x4: int, y4: int)
    requires 0 <= x0 <= 2 * LOOSE && 0 <= x1 <= 2 * LOOSE && 0 <= x2 <= 2 * LOOSE && 0 <= x3 <= 2 * LOOSE
        && 0 <= x4 <= 2 * LOOSE
    requires 0 <= y0 <= 19 * LOOSE && 0 <= y1 <= 19 * LOOSE && 0 <= y2 <= 19 * LOOSE && 0 <= y3 <= 19 * LOOSE
        && 0 <= y4 <= 19 * LOOSE
    ensures Add5(Wide(x0, y0), Wide(x1, y1), Wide(x2, y2), Wide(x3, y3), Wide(x4, y4)) == Dot(x0, y0, x1, y1, x2, y2,
        x3, y3, x4, y4)
    ensures Add3(Wide(x0, y0), Wide(x1, y1), Wide(x2, y2)) == Dot(x0, y0, x1, y1, x2, y2, 0, 0, 0, 0)
  {
    hide Wide, Add5, Add3;
    WideExact(x0, y0);
    WideExact(x1, y1);
    WideExact(x2, y2);
    WideExact(x3, y3);
    WideExact(x4, y4);
    Add5Exact(x0 * y0, x1 * y1, x2 * y2, x3 * y3, x4 * y4);
  }

  /** The columns without wrap-around, as the code arranges them. */
  function DotColumns(a: Fe, b: Fe): (t: Fe) {
    Fe(Dot(a.l0, b.l0, a.l1, 19 * b.l4, a.l2, 19 * b.l3, a.l3, 19 * b.l2, a.l4, 19 * b.l1),
       Dot(a.l0, b.l1, a.l1, b.l0, a.l2, 19 * b.l4, a.l3, 19 * b.l3, a.l4, 19 * b.l2),
       Dot(a.l0, b.l2, a.l1, b.l1, a.l2, b.l0, a.l3, 19 * b.l4, a.l4, 19 * b.l3),
       Dot(a.l0, b.l3, a.l1, b.l2, a.l2, b.l1, a.l3, b.l0, a.l4, 19 * b.l4),
       Dot(a.l0, b.l4, a.l1, b.l3, a.l2, b.l2, a.l3, b.l1, a.l4, b.l0))
  }

  function DotSquares(a: Fe): (t: Fe) {
    Fe(Dot(a.l0, a.l0, 2 * a.l1, 19 * a.l4, 2 * a.l2, 19 * a.l3, 0, 0, 0, 0),
       Dot(2 * a.l0, a.l1, 2 * a.l2, 19 * a.l4, a.l3, 19 * a.l3, 0, 0, 0, 0),
       Dot(2 * a.l0, a.l2, a.l1, a.l1, 2 * a.l3, 19 * a.l4, 0, 0, 0, 0),
       Dot(2 * a.l0, a.l3, 2 * a.l1, a.l2, a.l4, 19 * a.l4, 0, 0, 0, 0),
       Dot(2 * a.l0, a.l4, 2 * a.l1, a.l3, a.l2, a.l2, 0, 0, 0, 0))
  }

  lemma Scaled(x: int, y: int, j: int, k: int)
    ensures (j * x) * (k * y) == (j * k) * (x * y)
  {}

  lemma DotScaled(x0: int, y0: int, x1: int, y1: int, x2: int, y2: int, x3: int, y3: int, x4: int, y4: int, k1: int,
      k2: int, k3: int, k4: int)
    ensures Dot(x0, y0, x1, k1 * y1, x2, k2 * y2, x3, k3 * y3, x4, k4 * y4)
         == x0 * y0 + k1 * (x1 * y1) + k2 * (x2 * y2) + k3 * (x3 * y3) + k4 * (x4 * y4)
  {
    Scaled(x1, y1, 1, k1);
    Scaled(x2, y2, 1, k2);
    Scaled(x3, y3, 1, k3);
    Scaled(x4, y4, 1, k4);
  }

  lemma DotColumnsExact(a: Fe, b: Fe)
    ensures DotColumns(a, b) == ExactColumns(a, b)
  {
    hide Dot;
    DotScaled(a.l0, b.l0, a.l1, b.l4, a.l2, b.l3, a.l3, b.l2, a.l4, b.l1, 19, 19, 19, 19);
    DotScaled(a.l0, b.l1, a.l1, b.l0, a.l2, b.l4, a.l3, b.l3, a.l4, b.l2, 1, 19, 19, 19);
    DotScaled(a.l0, b.l2, a.l1, b.l1, a.l2, b.l0, a.l3, b.l4, a.l4, b.l3, 1, 1, 19, 19);
    DotScaled(a.l0, b.l3, a.l1, b.l2, a.l2, b.l1, a.l3, b.l0, a.l4, b.l4, 1, 1, 1, 19);
    DotScaled(a.l0, b.l4, a.l1, b.l3, a.l2, b.l2, a.l3, b.l1, a.l4, b.l0, 1, 1, 1, 1);
  }

  lemma DotSum(x0: int, y0: int, j0: int, x1: int, y1: int, j1: int, k1: int, x2: int, y2: int, j2: int, k2: int)
    ensures Dot(j0 * x0, y0, j1 * x1, k1 * y1, j2 * x2, k2 * y2, 0, 0, 0, 0)
         == j0 * (x0 * y0) + (j1 * k1) * (x1 * y1) + (j2 * k2) * (x2 * y2)
  {
    Scaled(x0, y0, j0, 1);
    Scaled(x1, y1, j1, k1);
    Scaled(x2, y2, j2, k2);
  }

  lemma DotSquaresExact(a: Fe)
    ensures DotSquares(a) == ExactColumns(a, a)
  {
    hide Dot;
    DotSum(a.l0, a.l0, 1, a.l1, a.l4, 2, 19, a.l2, a.l3, 2, 19);
    DotSum(a.l0, a.l1, 2, a.l2, a.l4, 2, 19, a.l3, a.l3, 1, 19);
    DotSum(a.l0, a.l2, 2, a.l1, a.l1, 1, 1, a.l3, a.l4, 2, 19);
    DotSum(a.l0, a.l3, 2, a.l1, a.l2, 2, 1, a.l4, a.l4, 1, 19);
    DotSum(a.l0, a.l4, 2, a.l1, a.l3, 2, 1, a.l2, a.l2, 1, 1);
  }

  lemma ColumnsExact(a: Fe, b: Fe)
    requires Loose(a) && Loose(b)
    ensures Columns(a, b) == ExactColumns(a, b)
  {
    hide Wide, Add5, Add3, WrapMul, Dot, ExactColumns;
    ScaleExact(b.l1, 19);
    ScaleExact(b.l2, 19);
    ScaleExact(b.l3, 19);
    ScaleExact(b.l4, 19);
    Column(a.l0, b.l0, a.l1, 19 * b.l4, a.l2, 19 * b.l3, a.l3, 19 * b.l2, a.l4, 19 * b.l1);
    Column(a.l0, b.l1, a.l1, b.l0, a.l2, 19 * b.l4, a.l3, 19 * b.l3, a.l4, 19 * b.l2);
    Column(a.l0, b.l2, a.l1, b.l1, a.l2, b.l0, a.l3, 19 * b.l4, a.l4, 19 * b.l3);
    Column(a.l0, b.l3, a.l1, b.l2, a.l2, b.l1, a.l3, b.l0, a.l4, 19 * b.l4);
    Column(a.l0, b.l4, a.l1, b.l3, a.l2, b.l2, a.l3, b.l1, a.l4, b.l0);
    assert Columns(a, b) == DotColumns(a, b);
    DotColumnsExact(a, b);
  }

  lemma SquareColumnsExact(a: Fe)
    requires Loose(a)
    ensures SquareColumns(a) == ExactColumns(a, a)
  {
    hide Wide, Add5, Add3, WrapMul, Dot, ExactColumns;
    ScaleExact(a.l0, 2);
    ScaleExact(a.l1, 2);
    ScaleExact(a.l2, 2);
    ScaleExact(a.l3, 2);
    ScaleExact(a.l3, 19);
    ScaleExact(a.l4, 19);
    Column(a.l0, a.l0, 2 * a.l1, 19 * a.l4, 2 * a.l2, 19 * a.l3, 0, 0, 0, 0);
    Column(2 * a.l0, a.l1, 2 * a.l2, 19 * a.l4, a.l3, 19 * a.l3, 0, 0, 0, 0);
    Column(2 * a.l0, a.l2, a.l1, a.l1, 2 * a.l3, 19 * a.l4, 0, 0, 0, 0);
    Column(2 * a.l0, a.l3, 2 * a.l1, a.l2, a.l4, 19 * a.l4, 0, 0, 0, 0);
    Column(2 * a.l0, a.l4, 2 * a.l1, a.l3, a.l2, a.l2, 0, 0, 0, 0);
    assert SquareColumns(a) == DotSquares(a);
    DotSquaresExact(a);
  }

  lemma ProductSums(x0: int, y0: int, x1: int, y1: int, x2: int, y2: int, x3: int, y3: int, x4: int, y4: int)
    requires 0 <= x0 <= LOOSE && 0 <= x1 <= LOOSE && 0 <= x2 <= LOOSE && 0 <= x3 <= LOOSE && 0 <= x4 <= LOOSE
    requires 0 <= y0 <= LOOSE && 0 <= y1 <= LOOSE && 0 <= y2 <= LOOSE && 0 <= y3 <= LOOSE && 0 <= y4 <= LOOSE
    ensures 0 <= x0 * y0 && 0 <= x1 * y1 && 0 <= x2 * y2 && 0 <= x3 * y3 && 0 <= x4 * y4
    ensures x0 * y0 + x1 * y1 + x2 * y2 + x3 * y3 + x4 * y4 <= R102 * 0x40
  {
    ProductBound(x0, y0, LOOSE, LOOSE);
    ProductBound(x1, y1, LOOSE, LOOSE);
    ProductBound(x2, y2, LOOSE, LOOSE);
    ProductBound(x3, y3, LOOSE, LOOSE);
    ProductBound(x4, y4, LOOSE, LOOSE);
  }

  /** 19 times five loose products, 57 * 15 * 2^102, stays below 2^113. */
  lemma ColumnsCarriable(a: Fe, b: Fe)
    requires Loose(a) && Loose(b)
    ensures Carriable(ExactColumns(a, b))
  {
    ProductSums(a.l0, b.l0, a.l1, b.l4, a.l2, b.l3, a.l3, b.l2, a.l4, b.l1);
    ProductSums(a.l0, b.l1, a.l1, b.l0, a.l2, b.l4, a.l3, b.l3, a.l4, b.l2);
    ProductSums(a.l0, b.l2, a.l1, b.l1, a.l2, b.l0, a.l3, b.l4, a.l4, b.l3);
    ProductSums(a.l0, b.l3, a.l1, b.l2, a.l2, b.l1, a.l3, b.l0, a.l4, b.l4);
    ProductSums(a.l0, b.l4, a.l1, b.l3, a.l2, b.l2, a.l3, b.l1, a.l4, b.l0);
  }

  lemma FoldedProduct(a: Fe, b: Fe)
    requires Loose(a) && Loose(b)
    ensures Weak(Carry(ExactColumns(a, b)))
    ensures Value(Carry(ExactColumns(a, b))) % P == Value(a) * Value(b) % P
  {
    hide ExactColumns, Carry, Value, FoldQuotient;
    ColumnsCarriable(a, b);
    CarryExact(ExactColumns(a, b));
    FoldIdentity(a, b);
    ModMultiple(Value(a) * Value(b), Value(ExactColumns(a, b)), FoldQuotient(a, b), P);
  }

  /** On loose operands `mul` never wraps and multiplies modulo P. */
  lemma MulExact(a: Fe, b: Fe)
    requires Loose(a) && Loose(b)
    ensures Weak(Mul(a, b)) && Value(Mul(a, b)) % P == Value(a) * Value(b) % P
  {
    hide ExactColumns, Columns, Carry, Value;
    ColumnsExact(a, b);
    FoldedProduct(a, b);
  }

  /** The symmetric shortcut computes the same limbs as `mul`. */
  lemma SquareIsMul(a: Fe)
    requires Loose(a)
    ensures Square(a) == Mul(a, a)
  {
    hide ExactColumns, Columns, SquareColumns, Carry;
    ColumnsExact(a, a);
    SquareColumnsExact(a);
  }

  lemma SquareExact(a: Fe)
    requires Loose(a)
    ensures Weak(Square(a)) && Value(Square(a)) % P == Value(a) * Value(a) % P
  {
    hide Mul, Square, Value;
    SquareIsMul(a);
    MulExact(a, a);
  }

  // ----- How large the accumulators get --------------------------------------------------------

  const TWO109: int := R102 * 0x80
  const TWO111: int := R102 * 0x200

  predicate Below(t: Fe, limit: int) {
    t.l0 < limit && t.l1 < limit && t.l2 < limit && t.l3 < limit && t.l4 < limit
  }

  lemma ColumnsBound(a: Fe, b: Fe, bound: nat)
    requires Bounded(a, bound) && Bounded(b, bound)
    ensures var t := ExactColumns(a, b);
            t.l0 <= 77 * (bound * bound) && t.l1 <= 77 * (bound * bound) && t.l2 <= 77 * (bound * bound)
            && t.l3 <= 77 * (bound * bound) && t.l4 <= 77 * (bound * bound)
  {
    forall x: int, y: int | 0 <= x <= bound && 0 <= y <= bound ensures 0 <= x * y <= bound * bound {
      ProductBound(x, y, bound, bound);
    }
  }

  /** For limbs up to a bound the accumulators of a product stay below 2^109 if and only if 77
      times the square of the bound does: equal limbs at the bound reach it. */
  lemma AccumulatorsBelowIff(bound: nat)
    ensures (forall a: Fe, b: Fe | Bounded(a, bound) && Bounded(b, bound) :: Below(ExactColumns(a, b), TWO109))
            <==> 77 * (bound * bound) < TWO109
  {
    hide ExactColumns;
    forall a: Fe, b: Fe | Bounded(a, bound) && Bounded(b, bound)
      ensures 77 * (bound * bound) < TWO109 ==> Below(ExactColumns(a, b), TWO109)
    {
      ColumnsBound(a, b, bound);
    }
    var u := Fe(bound, bound, bound, bound, bound);
    UniformColumns(bound);
    assert Below(ExactColumns(u, u), TWO109) ==> 77 * (bound * bound) < TWO109;
  }

  lemma UniformColumns(bound: nat)
    ensures var u := Fe(bound, bound, bound, bound, bound);
            Bounded(u, bound) && ExactColumns(u, u).l0 == 77 * (bound * bound)
  {}

  /** The limbs that `add` and `sub` hand to a product pass 2^111. */
  lemma LadderAccumulators()
    ensures var u := Fe(LOOSE, LOOSE, LOOSE, LOOSE, LOOSE);
            Loose(u) && Columns(u, u).l0 > TWO111
  {
    var u := Fe(LOOSE, LOOSE, LOOSE, LOOSE, LOOSE);
    hide ExactColumns, Columns;
    UniformColumns(LOOSE);
    ColumnsExact(u, u);
  }

  lemma SmallProduct(x: int, k: u32)
    requires 0 <= x <= LOOSE
    ensures Wide(x, k) == x * k && 0 <= x * k <= R102 * 0x40
  {
    ProductBound(x, k, LOOSE, U32_LIMIT);
    SmallMod(x * k, U128_LIMIT);
  }

  lemma ScaleIdentity(a: Fe, k: int)
    ensures Value(Fe(a.l0 * k, a.l1 * k, a.l2 * k, a.l3 * k, a.l4 * k)) == Value(a) * k
  {}

  lemma MulSmallExact(a: Fe, k: u32)
    requires Loose(a)
    ensures Weak(MulSmall(a, k)) && Value(MulSmall(a, k)) % P == Value(a) * k % P
  {
    hide Wide, Carry, Value;
    SmallProduct(a.l0, k);
    SmallProduct(a.l1, k);
    SmallProduct(a.l2, k);
    SmallProduct(a.l3, k);
    SmallProduct(a.l4, k);
    CarryExact(Fe(a.l0 * k, a.l1 * k, a.l2 * k, a.l3 * k, a.l4 * k));
    ScaleIdentity(a, k);
  }

  // ----- Decoding ----------------------------------------------------------------------------

  /** `(lo | (w << k)) & MASK` where 2^k is `scale`. */
  function Join(lo: int, w: u64, scale: int): (l: int)
    requires 0 <= lo < scale && scale in {0x2000, 0x400_0000, 0x80_0000_0000}
  {
    assert w * scale % U64_LIMIT % scale == 0 by { ShiftLeft(w, scale, U64_LIMIT / scale, U64_LIMIT); }
    OrDisjoint(lo, w * scale % U64_LIMIT, scale) % R51
  }

  lemma JoinMod(lo: int, w: int, scale: int, kept: int, extra: int, unit: int, limit: int)
    requires 0 <= w && 0 <= lo < scale && 0 < kept && 0 < extra && unit == scale * kept > 0 && limit == extra * unit > 0
    ensures (lo + w * scale % limit) % unit == lo + scale * (w % kept)
  {
    var x := w * scale;
    var k := x / limit;
    assert x == x % limit + (k * extra) * unit by {
      assert x == limit * k + x % limit;
      assert limit * k == (k * extra) * unit;
    }
    ModMultiple(x, x % limit, k * extra, unit);
    ModAdd(lo, x % limit, lo, x, unit);
    var q, r := w / kept, w % kept;
    assert x == q * unit + scale * r by { ShiftIdentity(w, q, r, scale, kept, unit); }
    JoinRoom(lo, r, scale, kept);
    DivModUnique(lo + x, q, lo + scale * r, unit);
  }

  lemma JoinExact(lo: int, w: u64, scale: int, kept: int)
    requires 0 <= lo < scale && scale in {0x2000, 0x400_0000, 0x80_0000_0000} && kept * scale == R51
    ensures Join(lo, w, scale) == lo + scale * (w % kept) && 0 <= Join(lo, w, scale) < R51
  {
    JoinMod(lo, w, scale, kept, 0x2000, R51, U64_LIMIT);
  }

  /** The limbs of `from_bytes` from the four little-endian words. */
  function Decode(t0: u64, t1: u64, t2: u64, t3: u64): (r: Fe) {
    Fe(t0 % R51, Join(t0 / R51, t1, 0x2000), Join(t1 / 0x40_0000_0000, t2, 0x400_0000),
       Join(t2 / 0x200_0000, t3, 0x80_0000_0000), t3 / 0x1000 % R51)
  }

  const TWO192: int := U64_LIMIT * U64_LIMIT * U64_LIMIT

  /** The integer of four 64-bit words, low word first. */
  function Words(w0: int, w1: int, w2: int, w3: int): (v: int) {
    w0 + U64_LIMIT * w1 + U128_LIMIT * w2 + TWO192 * w3
  }

  predicate Tight(a: Fe) { Bounded(a, R51 - 1) }

  lemma TightRange(a: Fe)
    requires Tight(a)
    ensures 0 <= Value(a) < TWO255 && Weak(a)
  {}

  lemma DecodeIdentity(t0: int, t1: int, t2: int, t3: int, l0: int, a0: int, q1: int, r1: int, q2: int, r2: int,
      q3: int, r3: int, h: int, l4: int)
    requires t0 == R51 * a0 + l0 && t1 == 0x40_0000_0000 * q1 + r1 && t2 == 0x200_0000 * q2 + r2
    requires t3 == 0x1000 * q3 + r3 && q3 == R51 * h + l4
    ensures Words(t0, t1, t2, t3)
         == h * TWO255 + Value(Fe(l0, a0 + 0x2000 * r1, q1 + 0x400_0000 * r2, q2 + 0x80_0000_0000 * r3, l4))
  {}

  /** Decoding keeps the low 255 bits of the 256-bit integer and drops the top one. */
  lemma DecodeExact(t0: u64, t1: u64, t2: u64, t3: u64)
    ensures Tight(Decode(t0, t1, t2, t3))
    ensures Value(Decode(t0, t1, t2, t3)) == Words(t0, t1, t2, t3) % TWO255
  {
    hide Join, Value, Words;
    JoinExact(t0 / R51, t1, 0x2000, 0x40_0000_0000);
    JoinExact(t1 / 0x40_0000_0000, t2, 0x400_0000, 0x200_0000);
    JoinExact(t2 / 0x200_0000, t3, 0x80_0000_0000, 0x1000);
    var h := t3 / 0x1000 / R51;
    DecodeIdentity(t0, t1, t2, t3, t0 % R51, t0 / R51, t1 / 0x40_0000_0000, t1 % 0x40_0000_0000,
                   t2 / 0x200_0000, t2 % 0x200_0000, t3 / 0x1000, t3 % 0x1000, h, t3 / 0x1000 % R51);
    var v := Decode(t0, t1, t2, t3);
    TightRange(v);
    DivModUnique(Words(t0, t1, t2, t3), h, Value(v), TWO255);
  }

  lemma Word64(b: seq<u8>)
    requires |b| == 8
    ensures 0 <= LeValue(b) < U64_LIMIT
  {
    LeBound(b);
    PowersOf256();
  }

  lemma FourWords(b: seq<u8>)
    requires |b| == 32
    ensures LeValue(b) == Words(LeValue(b[0..8]), LeValue(b[8..16]), LeValue(b[16..24]), LeValue(b[24..32]))
  {
    hide LeValue, Power256;
    PowersOf256();
    assert b == b[0..8] + b[8..] && b[8..] == b[8..16] + b[16..] && b[16..] == b[16..24] + b[24..32];
    LeConcat(b[0..8], b[8..]);
    LeConcat(b[8..16], b[16..]);
    LeConcat(b[16..24], b[24..32]);
  }

  method FromBytes(bytes: seq<u8>) returns (r: Fe)
    requires |bytes| == 32
    ensures Tight(r) && Value(r) == LeValue(bytes) % TWO255
  {
    hide LeValue, Decode, Value, Tight, Words;
    var q: seq<u64> := [];
    for i := 0 to 4
      invariant |q| == i
      invariant forall j :: 0 <= j < i ==> q[j] == LeValue(bytes[8 * j..8 * j + 8])
    {
      Word64(bytes[8 * i..8 * i + 8]);
      q := q + [LeValue(bytes[8 * i..8 * i + 8])];
    }
    r := Decode(q[0], q[1], q[2], q[3]);
    DecodeExact(q[0], q[1], q[2], q[3]);
    FourWords(bytes);
  }

  // ----- Encoding ---------------------------------------------------------------------------------

  /** The first pass of `to_bytes`. */
  function Tighten(a: Fe): (r: Fe) {
    var l1 := WrapAdd(a.l1, a.l0 / R51);
    var l2 := WrapAdd(a.l2, l1 / R51);
    var l3 := WrapAdd(a.l3, l2 / R51);
    var l4 := WrapAdd(a.l4, l3 / R51);
    var l0 := WrapAdd(a.l0 % R51, WrapMul(l4 / R51, 19));
    Fe(l0 % R51, WrapAdd(l1 % R51, l0 / R51), l2 % R51, l3 % R51, l4 % R51)
  }

  /** One carry of a limb chain whose limbs stay below 2^52. */
  lemma LimbStep(t: int, c: int) returns (q: int, r: int)
    requires 0 <= t <= WEAK && 0 <= c <= 39
    ensures WrapAdd(t, c) == t + c && q == (t + c) / R51 && r == (t + c) % R51
    ensures t + c == R51 * q + r && 0 <= r < R51 && 0 <= q <= 1
    ensures q == 1 ==> r <= 0x2026
  {
    SmallMod(t + c, U64_LIMIT);
    q, r := (t + c) / R51, (t + c) % R51;
  }

  /** After the first pass the value is below 2^255, though the second limb may be 2^51. */
  predicate Tightened(a: Fe) {
    && 0 <= a.l0 < R51 && 0 <= a.l1 <= R51 && 0 <= a.l2 < R51 && 0 <= a.l3 < R51 && 0 <= a.l4 < R51
    && 0 <= Value(a) < TWO255
  }

  lemma TightenExact(a: Fe)
    requires Weak(a)
    ensures Tightened(Tighten(a)) && Value(Tighten(a)) % P == Value(a) % P
  {
    hide WrapAdd, WrapMul, Value;
    var q0, r0 := a.l0 / R51, a.l0 % R51;
    var q1, r1 := LimbStep(a.l1, q0);
    var q2, r2 := LimbStep(a.l2, q1);
    var q3, r3 := LimbStep(a.l3, q2);
    var q4, r4 := LimbStep(a.l4, q3);
    ScaleExact(q4, 19);
    var q5, r5 := LimbStep(r0, 19 * q4);
    var q6, r6 := LimbStep(r1, q5);
    assert Tighten(a) == Fe(r5, r1 + q5, r2, r3, r4);
    TightenRange(r5, r1 + q5, r2, r3, r4, q4);
    CarryCongruence(a, q0, r0, q1, r1, q2, r2, q3, r3, q4, r4, q5, r5);
  }

  lemma TightenRange(l0: int, l1: int, l2: int, l3: int, l4: int, q4: int)
    requires 0 <= l0 < R51 && 0 <= l1 <= R51 && 0 <= l2 < R51 && 0 <= l3 < R51 && 0 <= l4 < R51
    requires q4 == 0 ==> l1 < R51
    requires q4 != 0 ==> l4 <= 0x2026
    ensures 0 <= Value(Fe(l0, l1, l2, l3, l4)) < TWO255
  {}

  /** The carry out of bit 255 of `value + 19`. */
  function OverflowBit(a: Fe): (q: int) {
    var q0 := WrapAdd(a.l0, 19) / R51;
    var q1 := WrapAdd(a.l1, q0) / R51;
    var q2 := WrapAdd(a.l2, q1) / R51;
    var q3 := WrapAdd(a.l3, q2) / R51;
    WrapAdd(a.l4, q3) / R51
  }

  lemma OverflowIdentity(a: Fe, q0: int, r0: int, q1: int, r1: int, q2: int, r2: int, q3: int, r3: int, q4: int,
      r4: int, start: int)
    requires a.l0 + start == R51 * q0 + r0 && a.l1 + q0 == R51 * q1 + r1 && a.l2 + q1 == R51 * q2 + r2
    requires a.l3 + q2 == R51 * q3 + r3 && a.l4 + q3 == R51 * q4 + r4
    ensures Value(a) + start == q4 * TWO255 + Value(Fe(r0, r1, r2, r3, r4))
  {}

  /** The bit is set exactly when the value is at least P. */
  lemma OverflowBitExact(a: Fe)
    requires Tightened(a)
    ensures OverflowBit(a) == if Value(a) >= P then 1 else 0
  {
    hide WrapAdd, Value, Words;
    var q0, r0 := LimbStep(a.l0, 19);
    var q1, r1 := LimbStep(a.l1, q0);
    var q2, r2 := LimbStep(a.l2, q1);
    var q3, r3 := LimbStep(a.l3, q2);
    var q4, r4 := LimbStep(a.l4, q3);
    OverflowQuotient(a, q0, r0, q1, r1, q2, r2, q3, r3, q4, r4);
  }

  lemma OverflowQuotient(a: Fe, q0: int, r0: int, q1: int, r1: int, q2: int, r2: int, q3: int, r3: int, q4: int,
      r4: int)
    requires a.l0 + 19 == R51 * q0 + r0 && a.l1 + q0 == R51 * q1 + r1 && a.l2 + q1 == R51 * q2 + r2
    requires a.l3 + q2 == R51 * q3 + r3 && a.l4 + q3 == R51 * q4 + r4
    requires 0 <= r0 < R51 && 0 <= r1 < R51 && 0 <= r2 < R51 && 0 <= r3 < R51 && 0 <= r4 < R51
    requires 0 <= Value(a) < TWO255 && 0 <= q4 <= 1
    ensures q4 == if Value(a) >= P then 1 else 0
  {
    hide Value;
    OverflowIdentity(a, q0, r0, q1, r1, q2, r2, q3, r3, q4, r4, 19);
    TightRange(Fe(r0, r1, r2, r3, r4));
  }

  /** Add 19 times the bit, carry, and drop bit 255. */
  function SubtractOnce(a: Fe): (r: Fe) {
    var l0 := WrapAdd(a.l0, WrapMul(OverflowBit(a), 19));
    var l1 := WrapAdd(a.l1, l0 / R51);
    var l2 := WrapAdd(a.l2, l1 / R51);
    var l3 := WrapAdd(a.l3, l2 / R51);
    var l4 := WrapAdd(a.l4, l3 / R51);
    Fe(l0 % R51, l1 % R51, l2 % R51, l3 % R51, l4 % R51)
  }

  lemma SubtractOnceExact(a: Fe)
    requires Tightened(a)
    ensures Tight(SubtractOnce(a)) && Value(SubtractOnce(a)) == Value(a) % P
  {
    hide WrapAdd, WrapMul, Value, OverflowBit;
    var bit := OverflowBit(a);
    OverflowBitExact(a);
    ScaleExact(bit, 19);
    var q0, r0 := LimbStep(a.l0, 19 * bit);
    var q1, r1 := LimbStep(a.l1, q0);
    var q2, r2 := LimbStep(a.l2, q1);
    var q3, r3 := LimbStep(a.l3, q2);
    var q4, r4 := LimbStep(a.l4, q3);
    assert SubtractOnce(a) == Fe(r0, r1, r2, r3, r4);
    OverflowIdentity(a, q0, r0, q1, r1, q2, r2, q3, r3, q4, r4, 19 * bit);
    TightRange(Fe(r0, r1, r2, r3, r4));
    assert q4 == bit;
    DivModUnique(Value(a), bit, Value(SubtractOnce(a)), P);
  }

  /** `lo | (l << k)` where 2^k is `scale`. */
  function PackWord(lo: int, l: int, scale: int): (w: int)
    requires 0 <= lo < scale && 0 <= l && scale in {R51, 0x40_0000_0000, 0x200_0000, 0x1000}
  {
    assert l * scale % U64_LIMIT % scale == 0 by { ShiftLeft(l, scale, U64_LIMIT / scale, U64_LIMIT); }
    OrDisjoint(lo, l * scale % U64_LIMIT, scale)
  }

  lemma PackWordExact(lo: int, l: int, scale: int, kept: int)
    requires 0 <= lo < scale && 0 <= l && scale in {R51, 0x40_0000_0000, 0x200_0000, 0x1000}
      && kept * scale == U64_LIMIT
    ensures PackWord(lo, l, scale) == lo + scale * (l % kept) && 0 <= PackWord(lo, l, scale) < U64_LIMIT
  {
    ShiftLeft(l, scale, kept, U64_LIMIT);
    JoinRoom(lo, l % kept, scale, kept);
  }

  /** The four output words of a tight element. */
  function Pack(a: Fe): (w: (int, int, int, int))
    requires Tight(a)
  {
    (PackWord(a.l0, a.l1, R51), PackWord(a.l1 / 0x2000, a.l2, 0x40_0000_0000),
     PackWord(a.l2 / 0x400_0000, a.l3, 0x200_0000), PackWord(a.l3 / 0x80_0000_0000, a.l4, 0x1000))
  }

  lemma PackIdentity(a: Fe, q1: int, r1: int, q2: int, r2: int, q3: int, r3: int)
    requires a.l1 == 0x2000 * q1 + r1 && a.l2 == 0x400_0000 * q2 + r2 && a.l3 == 0x80_0000_0000 * q3 + r3
    ensures Words(a.l0 + R51 * r1, q1 + 0x40_0000_0000 * r2, q2 + 0x200_0000 * r3, q3 + 0x1000 * a.l4) == Value(a)
  {}

  lemma PackExact(a: Fe)
    requires Tight(a)
    ensures var (o0, o1, o2, o3) := Pack(a);
            && 0 <= o0 < U64_LIMIT && 0 <= o1 < U64_LIMIT && 0 <= o2 < U64_LIMIT && 0 <= o3 < U64_LIMIT
            && Words(o0, o1, o2, o3) == Value(a)
  {
    hide PackWord, Value, Words;
    PackWordExact(a.l0, a.l1, R51, 0x2000);
    PackWordExact(a.l1 / 0x2000, a.l2, 0x40_0000_0000, 0x400_0000);
    PackWordExact(a.l2 / 0x400_0000, a.l3, 0x200_0000, 0x80_0000_0000);
    PackWordExact(a.l3 / 0x80_0000_0000, a.l4, 0x1000, 0x10_0000_0000_0000);
    SmallMod(a.l4, 0x10_0000_0000_0000);
    PackIdentity(a, a.l1 / 0x2000, a.l1 % 0x2000, a.l2 / 0x400_0000, a.l2 % 0x400_0000,
                 a.l3 / 0x80_0000_0000, a.l3 % 0x80_0000_0000);
  }

  lemma FourWordsOf(o0: u64, o1: u64, o2: u64, o3: u64)
    ensures LeValue(ToLe(o0, 8) + ToLe(o1, 8) + ToLe(o2, 8) + ToLe(o3, 8)) == Words(o0, o1, o2, o3)
  {
    hide LeValue, ToLe, Power256, Words;
    PowersOf256();
    var b := ToLe(o0, 8) + ToLe(o1, 8) + ToLe(o2, 8) + ToLe(o3, 8);
    assert b[0..8] == ToLe(o0, 8) && b[8..16] == ToLe(o1, 8) && b[16..24] == ToLe(o2, 8) && b[24..32] == ToLe(o3, 8);
    FourWords(b);
    LeRoundTrip(o0, 8);
    LeRoundTrip(o1, 8);
    LeRoundTrip(o2, 8);
    LeRoundTrip(o3, 8);
  }

  /** The encoding of a weakly reduced element is its unique representative below P. */
  method ToBytes(a: Fe) returns (out: seq<u8>)
    requires Weak(a)
    ensures out == ToLe(Value(a) % P, 32)
  {
    hide Tighten, SubtractOnce, Pack, Value, LeValue, ToLe, Weak, Tight, Tightened, Words;
    TightenExact(a);
    SubtractOnceExact(Tighten(a));
    var l := SubtractOnce(Tighten(a));
    PackExact(l);
    var (o0, o1, o2, o3) := Pack(l);
    var words: seq<u64> := [o0, o1, o2, o3];
    out := [];
    for i := 0 to 4
      invariant out == Encoded(words[..i])
    {
      assert words[..i + 1] == words[..i] + [words[i]];
      EncodedSnoc(words[..i], words[i]);
      out := out + ToLe(words[i], 8);
    }
    assert words[..4] == words;
    EncodedFour(o0, o1, o2, o3);
    FourWordsOf(o0, o1, o2, o3);
    LeInverse(out);
  }

  /** Words in little-endian order. */
  function Encoded(words: seq<u64>): (b: seq<u8>) {
    if words == [] then [] else ToLe(words[0], 8) + Encoded(words[1..])
  }

  lemma {:induction false} EncodedSnoc(words: seq<u64>, w: u64)
    ensures Encoded(words + [w]) == Encoded(words) + ToLe(w, 8)
  {
    if words == [] {
      assert words + [w] == [w];
      assert [w][1..] == [];
    } else {
      EncodedSnoc(words[1..], w);
      assert (words + [w])[1..] == words[1..] + [w];
    }
  }

  lemma EncodedFour(o0: u64, o1: u64, o2: u64, o3: u64)
    ensures Encoded([o0, o1, o2, o3]) == ToLe(o0, 8) + ToLe(o1, 8) + ToLe(o2, 8) + ToLe(o3, 8)
  {
    assert [o0, o1, o2, o3] == [o0, o1, o2] + [o3] && [o0, o1, o2] == [o0, o1] + [o2] && [o0, o1] == [o0] + [o1];
    EncodedSnoc([o0, o1, o2], o3);
    EncodedSnoc([o0, o1], o2);
    EncodedSnoc([o0], o1);
    EncodedSnoc([], o0);
    assert [] + [o0] == [o0];
  }
}
