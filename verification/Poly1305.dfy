/** `src/crypto/poly1305.rs`: Poly1305 in radix 2^26 against the polynomial of section 2.5
    of RFC 8439. */
module Poly1305 {
  import opened Machine
  import opened Bytes
  import opened Arith

  const P: int := 0x3_ffff_ffff_ffff_ffff_ffff_ffff_ffff_fffb
  const R26: int := 0x400_0000
  const R52: int := 0x10_0000_0000_0000
  const R78: int := 0x4000_0000_0000_0000_0000
  const R104: int := 0x100_0000_0000_0000_0000_0000_0000
  const R130: int := 0x4_0000_0000_0000_0000_0000_0000_0000_0000
  const TWO128: int := 0x1_0000_0000_0000_0000_0000_0000_0000_0000

  // ----- The reference ---------------------------------------------------------------------

  /** Section 2.5.1 of RFC 8439: bytes 3, 7, 11, 15 lose their top four bits, bytes 4, 8, 12
      their bottom two. */
  function ClampBytes(b: seq<u8>): (r: seq<u8>)
    requires |b| == 16
    ensures |r| == 16
  {
    [b[0], b[1], b[2], b[3] % 16, b[4] - b[4] % 4, b[5], b[6], b[7] % 16,
     b[8] - b[8] % 4, b[9], b[10], b[11] % 16, b[12] - b[12] % 4, b[13], b[14], b[15] % 16]
  }

  function KeyR(key: seq<u8>): (r: nat)
    requires |key| == 32
  {
    LeValue(ClampBytes(key[..16]))
  }

  /** A block with its terminating one byte. */
  function BlockValue(block: seq<u8>): (v: nat) {
    LeValue(block) + Power256(|block|)
  }

  /** One step of the polynomial. */
  function Absorb(acc: int, block: seq<u8>, r: int): (a: int) {
    (acc + BlockValue(block)) * r % P
  }

  /** Fold the message into the accumulator, sixteen bytes at a time. */
  function Accumulate(acc: int, msg: seq<u8>, r: int): (a: int)
    decreases |msg|
  {
    if msg == [] then acc
    else if |msg| < 16 then Absorb(acc, msg, r)
    else Accumulate(Absorb(acc, msg[..16], r), msg[16..], r)
  }

  function Tag(key: seq<u8>, msg: seq<u8>): (t: seq<u8>)
    requires |key| == 32
    ensures |t| == 16
  {
    ToLe((Accumulate(0, msg, KeyR(key)) + LeValue(key[16..])) % TWO128, 16)
  }

  /** Whole blocks first, then the rest. */
  lemma {:induction false} AccumulateAppend(acc: int, a: seq<u8>, b: seq<u8>, r: int)
    requires |a| % 16 == 0
    ensures Accumulate(acc, a + b, r) == Accumulate(Accumulate(acc, a, r), b, r)
    decreases |a|
  {
    hide Absorb;
    if a == [] {
      assert a + b == b;
    } else {
      assert (a + b)[..16] == a[..16] && (a + b)[16..] == a[16..] + b;
      AccumulateAppend(Absorb(acc, a[..16], r), a[16..], b, r);
    }
  }

  lemma {:induction false} AccumulateRange(acc: int, msg: seq<u8>, r: int)
    requires 0 <= acc < P
    ensures 0 <= Accumulate(acc, msg, r) < P
    decreases |msg|
  {
    if |msg| >= 16 { AccumulateRange(Absorb(acc, msg[..16], r), msg[16..], r); }
  }

  // ----- Limbs -----------------------------------------------------------------------------

  datatype Limbs = Limbs(l0: int, l1: int, l2: int, l3: int, l4: int)

  function Value(h: Limbs): (v: int) {
    h.l0 + R26 * h.l1 + R52 * h.l2 + R78 * h.l3 + R104 * h.l4
  }

  /** What `process_block` leaves behind: all limbs below 2^26, except that the last carry may
      lift the second to just above. */
  predicate Reduced(h: Limbs) {
    && 0 <= h.l0 < R26 && 0 <= h.l1 < R26 + 0x141 && 0 <= h.l2 < R26 && 0 <= h.l3 < R26 && 0 <= h.l4 < R26
  }

  predicate Tight(h: Limbs) {
    0 <= h.l0 < R26 && 0 <= h.l1 < R26 && 0 <= h.l2 < R26 && 0 <= h.l3 < R26 && 0 <= h.l4 < R26
  }

  /** The five 26-bit pieces of a 128-bit block. */
  function SplitBlock(t0: u64, t1: u64): (l: Limbs) {
    assert t0 / R52 < 0x1000;
    assert (t1 * 0x1000) % U64_LIMIT % 0x1000 == 0;
    Limbs(t0 % R26, t0 / R26 % R26, OrDisjoint(t0 / R52, (t1 * 0x1000) % U64_LIMIT, 0x1000) % R26,
          t1 / 0x4000 % R26, t1 / 0x100_0000_0000)
  }

  lemma LowWordPieces(t0: u64)
    ensures t0 == t0 % R26 + R26 * (t0 / R26 % R26) + R52 * (t0 / R52)
    ensures 0 <= t0 / R52 < 0x1000
  {
    assert t0 / R26 / R26 == t0 / R52;
  }

  lemma HighWordPieces(t1: u64)
    ensures t1 == t1 % 0x4000 + 0x4000 * (t1 / 0x4000 % R26) + 0x100_0000_0000 * (t1 / 0x100_0000_0000)
    ensures 0 <= t1 / 0x100_0000_0000 < 0x100_0000
  {
    assert t1 / 0x4000 / R26 == t1 / 0x100_0000_0000;
  }

  lemma MiddlePiece(lo: int, t1: u64)
    requires 0 <= lo < 0x1000
    ensures (lo + (t1 * 0x1000) % U64_LIMIT) % R26 == lo + 0x1000 * (t1 % 0x4000)
  {
    var q, r := t1 / 0x4000, t1 % 0x4000;
    var top, mid := q / R26, q % R26;
    assert t1 == r + 0x4000 * q && q == mid + R26 * top;
    var shifted := (t1 * 0x1000) % U64_LIMIT;
    var whole := t1 * 0x1000 / U64_LIMIT;
    assert t1 * 0x1000 == shifted + U64_LIMIT * whole;
    var k := q - 0x40_0000_0000 * whole;
    assert lo + shifted == k * R26 + (lo + 0x1000 * r);
    DivModUnique(lo + shifted, k, lo + 0x1000 * r, R26);
  }

  lemma SplitBlockValue(t0: u64, t1: u64)
    ensures Value(SplitBlock(t0, t1)) == t0 + U64_LIMIT * t1
    ensures Tight(SplitBlock(t0, t1)) && SplitBlock(t0, t1).l4 < 0x100_0000
  {
    LowWordPieces(t0);
    HighWordPieces(t1);
    MiddlePiece(t0 / R52, t1);
    var l := SplitBlock(t0, t1);
    assert l.l2 == t0 / R52 + 0x1000 * (t1 % 0x4000);
    assert Value(l) == (t0 % R26 + R26 * (t0 / R26 % R26) + R52 * (t0 / R52))
                       + U64_LIMIT * (t1 % 0x4000 + 0x4000 * (t1 / 0x4000 % R26)
                           + 0x100_0000_0000 * (t1 / 0x100_0000_0000));
  }

  /** Multiplication modulo P on limbs: the value differs from the product by a multiple of P. */
  lemma ProductFold(h: Limbs, r: Limbs, d: Limbs)
    requires d.l0 == h.l0 * r.l0 + 5 * (h.l1 * r.l4 + h.l2 * r.l3 + h.l3 * r.l2 + h.l4 * r.l1)
    requires d.l1 == h.l0 * r.l1 + h.l1 * r.l0 + 5 * (h.l2 * r.l4 + h.l3 * r.l3 + h.l4 * r.l2)
    requires d.l2 == h.l0 * r.l2 + h.l1 * r.l1 + h.l2 * r.l0 + 5 * (h.l3 * r.l4 + h.l4 * r.l3)
    requires d.l3 == h.l0 * r.l3 + h.l1 * r.l2 + h.l2 * r.l1 + h.l3 * r.l0 + 5 * (h.l4 * r.l4)
    requires d.l4 == h.l0 * r.l4 + h.l1 * r.l3 + h.l2 * r.l2 + h.l3 * r.l1 + h.l4 * r.l0
    ensures Value(h) * Value(r)
            == Value(d)
                + ((h.l1 * r.l4 + h.l2 * r.l3 + h.l3 * r.l2 + h.l4 * r.l1)
                    + R26 * (h.l2 * r.l4 + h.l3 * r.l3 + h.l4 * r.l2)
                           + R52 * (h.l3 * r.l4 + h.l4 * r.l3) + R78 * (h.l4 * r.l4)) * P
  {}

  const H_MAX: int := 0x800_0400      // 2^27 + 2^10
  const S_MAX: int := 0x1400_0000     // 5 * 2^26
  const D_MAX: int := 0x400_0000_0000_0000  // 2^58

  /** One row of the product: five multiplications and four additions on u64. */
  function Row(a0: int, b0: int, a1: int, b1: int, a2: int, b2: int, a3: int, b3: int, a4: int, b4: int): (r: int) {
    WrapAdd(WrapAdd(WrapAdd(WrapAdd(WrapMul(a0, b0), WrapMul(a1, b1)), WrapMul(a2, b2)), WrapMul(a3, b3)),
        WrapMul(a4, b4))
  }

  predicate RowRange(a: int, b: int) { 0 <= a <= H_MAX && 0 <= b <= S_MAX }

  lemma TermExact(a: int, b: int)
    requires RowRange(a, b)
    ensures WrapMul(a, b) == a * b && 0 <= a * b <= H_MAX * S_MAX
  {
    ProductBound(a, b, H_MAX, S_MAX);
    SmallMod(a * b, U64_LIMIT);
  }

  lemma WrapAddExact(x: int, y: int)
    requires 0 <= x + y < U64_LIMIT
    ensures WrapAdd(x, y) == x + y
  {
    SmallMod(x + y, U64_LIMIT);
  }

  lemma SumExact(p0: int, p1: int, p2: int, p3: int, p4: int, bound: int)
    requires 0 <= p0 <= bound && 0 <= p1 <= bound && 0 <= p2 <= bound && 0 <= p3 <= bound && 0 <= p4 <= bound
    requires 5 * bound < U64_LIMIT
    ensures WrapAdd(WrapAdd(WrapAdd(WrapAdd(p0, p1), p2), p3), p4) == p0 + p1 + p2 + p3 + p4
  {
    hide WrapAdd;
    WrapAddExact(p0, p1);
    WrapAddExact(p0 + p1, p2);
    WrapAddExact(p0 + p1 + p2, p3);
    WrapAddExact(p0 + p1 + p2 + p3, p4);
  }

  function Dot(a0: int, b0: int, a1: int, b1: int, a2: int, b2: int, a3: int, b3: int, a4: int, b4: int): (r: int) {
    a0 * b0 + a1 * b1 + a2 * b2 + a3 * b3 + a4 * b4
  }

  /** No operation in a row wraps. */
  lemma RowExact(a0: int, b0: int, a1: int, b1: int, a2: int, b2: int, a3: int, b3: int, a4: int, b4: int)
    requires RowRange(a0, b0) && RowRange(a1, b1) && RowRange(a2, b2) && RowRange(a3, b3) && RowRange(a4, b4)
    ensures Row(a0, b0, a1, b1, a2, b2, a3, b3, a4, b4) == Dot(a0, b0, a1, b1, a2, b2, a3, b3, a4, b4)
    ensures 0 <= Row(a0, b0, a1, b1, a2, b2, a3, b3, a4, b4) <= D_MAX
  {
    hide WrapMul, WrapAdd;
    TermExact(a0, b0); TermExact(a1, b1); TermExact(a2, b2); TermExact(a3, b3); TermExact(a4, b4);
    assert 5 * (H_MAX * S_MAX) <= D_MAX;
    SumExact(a0 * b0, a1 * b1, a2 * b2, a3 * b3, a4 * b4, H_MAX * S_MAX);
  }

  /** The carry chain of `process_block`. */
  function CarryChain(d: Limbs): (h: Limbs) {
    var d0 := d.l0;
    var d1 := WrapAdd(d.l1, d0 / R26);
    var d2 := WrapAdd(d.l2, d1 / R26);
    var d3 := WrapAdd(d.l3, d2 / R26);
    var d4 := WrapAdd(d.l4, d3 / R26);
    var h0 := WrapAdd(d0 % R26, WrapMul(d4 / R26, 5));
    Limbs(h0 % R26, WrapAdd(d1 % R26, h0 / R26), d2 % R26, d3 % R26, d4 % R26)
  }

  lemma CarryChainReduces(d: Limbs)
    requires 0 <= d.l0 <= D_MAX && 0 <= d.l1 <= D_MAX && 0 <= d.l2 <= D_MAX && 0 <= d.l3 <= D_MAX && 0 <= d.l4 <= D_MAX
    ensures Reduced(CarryChain(d))
    ensures Value(CarryChain(d)) % P == Value(d) % P
  {
    hide WrapAdd, WrapMul, Value;
    var q0, r0 := d.l0 / R26, d.l0 % R26;
    WrapAddExact(d.l1, q0);
    var q1, r1 := (d.l1 + q0) / R26, (d.l1 + q0) % R26;
    WrapAddExact(d.l2, q1);
    var q2, r2 := (d.l2 + q1) / R26, (d.l2 + q1) % R26;
    WrapAddExact(d.l3, q2);
    var q3, r3 := (d.l3 + q2) / R26, (d.l3 + q2) % R26;
    WrapAddExact(d.l4, q3);
    var q4, r4 := (d.l4 + q3) / R26, (d.l4 + q3) % R26;
    WrapMulSmall(q4, 5);
    WrapAddExact(r0, 5 * q4);
    var q5, r5 := (r0 + 5 * q4) / R26, (r0 + 5 * q4) % R26;
    WrapAddExact(r1, q5);
    assert CarryChain(d) == Limbs(r5, r1 + q5, r2, r3, r4);
    CarryCongruence(d, q0, r0, q1, r1, q2, r2, q3, r3, q4, r4, q5, r5);
  }

  lemma CarryCongruence(d: Limbs, q0: int, r0: int, q1: int, r1: int, q2: int, r2: int, q3: int, r3: int, q4: int,
      r4: int, q5: int, r5: int)
    requires d.l0 == R26 * q0 + r0 && d.l1 + q0 == R26 * q1 + r1 && d.l2 + q1 == R26 * q2 + r2
    requires d.l3 + q2 == R26 * q3 + r3 && d.l4 + q3 == R26 * q4 + r4 && r0 + 5 * q4 == R26 * q5 + r5
    ensures Value(d) % P == Value(Limbs(r5, r1 + q5, r2, r3, r4)) % P
  {
    hide Value;
    CarryIdentity(d, q0, r0, q1, r1, q2, r2, q3, r3, q4, r4, q5, r5);
    ModMultiple(Value(d), Value(Limbs(r5, r1 + q5, r2, r3, r4)), q4, P);
  }

  lemma WrapMulSmall(x: int, k: int)
    requires 0 <= x * k < U64_LIMIT
    ensures WrapMul(x, k) == x * k
  {
    SmallMod(x * k, U64_LIMIT);
  }

  lemma CarryIdentity(d: Limbs, q0: int, r0: int, q1: int, r1: int, q2: int, r2: int, q3: int, r3: int, q4: int,
      r4: int, q5: int, r5: int)
    requires d.l0 == R26 * q0 + r0 && d.l1 + q0 == R26 * q1 + r1 && d.l2 + q1 == R26 * q2 + r2
    requires d.l3 + q2 == R26 * q3 + r3 && d.l4 + q3 == R26 * q4 + r4 && r0 + 5 * q4 == R26 * q5 + r5
    ensures Value(d) == Value(Limbs(r5, r1 + q5, r2, r3, r4)) + q4 * P
  {}

  /** Limb-wise sum of accumulator and block. */
  function AddBlock(h: Limbs, t0: u64, t1: u64, hibit: int): (r: Limbs) {
    var m := SplitBlock(t0, t1);
    Limbs(WrapAdd(h.l0, m.l0), WrapAdd(h.l1, m.l1), WrapAdd(h.l2, m.l2), WrapAdd(h.l3, m.l3),
        WrapAdd(h.l4, m.l4 + hibit))
  }

  lemma AddBlockExact(h: Limbs, t0: u64, t1: u64, hibit: int)
    requires Reduced(h) && (hibit == 0 || hibit == 0x100_0000)
    ensures var a := AddBlock(h, t0, t1, hibit);
            && Value(a) == Value(h) + t0 + U64_LIMIT * t1 + R104 * hibit
            && 0 <= a.l0 <= H_MAX && 0 <= a.l1 <= H_MAX && 0 <= a.l2 <= H_MAX && 0 <= a.l3 <= H_MAX
            && 0 <= a.l4 <= H_MAX
  {
    SplitBlockValue(t0, t1);
    hide SplitBlock;
    var m := SplitBlock(t0, t1);
    assert AddBlock(h, t0, t1, hibit) == Limbs(h.l0 + m.l0, h.l1 + m.l1, h.l2 + m.l2, h.l3 + m.l3, h.l4 + m.l4 + hibit);
  }

  /** The product rows, with the folded limbs of `r` precomputed. */
  function MulRows(a: Limbs, r: Limbs): (d: Limbs) {
    var s1, s2, s3, s4 := WrapMul(r.l1, 5), WrapMul(r.l2, 5), WrapMul(r.l3, 5), WrapMul(r.l4, 5);
    Limbs(Row(a.l0, r.l0, a.l1, s4, a.l2, s3, a.l3, s2, a.l4, s1),
          Row(a.l0, r.l1, a.l1, r.l0, a.l2, s4, a.l3, s3, a.l4, s2),
          Row(a.l0, r.l2, a.l1, r.l1, a.l2, r.l0, a.l3, s4, a.l4, s3),
          Row(a.l0, r.l3, a.l1, r.l2, a.l2, r.l1, a.l3, r.l0, a.l4, s4),
          Row(a.l0, r.l4, a.l1, r.l3, a.l2, r.l2, a.l3, r.l1, a.l4, r.l0))
  }

  lemma MulRowsExact(a: Limbs, r: Limbs)
    requires 0 <= a.l0 <= H_MAX && 0 <= a.l1 <= H_MAX && 0 <= a.l2 <= H_MAX && 0 <= a.l3 <= H_MAX && 0 <= a.l4 <= H_MAX
    requires Tight(r)
    ensures var d := MulRows(a, r);
            && 0 <= d.l0 <= D_MAX && 0 <= d.l1 <= D_MAX && 0 <= d.l2 <= D_MAX && 0 <= d.l3 <= D_MAX
            && 0 <= d.l4 <= D_MAX
            && Value(d) % P == (Value(a) * Value(r)) % P
  {
    hide WrapMul, Row, Dot, Value;
    var s1, s2, s3, s4 := 5 * r.l1, 5 * r.l2, 5 * r.l3, 5 * r.l4;
    WrapMulSmall(r.l1, 5);
    WrapMulSmall(r.l2, 5);
    WrapMulSmall(r.l3, 5);
    WrapMulSmall(r.l4, 5);
    RowExact(a.l0, r.l0, a.l1, s4, a.l2, s3, a.l3, s2, a.l4, s1);
    RowExact(a.l0, r.l1, a.l1, r.l0, a.l2, s4, a.l3, s3, a.l4, s2);
    RowExact(a.l0, r.l2, a.l1, r.l1, a.l2, r.l0, a.l3, s4, a.l4, s3);
    RowExact(a.l0, r.l3, a.l1, r.l2, a.l2, r.l1, a.l3, r.l0, a.l4, s4);
    RowExact(a.l0, r.l4, a.l1, r.l3, a.l2, r.l2, a.l3, r.l1, a.l4, r.l0);
    FoldRows(a, r, MulRows(a, r));
  }

  lemma Scaled(x: int, y: int, k: int)
    ensures x * (k * y) == k * (x * y)
  {}

  lemma DotFive(a0: int, b0: int, a1: int, b1: int, a2: int, b2: int, a3: int, b3: int, a4: int, b4: int, k1: int,
      k2: int, k3: int, k4: int)
    ensures Dot(a0, b0, a1, k1 * b1, a2, k2 * b2, a3, k3 * b3, a4, k4 * b4)
         == a0 * b0 + k1 * (a1 * b1) + k2 * (a2 * b2) + k3 * (a3 * b3) + k4 * (a4 * b4)
  {
    Scaled(a1, b1, k1);
    Scaled(a2, b2, k2);
    Scaled(a3, b3, k3);
    Scaled(a4, b4, k4);
  }

  /** The rows as the code writes them, with 5 r in place of the folded limbs. */
  lemma FoldRows(a: Limbs, r: Limbs, d: Limbs)
    requires d.l0 == Dot(a.l0, r.l0, a.l1, 5 * r.l4, a.l2, 5 * r.l3, a.l3, 5 * r.l2, a.l4, 5 * r.l1)
    requires d.l1 == Dot(a.l0, r.l1, a.l1, r.l0, a.l2, 5 * r.l4, a.l3, 5 * r.l3, a.l4, 5 * r.l2)
    requires d.l2 == Dot(a.l0, r.l2, a.l1, r.l1, a.l2, r.l0, a.l3, 5 * r.l4, a.l4, 5 * r.l3)
    requires d.l3 == Dot(a.l0, r.l3, a.l1, r.l2, a.l2, r.l1, a.l3, r.l0, a.l4, 5 * r.l4)
    requires d.l4 == Dot(a.l0, r.l4, a.l1, r.l3, a.l2, r.l2, a.l3, r.l1, a.l4, r.l0)
    ensures Value(d) % P == (Value(a) * Value(r)) % P
  {
    hide Value, Dot;
    DotFive(a.l0, r.l0, a.l1, r.l4, a.l2, r.l3, a.l3, r.l2, a.l4, r.l1, 5, 5, 5, 5);
    DotFive(a.l0, r.l1, a.l1, r.l0, a.l2, r.l4, a.l3, r.l3, a.l4, r.l2, 1, 5, 5, 5);
    DotFive(a.l0, r.l2, a.l1, r.l1, a.l2, r.l0, a.l3, r.l4, a.l4, r.l3, 1, 1, 5, 5);
    DotFive(a.l0, r.l3, a.l1, r.l2, a.l2, r.l1, a.l3, r.l0, a.l4, r.l4, 1, 1, 1, 5);
    DotFive(a.l0, r.l4, a.l1, r.l3, a.l2, r.l2, a.l3, r.l1, a.l4, r.l0, 1, 1, 1, 1);
    ProductFold(a, r, d);
    var k := (a.l1 * r.l4 + a.l2 * r.l3 + a.l3 * r.l2 + a.l4 * r.l1) + R26 * (a.l2 * r.l4 + a.l3 * r.l3 + a.l4 * r.l2)
             + R52 * (a.l3 * r.l4 + a.l4 * r.l3) + R78 * (a.l4 * r.l4);
    ModMultiple(Value(a) * Value(r), Value(d), k, P);
  }

  // ----- Key setup ---------------------------------------------------------------------------

  /** `t & 0x0ffffffc0fffffff`: bits 0 to 27 and 34 to 59. */
  function MaskLow(t: int): (r: int)
    requires 0 <= t < U64_LIMIT
    ensures 0 <= r < U64_LIMIT
  {
    t % 0x1000_0000 + t / 0x4_0000_0000 % R26 * 0x4_0000_0000
  }

  /** `t & 0x0ffffffc0ffffffc`: bits 2 to 27 and 34 to 59. */
  function MaskHigh(t: int): (r: int)
    requires 0 <= t < U64_LIMIT
    ensures 0 <= r < U64_LIMIT
  {
    t / 4 % R26 * 4 + t / 0x4_0000_0000 % R26 * 0x4_0000_0000
  }

  /** Eight little-endian bytes as one word. */
  function Word(b0: int, b1: int, b2: int, b3: int, b4: int, b5: int, b6: int, b7: int): (v: int) {
    b0 + 0x100 * b1 + 0x1_0000 * b2 + 0x100_0000 * b3 + 0x1_0000_0000 * b4 + 0x100_0000_0000 * b5
    + 0x1_0000_0000_0000 * b6 + 0x100_0000_0000_0000 * b7
  }

  function Le8(b: seq<u8>): (v: u64)
    requires |b| == 8
  {
    Word(b[0], b[1], b[2], b[3], b[4], b[5], b[6], b[7])
  }

  lemma Le8Value(b: seq<u8>)
    requires |b| == 8
    ensures LeValue(b) == Le8(b)
  {
    assert LeValue(b[7..]) == b[7] by { assert b[7..][1..] == []; }
    assert b[6..][1..] == b[7..] && b[5..][1..] == b[6..] && b[4..][1..] == b[5..] && b[3..][1..] == b[4..];
    assert b[2..][1..] == b[3..] && b[1..][1..] == b[2..];
    var v4 := LeValue(b[4..]);
    assert v4 == b[4] as int + 256 * LeValue(b[5..]);
    assert LeValue(b[5..]) == b[5] as int + 256 * LeValue(b[6..]);
    assert LeValue(b) == b[0] as int + 256 * LeValue(b[1..]);
    assert LeValue(b[2..]) == b[2] as int + 256 * LeValue(b[3..]);
  }

  predicate IsByte(x: int) { 0 <= x < 256 }

  predicate AreBytes(b0: int, b1: int, b2: int, b3: int, b4: int, b5: int, b6: int, b7: int) {
    IsByte(b0) && IsByte(b1) && IsByte(b2) && IsByte(b3) && IsByte(b4) && IsByte(b5) && IsByte(b6) && IsByte(b7)
  }

  lemma HighMask(b0: int, b1: int, b2: int, b3: int, b4: int, b5: int, b6: int, b7: int)
    requires AreBytes(b0, b1, b2, b3, b4, b5, b6, b7)
    ensures Word(b0, b1, b2, b3, b4, b5, b6,
        b7) / 0x4_0000_0000 % R26 == b4 / 4 + 0x40 * b5 + 0x4000 * b6 + 0x40_0000 * (b7 % 16)
  {
    var top := b4 / 4 + 0x40 * b5 + 0x4000 * b6 + 0x40_0000 * b7;
    DivModUnique(Word(b0, b1, b2, b3, b4, b5, b6, b7), top,
        b0 + 0x100 * b1 + 0x1_0000 * b2 + 0x100_0000 * b3 + 0x1_0000_0000 * (b4 % 4), 0x4_0000_0000);
    DivModUnique(top, b7 / 16, b4 / 4 + 0x40 * b5 + 0x4000 * b6 + 0x40_0000 * (b7 % 16), R26);
  }

  lemma MaskLowBytes(b0: int, b1: int, b2: int, b3: int, b4: int, b5: int, b6: int, b7: int)
    requires AreBytes(b0, b1, b2, b3, b4, b5, b6, b7)
    ensures MaskLow(Word(b0, b1, b2, b3, b4, b5, b6, b7)) == Word(b0, b1, b2, b3 % 16, b4 - b4 % 4, b5, b6, b7 % 16)
  {
    var low := b0 + 0x100 * b1 + 0x1_0000 * b2 + 0x100_0000 * (b3 % 16);
    DivModUnique(Word(b0, b1, b2, b3, b4, b5, b6, b7),
        b3 / 16 + 16 * (b4 + 0x100 * b5 + 0x1_0000 * b6 + 0x100_0000 * b7), low, 0x1000_0000);
    HighMask(b0, b1, b2, b3, b4, b5, b6, b7);
  }

  lemma MaskHighBytes(b0: int, b1: int, b2: int, b3: int, b4: int, b5: int, b6: int, b7: int)
    requires AreBytes(b0, b1, b2, b3, b4, b5, b6, b7)
    ensures MaskHigh(Word(b0, b1, b2, b3, b4, b5, b6, b7)) == Word(b0 - b0 % 4, b1, b2, b3 % 16, b4 - b4 % 4, b5, b6,
        b7 % 16)
  {
    var upper := b4 + 0x100 * b5 + 0x1_0000 * b6 + 0x100_0000 * b7;
    var q := b0 / 4 + 0x40 * b1 + 0x4000 * b2 + 0x40_0000 * b3 + 0x4000_0000 * upper;
    DivModUnique(Word(b0, b1, b2, b3, b4, b5, b6, b7), q, b0 % 4, 4);
    var low := b0 / 4 + 0x40 * b1 + 0x4000 * b2 + 0x40_0000 * (b3 % 16);
    DivModUnique(q, b3 / 16 + 16 * upper, low, R26);
    HighMask(b0, b1, b2, b3, b4, b5, b6, b7);
  }

  function KeyLimbs(key: seq<u8>): (r: Limbs)
    requires |key| == 32
  {
    SplitBlock(MaskLow(Le8(key[..8])), MaskHigh(Le8(key[8..16])))
  }

  lemma ClampLow(b: seq<u8>, c: seq<u8>)
    requires |b| == 8 && c == [b[0], b[1], b[2], b[3] % 16, b[4] - b[4] % 4, b[5], b[6], b[7] % 16]
    ensures MaskLow(Le8(b)) == LeValue(c)
  {
    hide MaskLow, LeValue;
    MaskLowBytes(b[0], b[1], b[2], b[3], b[4], b[5], b[6], b[7]);
    Le8Value(c);
  }

  lemma ClampHigh(b: seq<u8>, c: seq<u8>)
    requires |b| == 8 && c == [b[0] - b[0] % 4, b[1], b[2], b[3] % 16, b[4] - b[4] % 4, b[5], b[6], b[7] % 16]
    ensures MaskHigh(Le8(b)) == LeValue(c)
  {
    hide MaskHigh, LeValue;
    MaskHighBytes(b[0], b[1], b[2], b[3], b[4], b[5], b[6], b[7]);
    Le8Value(c);
  }

  /** The clamped limbs hold the clamped key. */
  lemma KeyLimbsValue(key: seq<u8>)
    requires |key| == 32
    ensures Tight(KeyLimbs(key)) && Value(KeyLimbs(key)) == KeyR(key)
  {
    hide MaskLow, MaskHigh, Le8, SplitBlock, Power256, LeValue, Value, Tight;
    var lo, hi := key[..8], key[8..16];
    var c := ClampBytes(key[..16]);
    ClampLow(lo, c[..8]);
    ClampHigh(hi, c[8..]);
    assert c == c[..8] + c[8..];
    LeConcat(c[..8], c[8..]);
    PowersOf256();
    SplitBlockValue(MaskLow(Le8(lo)), MaskHigh(Le8(hi)));
  }

  // ----- How far the second limb goes ----------------------------------------------------------

  lemma AddBlockLimbs(h: Limbs, t0: u64, t1: u64, hibit: int)
    requires Reduced(h) && (hibit == 0 || hibit == 0x100_0000)
    ensures var a := AddBlock(h, t0, t1, hibit);
            && a.l0 < 0x800_0000 && a.l2 < 0x800_0000 && a.l3 < 0x800_0000 && a.l4 < 0x800_0000
            && a.l1 == h.l1 + t0 / R26 % R26
  {
    hide Value, OrDisjoint;
    SplitBlockValue(t0, t1);
    SmallMod(h.l1 + t0 / R26 % R26, U64_LIMIT);
  }

  /** With a block added, the second limb stays below 2^27 whatever the block if and only if it
      was at most 2^26; the other four always do. */
  lemma SecondLimbBelowIff(h: Limbs)
    requires Reduced(h)
    ensures (forall t0: u64, t1: u64, hibit: int | hibit == 0 || hibit == 0x100_0000 ::
               AddBlock(h, t0, t1, hibit).l1 < 0x800_0000) <==> h.l1 <= R26
    ensures forall t0: u64, t1: u64, hibit: int | hibit == 0 || hibit == 0x100_0000 ::
              var a := AddBlock(h, t0, t1, hibit);
              a.l0 < 0x800_0000 && a.l2 < 0x800_0000 && a.l3 < 0x800_0000 && a.l4 < 0x800_0000
  {
    hide AddBlock;
    forall t0: u64, t1: u64, hibit: int | hibit == 0 || hibit == 0x100_0000
      ensures var a := AddBlock(h, t0, t1, hibit);
              && a.l0 < 0x800_0000 && a.l2 < 0x800_0000 && a.l3 < 0x800_0000 && a.l4 < 0x800_0000
              && a.l1 == h.l1 + t0 / R26 % R26
    {
      AddBlockLimbs(h, t0, t1, hibit);
    }
    assert AddBlock(h, U64_MAX, 0, 0).l1 == h.l1 + R26 - 1;
  }

  lemma KeyOfOnes()
    ensures KeyLimbs(seq(32, _ => 255)) == Limbs(0x3ff_ffff, 0x3ff_ff03, 0x3ff_c0ff, 0x3f0_3fff, 0xf_ffff)
  {
    hide Le8, MaskLow, MaskHigh, SplitBlock;
    var key := seq(32, _ => 255);
    WordOfOnes(key[..8]);
    WordOfOnes(key[8..16]);
    MasksOfOnes();
    SplitOfOnes();
  }

  lemma WordOfOnes(b: seq<u8>)
    requires |b| == 8 && forall i :: 0 <= i < 8 ==> b[i] == 255
    ensures Le8(b) == U64_MAX
  {
    assert b[0] == 255 && b[1] == 255 && b[2] == 255 && b[3] == 255;
    assert b[4] == 255 && b[5] == 255 && b[6] == 255 && b[7] == 255;
  }

  lemma MasksOfOnes()
    ensures MaskLow(U64_MAX) == 0xfff_fffc_0fff_ffff && MaskHigh(U64_MAX) == 0xfff_fffc_0fff_fffc
  {}

  lemma SplitOfOnes()
    ensures SplitBlock(0xfff_fffc_0fff_ffff, 0xfff_fffc_0fff_fffc)
         == Limbs(0x3ff_ffff, 0x3ff_ff03, 0x3ff_c0ff, 0x3f0_3fff, 0xf_ffff)
  {
    assert 0xfff_fffc_0fff_ffff / R26 == 0x3_ffff_ff03 && 0xfff_fffc_0fff_ffff / R52 == 0xff;
    assert 0xfff_fffc_0fff_fffc * 0x1000 % U64_LIMIT == 0xffff_c0ff_ffff_c000;
  }

  const ROWS_OF_ONES: Limbs := Limbs(0x89_0404_2545_6b26, 0x8b_dfc1_35be_feee, 0x3f_177c_3306_4806,
                                     0x26_f1b9_e562_d816, 0x25_811b_0071_5d12)

  lemma RowsOfOnes()
    ensures MulRows(Limbs(0x23a_1673, 0x305_ec7a, 0x5d_5fff, 0x3ff_ffff, 0x1ff_ffff),
                    Limbs(0x3ff_ffff, 0x3ff_ff03, 0x3ff_c0ff, 0x3f0_3fff, 0xf_ffff))
         == ROWS_OF_ONES
  {
    hide Row, WrapMul;
    WrapMulSmall(0x3ff_ff03, 5);
    WrapMulSmall(0x3ff_c0ff, 5);
    WrapMulSmall(0x3f0_3fff, 5);
    WrapMulSmall(0xf_ffff, 5);
    RowExact(0x23a_1673, 0x3ff_ffff, 0x305_ec7a, 0x4f_fffb, 0x5d_5fff, 0x13b1_3ffb, 0x3ff_ffff, 0x13fe_c4fb,
        0x1ff_ffff, 0x13ff_fb0f);
    RowExact(0x23a_1673, 0x3ff_ff03, 0x305_ec7a, 0x3ff_ffff, 0x5d_5fff, 0x4f_fffb, 0x3ff_ffff, 0x13b1_3ffb, 0x1ff_ffff,
        0x13fe_c4fb);
    RowExact(0x23a_1673, 0x3ff_c0ff, 0x305_ec7a, 0x3ff_ff03, 0x5d_5fff, 0x3ff_ffff, 0x3ff_ffff, 0x4f_fffb, 0x1ff_ffff,
        0x13b1_3ffb);
    RowExact(0x23a_1673, 0x3f0_3fff, 0x305_ec7a, 0x3ff_c0ff, 0x5d_5fff, 0x3ff_ff03, 0x3ff_ffff, 0x3ff_ffff, 0x1ff_ffff,
        0x4f_fffb);
    RowExact(0x23a_1673, 0xf_ffff, 0x305_ec7a, 0x3f0_3fff, 0x5d_5fff, 0x3ff_c0ff, 0x3ff_ffff, 0x3ff_ff03, 0x1ff_ffff,
        0x3ff_ffff);
  }

  lemma FirstBlockOfOnes()
    ensures AddBlock(Limbs(0, 0, 0, 0, 0), 0xfffc_17b1_ea3a_1673, 0xffff_ffff_ffff_c5d5, 0x100_0000)
         == Limbs(0x23a_1673, 0x305_ec7a, 0x5d_5fff, 0x3ff_ffff, 0x1ff_ffff)
  {
    assert 0xfffc_17b1_ea3a_1673 / R26 == 0x3f_ff05_ec7a && 0xfffc_17b1_ea3a_1673 / R52 == 0xfff;
    assert 0xffff_ffff_ffff_c5d5 * 0x1000 % U64_LIMIT == 0xffff_ffff_fc5d_5000;
    assert SplitBlock(0xfffc_17b1_ea3a_1673, 0xffff_ffff_ffff_c5d5)
        == Limbs(0x23a_1673, 0x305_ec7a, 0x5d_5fff, 0x3ff_ffff, 0xff_ffff);
  }

  lemma CarryOfOnes()
    ensures CarryChain(ROWS_OF_ONES).l1 == R26 + 3
  {
    hide WrapAdd, WrapMul;
    WrapAddExact(0x8b_dfc1_35be_feee, 0x2241_0109);
    WrapAddExact(0x3f_177c_3306_4806, 0x22f7_f055);
    WrapAddExact(0x26_f1b9_e562_d816, 0xfc5_df15);
    WrapAddExact(0x25_811b_0071_5d12, 0x9bc_6e7d);
    WrapMulSmall(0x960_46c2, 5);
    WrapAddExact(0x145_6b26, 0x2ee1_61ca);
    WrapAddExact(0x3ff_fff7, 0xc);
  }

  /** Such a limb occurs: under the key of all ones one block takes the second limb past 2^26,
      and the next block takes it past 2^27. */
  lemma SecondLimbReaches27()
    ensures var r := KeyLimbs(seq(32, _ => 255));
            var h := ProcessLimbs(Limbs(0, 0, 0, 0, 0), r, 0xfffc_17b1_ea3a_1673, 0xffff_ffff_ffff_c5d5, 0x100_0000);
            && h.l1 == R26 + 3
            && AddBlock(h, U64_MAX, U64_MAX, 0x100_0000).l1 > 0x800_0000
  {
    hide KeyLimbs, MulRows, CarryChain, AddBlock;
    KeyOfOnes();
    RowsOfOnes();
    FirstBlockOfOnes();
    CarryOfOnes();
    CarryChainReduces(ROWS_OF_ONES);
    AddBlockLimbs(CarryChain(ROWS_OF_ONES), U64_MAX, U64_MAX, 0x100_0000);
  }

  // ----- Finishing ------------------------------------------------------------------------------

  /** First pass of `finalize`: carry everything once around. */
  function CarryAround(h: Limbs): (r: Limbs) {
    var h2 := WrapAdd(h.l2, h.l1 / R26);
    var h3 := WrapAdd(h.l3, h2 / R26);
    var h4 := WrapAdd(h.l4, h3 / R26);
    var h0 := WrapAdd(h.l0, WrapMul(h4 / R26, 5));
    Limbs(h0 % R26, WrapAdd(h.l1 % R26, h0 / R26), h2 % R26, h3 % R26, h4 % R26)
  }

  lemma CarryAroundTight(h: Limbs)
    requires Reduced(h)
    ensures Tight(CarryAround(h)) && Value(CarryAround(h)) % P == Value(h) % P
  {
    hide WrapAdd, WrapMul;
    var q1, r1 := h.l1 / R26, h.l1 % R26;
    WrapAddExact(h.l2, q1);
    var q2, r2 := (h.l2 + q1) / R26, (h.l2 + q1) % R26;
    WrapAddExact(h.l3, q2);
    var q3, r3 := (h.l3 + q2) / R26, (h.l3 + q2) % R26;
    WrapAddExact(h.l4, q3);
    var q4, r4 := (h.l4 + q3) / R26, (h.l4 + q3) % R26;
    WrapMulSmall(q4, 5);
    WrapAddExact(h.l0, 5 * q4);
    var q0, r0 := (h.l0 + 5 * q4) / R26, (h.l0 + 5 * q4) % R26;
    assert q4 > 0 ==> r1 < 0x400;
    assert q4 == 0 ==> q0 == 0;
    WrapAddExact(r1, q0);
    assert CarryAround(h) == Limbs(r0, r1 + q0, r2, r3, r4);
    assert Value(h) == Value(CarryAround(h)) + q4 * P;
    ModMultiple(Value(h), Value(CarryAround(h)), q4, P);
  }

  /** `(y & !mask) | (x & mask)` for a mask of all ones or all zeros. */
  function Select(mask: int, x: int, y: int): (r: int)
    requires mask == 0 || mask == U64_MAX
  {
    if mask == U64_MAX then x else y
  }

  /** `(g >> 63) - 1`, wrapping: all ones exactly when the sign bit is clear. */
  function SignMask(g: int): (mask: int)
    requires 0 <= g < U64_LIMIT
    ensures mask == if g < 0x8000_0000_0000_0000 then U64_MAX else 0
  {
    (g / 0x8000_0000_0000_0000 - 1) % U64_LIMIT
  }

  /** Second pass: subtract P once, in constant time, when the value reaches it. */
  function SubtractOnce(h: Limbs): (r: Limbs)
    requires Tight(h)
  {
    var g0 := WrapAdd(h.l0, 5);
    var g1 := WrapAdd(h.l1, g0 / R26);
    var g2 := WrapAdd(h.l2, g1 / R26);
    var g3 := WrapAdd(h.l3, g2 / R26);
    var g4 := (WrapAdd(h.l4, g3 / R26) - R26) % U64_LIMIT;
    var mask := SignMask(g4);
    Limbs(Select(mask, g0 % R26, h.l0), Select(mask, g1 % R26, h.l1), Select(mask, g2 % R26, h.l2),
          Select(mask, g3 % R26, h.l3), Select(mask, g4 % R26, h.l4))
  }

  lemma SubtractOnceReduces(h: Limbs)
    requires Tight(h)
    ensures Tight(SubtractOnce(h)) && Value(SubtractOnce(h)) == Value(h) % P
  {
    hide WrapAdd;
    WrapAddExact(h.l0, 5);
    var q0, r0 := (h.l0 + 5) / R26, (h.l0 + 5) % R26;
    WrapAddExact(h.l1, q0);
    var q1, r1 := (h.l1 + q0) / R26, (h.l1 + q0) % R26;
    WrapAddExact(h.l2, q1);
    var q2, r2 := (h.l2 + q1) / R26, (h.l2 + q1) % R26;
    WrapAddExact(h.l3, q2);
    var q3, r3 := (h.l3 + q2) / R26, (h.l3 + q2) % R26;
    WrapAddExact(h.l4, q3);
    var top := h.l4 + q3;
    assert Value(h) + 5 == Value(Limbs(r0, r1, r2, r3, top));
    var g4 := (top - R26) % U64_LIMIT;
    if top >= R26 {
      assert g4 == top - R26;
      assert SubtractOnce(h) == Limbs(r0, r1, r2, r3, g4 % R26);
      assert top == R26;
      assert Value(SubtractOnce(h)) == Value(h) - P;
      DivModUnique(Value(h), 1, Value(h) - P, P);
    } else {
      assert g4 == top - R26 + U64_LIMIT;
      assert g4 / 0x8000_0000_0000_0000 == 1;
      assert SubtractOnce(h) == h;
      SmallMod(Value(h), P);
    }
  }

  const W32: int := 0x1_0000_0000

  /** Four 32-bit words of the low 128 bits: `(h0 | h1 << 26) as u32` and so on. */
  function PackWords(h: Limbs): (w: (int, int, int, int))
    requires Tight(h)
  {
    (OrDisjoint(h.l0, h.l1 * R26, R26) % W32,
     OrDisjoint(h.l1 / 0x40, h.l2 * 0x10_0000, 0x10_0000) % W32,
     OrDisjoint(h.l2 / 0x1000, h.l3 * 0x4000, 0x4000) % W32,
     OrDisjoint(h.l3 / 0x4_0000, h.l4 * 0x100, 0x100) % W32)
  }

  function Value32(w: (int, int, int, int)): (v: int) {
    w.0 + W32 * w.1 + W32 * W32 * w.2 + W32 * W32 * W32 * w.3
  }

  predicate Words(w: (int, int, int, int)) {
    0 <= w.0 < W32 && 0 <= w.1 < W32 && 0 <= w.2 < W32 && 0 <= w.3 < W32
  }

  lemma PackWordsValue(h: Limbs)
    requires Tight(h)
    ensures Words(PackWords(h)) && Value32(PackWords(h)) == Value(h) % TWO128
  {
    var a1, b1 := h.l1 / 0x40, h.l1 % 0x40;
    var a2, b2 := h.l2 / 0x1000, h.l2 % 0x1000;
    var a3, b3 := h.l3 / 0x4_0000, h.l3 % 0x4_0000;
    var a4, b4 := h.l4 / 0x100_0000, h.l4 % 0x100_0000;
    PackWordsExact(h, a1, b1, a2, b2, a3, b3, a4, b4);
    PackIdentity(h, a1, b1, a2, b2, a3, b3, a4, b4);
    DivModUnique(Value(h), a4, Value32(PackWords(h)), TWO128);
  }

  lemma PackWordsExact(h: Limbs, a1: int, b1: int, a2: int, b2: int, a3: int, b3: int, a4: int, b4: int)
    requires Tight(h) && 0 <= b1 < 0x40 && 0 <= b2 < 0x1000 && 0 <= b3 < 0x4_0000 && 0 <= b4 < 0x100_0000
    requires h.l1 == 0x40 * a1 + b1 && h.l2 == 0x1000 * a2 + b2 && h.l3 == 0x4_0000 * a3 + b3
      && h.l4 == 0x100_0000 * a4 + b4
    ensures PackWords(h) == (h.l0 + R26 * b1, a1 + 0x10_0000 * b2, a2 + 0x4000 * b3, a3 + 0x100 * b4)
    ensures Words(PackWords(h))
  {
    hide OrDisjoint;
    DivModUnique(h.l1, a1, b1, 0x40);
    DivModUnique(h.l2, a2, b2, 0x1000);
    DivModUnique(h.l3, a3, b3, 0x4_0000);
    PackOne(h.l0, h.l1, R26, 0x40, a1, b1);
    PackOne(a1, h.l2, 0x10_0000, 0x1000, a2, b2);
    PackOne(a2, h.l3, 0x4000, 0x4_0000, a3, b3);
    PackOne(a3, h.l4, 0x100, 0x100_0000, a4, b4);
  }

  lemma PackOne(lo: int, l: int, scale: int, kept: int, a: int, b: int)
    requires 0 <= lo < scale && 0 <= l && 0 <= b < kept && l == kept * a + b && scale * kept == W32
    ensures l * scale % scale == 0 && l * scale >= 0
    ensures OrDisjoint(lo, l * scale, scale) % W32 == lo + scale * b && 0 <= lo + scale * b < W32
  {
    DivModUnique(l * scale, l, 0, scale);
    PackLow(lo, l, scale, kept, a, b, W32);
  }

  lemma PackIdentity(h: Limbs, a1: int, b1: int, a2: int, b2: int, a3: int, b3: int, a4: int, b4: int)
    requires h.l1 == 0x40 * a1 + b1 && h.l2 == 0x1000 * a2 + b2 && h.l3 == 0x4_0000 * a3 + b3
      && h.l4 == 0x100_0000 * a4 + b4
    ensures Value(h) == a4 * TWO128 + Value32((h.l0 + R26 * b1, a1 + 0x10_0000 * b2, a2 + 0x4000 * b3, a3 + 0x100 * b4))
  {}

  /** The four-word addition with its carries. */
  function AddWords(w: (int, int, int, int), p: (int, int, int, int)): (o: (int, int, int, int)) {
    var f0 := WrapAdd(w.0, p.0);
    var f1 := WrapAdd(WrapAdd(w.1, p.1), f0 / W32);
    var f2 := WrapAdd(WrapAdd(w.2, p.2), f1 / W32);
    var f3 := WrapAdd(WrapAdd(w.3, p.3), f2 / W32);
    (f0 % W32, f1 % W32, f2 % W32, f3 % W32)
  }

  lemma AddWordsValue(w: (int, int, int, int), p: (int, int, int, int))
    requires Words(w) && Words(p)
    ensures Words(AddWords(w, p)) && Value32(AddWords(w, p)) == (Value32(w) + Value32(p)) % TWO128
  {
    hide WrapAdd;
    var q0, r0 := WordStep(w.0, p.0, 0);
    var q1, r1 := WordStep(w.1, p.1, q0);
    var q2, r2 := WordStep(w.2, p.2, q1);
    var q3, r3 := WordStep(w.3, p.3, q2);
    WrapAddExact(w.0, p.0);
    WrapAddExact(w.0 + p.0, 0);
    assert AddWords(w, p) == (r0, r1, r2, r3);
    WordIdentity(w, p, q0, r0, q1, r1, q2, r2, q3, r3);
    DivModUnique(Value32(w) + Value32(p), q3, Value32((r0, r1, r2, r3)), TWO128);
  }

  /** One word of the addition never wraps and yields a carry of at most one. */
  lemma WordStep(a: int, b: int, carry: int) returns (q: int, r: int)
    requires 0 <= a < W32 && 0 <= b < W32 && 0 <= carry <= 1
    ensures 0 <= q <= 1 && 0 <= r < W32 && a + b + carry == W32 * q + r
    ensures WrapAdd(WrapAdd(a, b), carry) / W32 == q && WrapAdd(WrapAdd(a, b), carry) % W32 == r
  {
    hide WrapAdd;
    WrapAddExact(a, b);
    WrapAddExact(a + b, carry);
    q, r := (a + b + carry) / W32, (a + b + carry) % W32;
  }

  lemma WordIdentity(w: (int, int, int, int), p: (int, int, int, int), q0: int, r0: int, q1: int, r1: int, q2: int,
      r2: int, q3: int, r3: int)
    requires w.0 + p.0 == W32 * q0 + r0 && w.1 + p.1 + q0 == W32 * q1 + r1
    requires w.2 + p.2 + q1 == W32 * q2 + r2 && w.3 + p.3 + q2 == W32 * q3 + r3
    ensures Value32(w) + Value32(p) == q3 * TWO128 + Value32((r0, r1, r2, r3))
  {}

  function PadWords(key: seq<u8>): (p: (int, int, int, int))
    requires |key| == 32
  {
    (LeValue(key[16..20]), LeValue(key[20..24]), LeValue(key[24..28]), LeValue(key[28..]))
  }

  function FourWordBytes(w: (int, int, int, int)): (b: seq<u8>)
    requires Words(w)
    ensures |b| == 16
  {
    ToLe(w.0, 4) + ToLe(w.1, 4) + ToLe(w.2, 4) + ToLe(w.3, 4)
  }

  /** Four little-endian words side by side. */
  lemma FourWordValue(a: seq<u8>, b: seq<u8>, c: seq<u8>, d: seq<u8>)
    requires |a| == |b| == |c| == |d| == 4
    ensures LeValue(a + b + c + d) == Value32((LeValue(a), LeValue(b), LeValue(c), LeValue(d)))
    ensures Words((LeValue(a), LeValue(b), LeValue(c), LeValue(d)))
  {
    hide LeValue;
    LeConcat(a + b + c, d);
    LeConcat(a + b, c);
    LeConcat(a, b);
    LeBound(a); LeBound(b); LeBound(c); LeBound(d);
    assert Power256(4) == W32 && Power256(8) == W32 * W32 && Power256(12) == W32 * W32 * W32;
  }

  lemma PadWordsValue(key: seq<u8>)
    requires |key| == 32
    ensures Words(PadWords(key)) && Value32(PadWords(key)) == LeValue(key[16..])
  {
    assert key[16..] == key[16..20] + key[20..24] + key[24..28] + key[28..];
    FourWordValue(key[16..20], key[20..24], key[24..28], key[28..]);
  }

  lemma WordBytesValue(w: (int, int, int, int))
    requires Words(w)
    ensures FourWordBytes(w) == ToLe(Value32(w), 16)
  {
    hide LeValue, ToLe;
    PowersOf256();
    LeRoundTrip(w.0, 4); LeRoundTrip(w.1, 4); LeRoundTrip(w.2, 4); LeRoundTrip(w.3, 4);
    FourWordValue(ToLe(w.0, 4), ToLe(w.1, 4), ToLe(w.2, 4), ToLe(w.3, 4));
    LeInverse(FourWordBytes(w));
  }

  /** The whole of `finalize` after the last block: full reduction, packing, adding `s`. */
  function Finish(h: Limbs, key: seq<u8>): (t: seq<u8>)
    requires Reduced(h) && |key| == 32
    ensures |t| == 16
  {
    CarryAroundTight(h);
    SubtractOnceReduces(CarryAround(h));
    PackWordsValue(SubtractOnce(CarryAround(h)));
    PadWordsValue(key);
    AddWordsValue(PackWords(SubtractOnce(CarryAround(h))), PadWords(key));
    FourWordBytes(AddWords(PackWords(SubtractOnce(CarryAround(h))), PadWords(key)))
  }

  /** The tag is the fully reduced accumulator plus `s`, modulo 2^128. */
  lemma FinishIsTag(h: Limbs, key: seq<u8>)
    requires Reduced(h) && |key| == 32
    ensures Finish(h, key) == ToLe((Value(h) % P + LeValue(key[16..])) % TWO128, 16)
  {
    hide CarryAround, SubtractOnce, PackWords, AddWords, PadWords, FourWordBytes, LeValue, ToLe, Value, Value32,
      Words;
    CarryAroundTight(h);
    var t := SubtractOnce(CarryAround(h));
    SubtractOnceReduces(CarryAround(h));
    assert Value(t) == Value(h) % P;
    PackWordsValue(t);
    PadWordsValue(key);
    AddWordsValue(PackWords(t), PadWords(key));
    WordBytesValue(AddWords(PackWords(t), PadWords(key)));
    ModMod(Value(t), TWO128);
    ModMod(LeValue(key[16..]), TWO128);
    ModAdd(Value(t) % TWO128, LeValue(key[16..]), Value(t), LeValue(key[16..]), TWO128);
  }

  // ----- One block ------------------------------------------------------------------------------

  /** The whole of `process_block`, on values. */
  function ProcessLimbs(h: Limbs, r: Limbs, t0: u64, t1: u64, hibit: int): (a: Limbs) {
    CarryChain(MulRows(AddBlock(h, t0, t1, hibit), r))
  }

  /** A block step is one step of the polynomial modulo P, with no u64 operation wrapping. */
  lemma ProcessLimbsCorrect(h: Limbs, r: Limbs, t0: u64, t1: u64, hibit: int)
    requires Reduced(h) && Tight(r) && (hibit == 0 || hibit == 0x100_0000)
    ensures Reduced(ProcessLimbs(h, r, t0, t1, hibit))
    ensures Value(ProcessLimbs(h, r, t0, t1, hibit)) % P
      == ((Value(h) + t0 + U64_LIMIT * t1 + R104 * hibit) * Value(r)) % P
  {
    hide AddBlock, MulRows, CarryChain, Value;
    AddBlockExact(h, t0, t1, hibit);
    MulRowsExact(AddBlock(h, t0, t1, hibit), r);
    CarryChainReduces(MulRows(AddBlock(h, t0, t1, hibit), r));
  }

  lemma BlockWords(block: seq<u8>)
    requires |block| == 16
    ensures LeValue(block) == Le8(block[..8]) + U64_LIMIT * Le8(block[8..])
  {
    hide LeValue, Le8;
    assert block == block[..8] + block[8..];
    LeConcat(block[..8], block[8..]);
    PowersOf256();
    Le8Value(block[..8]);
    Le8Value(block[8..]);
  }

  /** Congruent accumulators stay congruent. */
  lemma AbsorbCongruent(v: int, acc: int, m: int, r: int)
    requires v % P == acc % P
    ensures ((v + m) * r) % P == ((acc + m) * r) % P
  {
    ModAdd(v, m, acc, m, P);
    ModMul(v + m, r, acc + m, r, P);
  }

  /** The final partial block: a one byte, then zeros. */
  function Terminated(tail: seq<u8>): (b: seq<u8>)
    requires |tail| < 16
    ensures |b| == 16
  {
    tail + [1] + seq(15 - |tail|, _ => 0)
  }

  lemma {:induction false} ZerosValue(n: nat)
    ensures LeValue(seq(n, _ => 0)) == 0
  {
    if n > 0 {
      ZerosValue(n - 1);
      assert seq(n, _ => 0)[1..] == seq(n - 1, _ => 0);
    }
  }

  lemma TerminatedValue(tail: seq<u8>)
    requires |tail| < 16
    ensures LeValue(Terminated(tail)) == BlockValue(tail)
  {
    hide LeValue, Power256;
    var zeros := seq(15 - |tail|, _ => 0);
    ZerosValue(15 - |tail|);
    LeConcat(tail + [1], zeros);
    LeConcat(tail, [1]);
    OneByte();
  }

  lemma OneByte()
    ensures LeValue([1]) == 1
  {
    assert [1][1..] == [];
  }

  // ----- The streaming authenticator -----------------------------------------------------------------

  /** `h` is the polynomial over the whole blocks `whole`. */
  ghost predicate Holds(key: seq<u8>, h: Limbs, whole: seq<u8>)
    requires |key| == 32
  {
    |whole| % 16 == 0 && Reduced(h) && Value(h) % P == Accumulate(0, whole, KeyR(key))
  }

  class Authenticator {
    const key: seq<u8>
    const r: Limbs
    const pad: (int, int, int, int)
    var h: Limbs
    const buf: array<u8>
    var bufLen: nat
    /** The whole blocks that have gone into `h`. */
    ghost var whole: seq<u8>

    ghost predicate Valid()
      reads this, buf
    {
      && |key| == 32 && r == KeyLimbs(key) && pad == PadWords(key)
      && buf.Length == 16 && bufLen < 16 && |whole| % 16 == 0
      && Holds(key, h, whole)
    }

    /** Everything absorbed so far. */
    ghost function Absorbed(): (s: seq<u8>)
      requires Valid()
      reads this, buf
    {
      whole + buf[..bufLen]
    }

    constructor (k: seq<u8>)
      requires |k| == 32
      ensures Valid() && key == k && Absorbed() == [] && bufLen == 0 && fresh(buf)
    {
      key := k;
      var t0 := MaskLow(Le8(k[..8]));
      var t1 := MaskHigh(Le8(k[8..16]));
      r := SplitBlock(t0, t1);
      pad := PadWords(k);
      h := Limbs(0, 0, 0, 0, 0);
      buf := new u8[16](_ => 0);
      bufLen := 0;
      whole := [];
    }

    method ProcessBlock(block: seq<u8>, hibit: int)
      requires |block| == 16 && (hibit == 0 || hibit == 0x100_0000)
      requires |key| == 32 && r == KeyLimbs(key) && Reduced(h)
      modifies this`h
      ensures Reduced(h)
      ensures Value(h) % P == ((Value(old(h)) + LeValue(block) + R104 * hibit) * KeyR(key)) % P
    {
      hide Row, WrapAdd, WrapMul, SplitBlock, Value, LeValue, Le8, KeyLimbs, KeyR, Reduced, Tight;
      var t0 := Le8(block[..8]);
      var t1 := Le8(block[8..]);
      var m := SplitBlock(t0, t1);
      var h0 := WrapAdd(h.l0, m.l0);
      var h1 := WrapAdd(h.l1, m.l1);
      var h2 := WrapAdd(h.l2, m.l2);
      var h3 := WrapAdd(h.l3, m.l3);
      var h4 := WrapAdd(h.l4, m.l4 + hibit);
      var s1 := WrapMul(r.l1, 5);
      var s2 := WrapMul(r.l2, 5);
      var s3 := WrapMul(r.l3, 5);
      var s4 := WrapMul(r.l4, 5);
      var d0 := Row(h0, r.l0, h1, s4, h2, s3, h3, s2, h4, s1);
      var d1 := Row(h0, r.l1, h1, r.l0, h2, s4, h3, s3, h4, s2);
      var d2 := Row(h0, r.l2, h1, r.l1, h2, r.l0, h3, s4, h4, s3);
      var d3 := Row(h0, r.l3, h1, r.l2, h2, r.l1, h3, r.l0, h4, s4);
      var d4 := Row(h0, r.l4, h1, r.l3, h2, r.l2, h3, r.l1, h4, r.l0);
      ghost var expected := ProcessLimbs(h, r, t0, t1, hibit);
      KeyLimbsValue(key);
      ProcessLimbsCorrect(h, r, t0, t1, hibit);
      BlockWords(block);
      var c := d0 / R26;
      h0 := d0 % R26;
      d1 := WrapAdd(d1, c);
      c := d1 / R26;
      h1 := d1 % R26;
      d2 := WrapAdd(d2, c);
      c := d2 / R26;
      h2 := d2 % R26;
      d3 := WrapAdd(d3, c);
      c := d3 / R26;
      h3 := d3 % R26;
      d4 := WrapAdd(d4, c);
      c := d4 / R26;
      h4 := d4 % R26;
      h0 := WrapAdd(h0, WrapMul(c, 5));
      c := h0 / R26;
      h0 := h0 % R26;
      h1 := WrapAdd(h1, c);
      h := Limbs(h0, h1, h2, h3, h4);
      assert h == expected;
    }

    /** Absorb one full block. */
    method AbsorbFull(block: seq<u8>)
      requires |block| == 16 && |key| == 32 && r == KeyLimbs(key) && Holds(key, h, whole)
      modifies this`h, this`whole
      ensures whole == old(whole) + block && Holds(key, h, whole)
    {
      hide Value, KeyR, KeyLimbs, Reduced, LeValue, Accumulate;
      ghost var before := h;
      ProcessBlock(block, 0x100_0000);
      FullBlockStep(Value(before), whole, block, KeyR(key));
      whole := whole + block;
    }

    /** `self.buf[at..].zip(data)`: copy as much of `data` as fits. */
    method Fill(at: nat, data: seq<u8>) returns (take: nat)
      requires buf.Length == 16 && at <= 16
      modifies buf
      ensures take == (if |data| < 16 - at then |data| else 16 - at)
      ensures buf[..at] == old(buf[..at]) && buf[at..at + take] == data[..take]
    {
      take := if |data| < 16 - at then |data| else 16 - at;
      for i := 0 to take
        invariant buf[..at] == old(buf[..at]) && buf[at..at + i] == data[..i]
      {
        buf[at + i] := data[i];
      }
    }

    /** Absorb the full blocks of `data`; the rest is shorter than a block. */
    method AbsorbBlocks(data: seq<u8>) returns (rest: seq<u8>)
      requires |key| == 32 && r == KeyLimbs(key) && Holds(key, h, whole)
      modifies this`h, this`whole
      ensures |rest| < 16 && whole + rest == old(whole) + data && Holds(key, h, whole)
    {
      hide Holds, KeyLimbs;
      rest := data;
      while |rest| >= 16
        invariant Holds(key, h, whole) && whole + rest == old(whole) + data
      {
        ghost var before := whole;
        AbsorbFull(rest[..16]);
        assert whole + rest[16..] == before + rest;
        rest := rest[16..];
      }
    }

    method Update(data: seq<u8>)
      requires Valid()
      modifies this`h, this`bufLen, this`whole, buf
      ensures Valid() && Absorbed() == old(Absorbed()) + data
    {
      hide KeyLimbs, PadWords, Reduced, Value, Accumulate, KeyR;
      ghost var total := Absorbed() + data;
      var rest := data;
      if bufLen > 0 {
        var take := Fill(bufLen, rest);
        assert buf[..bufLen + take] == buf[..bufLen] + buf[bufLen..bufLen + take];
        bufLen := bufLen + take;
        rest := rest[take..];
        assert total == whole + buf[..bufLen] + rest;
        if bufLen < 16 {
          return;
        }
        AbsorbFull(buf[..]);
        bufLen := 0;
      }
      assert total == whole + rest;
      rest := AbsorbBlocks(rest);
      var n := Fill(0, rest);
      bufLen := |rest|;
      assert buf[..bufLen] == rest;
    }

    /** Absorb `data` and zeros up to the next block boundary. */
    method UpdatePadded(data: seq<u8>)
      requires Valid() && bufLen == 0
      modifies this`h, this`bufLen, this`whole, buf
      ensures Valid() && bufLen == 0 && Absorbed() == old(Absorbed()) + Pad16(data)
    {
      hide Holds, KeyLimbs, PadWords;
      ghost var start := Absorbed();
      assert start == whole;
      Update(data);
      TailLength(|start|, |data|, |whole|, bufLen) by { assert |Absorbed()| == |start| + |data|; }
      var rem := |data| % 16;
      if rem != 0 {
        PadRest(start, data);
        Update(seq(16 - rem, _ => 0));
        TailLength(|start|, |Pad16(data)|, |whole|, bufLen) by { assert |Absorbed()| == |start| + |Pad16(data)|; }
      } else {
        assert Pad16(data) == data;
      }
    }

    method Finalize() returns (tag: seq<u8>)
      requires Valid()
      modifies this`h
      ensures tag == Tag(key, old(Absorbed()))
    {
      hide Holds, Value, KeyR, KeyLimbs, PadWords, LeValue, Reduced, Accumulate, Finish, Terminated, ToLe;
      ghost var tail := buf[..bufLen];
      HoldsWhole(key, h, whole);
      if bufLen > 0 {
        var block := Terminated(buf[..bufLen]);
        ghost var before := h;
        ProcessBlock(block, 0);
        PartialBlockStep(Value(before), whole, tail, KeyR(key));
      } else {
        assert whole + tail == whole;
      }
      FinishIsTag(h, key);
      tag := Finish(h, key);
    }
  }

  /** The buffer holds what is left over after whole blocks. */
  lemma TailLength(start: nat, added: nat, whole: nat, tail: nat)
    requires start % 16 == 0 && whole % 16 == 0 && tail < 16 && whole + tail == start + added
    ensures tail == added % 16
  {}

  lemma HoldsWhole(key: seq<u8>, h: Limbs, whole: seq<u8>)
    requires |key| == 32 && Holds(key, h, whole)
    ensures |whole| % 16 == 0 && Reduced(h) && Value(h) % P == Accumulate(0, whole, KeyR(key))
  {}

  lemma PartialBlockStep(v: int, whole: seq<u8>, tail: seq<u8>, r: int)
    requires |whole| % 16 == 0 && 0 < |tail| < 16 && v % P == Accumulate(0, whole, r)
    ensures ((v + LeValue(Terminated(tail)) + R104 * 0) * r) % P == Accumulate(0, whole + tail, r)
  {
    hide LeValue, Terminated;
    TerminatedValue(tail);
    AccumulateAppend(0, whole, tail, r);
    AccumulateRange(0, whole, r);
    var acc := Accumulate(0, whole, r);
    SmallMod(acc, P);
    AbsorbCongruent(v, acc, BlockValue(tail), r);
    assert Accumulate(acc, tail, r) == Absorb(acc, tail, r);
  }

  function Pad16(data: seq<u8>): (r: seq<u8>)
    ensures |r| % 16 == 0
  {
    data + seq((16 - |data| % 16) % 16, _ => 0)
  }

  lemma PadRest(start: seq<u8>, data: seq<u8>)
    requires |data| % 16 != 0
    ensures start + data + seq(16 - |data| % 16, _ => 0) == start + Pad16(data)
  {}

  lemma FullBlockStep(v: int, whole: seq<u8>, block: seq<u8>, r: int)
    requires |whole| % 16 == 0 && |block| == 16 && v % P == Accumulate(0, whole, r)
    ensures ((v + LeValue(block) + R104 * 0x100_0000) * r) % P == Accumulate(0, whole + block, r)
  {
    hide LeValue;
    PowersOf256();
    AccumulateAppend(0, whole, block, r);
    AccumulateRange(0, whole, r);
    var acc := Accumulate(0, whole, r);
    SmallMod(acc, P);
    AbsorbCongruent(v, acc, BlockValue(block), r);
    assert block[..16] == block && block[16..] == [];
    assert Accumulate(acc, block, r) == Absorb(acc, block, r);
  }

  /** However the message is cut into `update` calls, the tag is that of the whole. */
  method MacOfParts(key: seq<u8>, parts: seq<seq<u8>>) returns (tag: seq<u8>)
    requires |key| == 32
    ensures tag == Tag(key, Concat(parts))
  {
    hide Holds, KeyLimbs, PadWords, Tag;
    var a := new Authenticator(key);
    for i := 0 to |parts|
      invariant a.Valid() && a.key == key && fresh(a) && fresh(a.buf) && a.Absorbed() == Concat(parts[..i])
    {
      a.Update(parts[i]);
      assert parts[..i + 1][..i] == parts[..i];
    }
    assert parts[..|parts|] == parts;
    tag := a.Finalize();
  }
}
