/** `simd/src/avx2.rs`: the four- and eight-block ChaCha20 backends, on vectors of 32-bit
    lanes.  A vector is one (`__m128i`) or two (`__m256i`) halves of four lanes; the shuffles
    and unpacks of AVX2 act on each half by itself. */
module ChaChaSimd {
  import opened Machine
  import opened Bytes
  import opened ChaCha20

  // ----- Vectors and intrinsics ---------------------------------------------------------------------

  type Vec = seq<bv32>

  predicate Wide(v: Vec, halves: nat) { |v| == 4 * halves }

  /** `set1_epi32`. */
  function Splat(x: bv32, halves: nat): (v: Vec)
    ensures Wide(v, halves)
  {
    seq(4 * halves, _ => x)
  }

  /** `add_epi32`. */
  function VAdd(a: Vec, b: Vec): (v: Vec)
    requires |a| == |b|
    ensures |v| == |a|
  {
    seq(|a|, i requires 0 <= i < |a| => Plus(a[i], b[i]))
  }

  /** `xor_si128` and `xor_si256`. */
  function VXor(a: Vec, b: Vec): (v: Vec)
    requires |a| == |b|
    ensures |v| == |a|
  {
    seq(|a|, i requires 0 <= i < |a| => Xor32(a[i], b[i]))
  }

  /** Byte `k` of a lane. */
  function ByteOf(x: bv32, k: nat): (b: bv32)
    requires k < 4
  {
    if k == 0 then x & 0xff else if k == 1 then (x >> 8) & 0xff else if k == 2 then (x >> 16) & 0xff
    else (x >> 24) & 0xff
  }

  function Assemble(b0: bv32, b1: bv32, b2: bv32, b3: bv32): (x: bv32) {
    b0 | (b1 << 8) | (b2 << 16) | (b3 << 24)
  }

  /** The arguments of `set_epi8`, highest byte first. */
  type Mask = m: seq<nat> | |m| == 16 && forall i :: 0 <= i < 16 ==> m[i] < 16 witness seq(16, _ => 0)

  const ROL16: Mask := [13, 12, 15, 14, 9, 8, 11, 10, 5, 4, 7, 6, 1, 0, 3, 2]
  const ROL8: Mask := [14, 13, 12, 15, 10, 9, 8, 11, 6, 5, 4, 7, 2, 1, 0, 3]

  /** Byte `i` of the half that holds lane `lane`. */
  function HalfByte(v: Vec, lane: nat, i: nat): (b: bv32)
    requires |v| % 4 == 0 && lane < |v| && i < 16
  {
    ByteOf(v[lane / 4 * 4 + i / 4], i % 4)
  }

  /** `shuffle_epi8`: byte `i` of each half becomes byte `mask[i]` of the same half. */
  function Shuffle(v: Vec, mask: Mask): (r: Vec)
    requires |v| % 4 == 0
    ensures |r| == |v|
  {
    seq(|v|, lane requires 0 <= lane < |v| =>
      var base := lane % 4 * 4;
      Assemble(HalfByte(v, lane, mask[15 - base]), HalfByte(v, lane, mask[14 - base]),
               HalfByte(v, lane, mask[13 - base]), HalfByte(v, lane, mask[12 - base])))
  }

  function ShiftOr(x: bv32, n: nat): (r: bv32)
    requires n < 32
  {
    (x << n) | (x >> (32 - n))
  }

  /** `or(slli_epi32(v, n), srli_epi32(v, 32 - n))`. */
  function ShiftRotate(v: Vec, n: nat): (r: Vec)
    requires n < 32
    ensures |r| == |v|
  {
    seq(|v|, i requires 0 <= i < |v| => ShiftOr(v[i], n))
  }

  /** The `rotl!` macro: byte shuffles for 16 and 8, shifts otherwise. */
  function VRotate(v: Vec, n: nat): (r: Vec)
    requires |v| % 4 == 0 && n < 32
    ensures |r| == |v|
  {
    if n == 16 then Shuffle(v, ROL16) else if n == 8 then Shuffle(v, ROL8) else ShiftRotate(v, n)
  }

  /** A rotation by whole bytes is a shuffle of bytes; any other is two shifts. */
  lemma Rotations(x: bv32)
    ensures Assemble(ByteOf(x, 2), ByteOf(x, 3), ByteOf(x, 0), ByteOf(x, 1)) == Rotated(x, 16)
    ensures Assemble(ByteOf(x, 3), ByteOf(x, 0), ByteOf(x, 1), ByteOf(x, 2)) == Rotated(x, 8)
    ensures ShiftOr(x, 12) == Rotated(x, 12) && ShiftOr(x, 7) == Rotated(x, 7)
  {}

  predicate Distance(n: nat) { n == 16 || n == 12 || n == 8 || n == 7 }

  lemma MaskEntries(k: nat)
    requires k < 4
    ensures ROL16[15 - 4 * k] == 4 * k + 2 && ROL16[14 - 4 * k] == 4 * k + 3 && ROL16[13 - 4 * k] == 4 * k
        && ROL16[12 - 4 * k] == 4 * k + 1
    ensures ROL8[15 - 4 * k] == 4 * k + 3 && ROL8[14 - 4 * k] == 4 * k && ROL8[13 - 4 * k] == 4 * k + 1
        && ROL8[12 - 4 * k] == 4 * k + 2
  {}

  lemma OwnByte(v: Vec, lane: nat, r: nat)
    requires |v| % 4 == 0 && lane < |v| && r < 4
    ensures HalfByte(v, lane, 4 * (lane % 4) + r) == ByteOf(v[lane], r)
  {
    hide ByteOf;
    assert lane / 4 * 4 + lane % 4 == lane;
  }

  /** The masks never cross a lane. */
  lemma ShuffleLane(v: Vec, lane: nat)
    requires |v| % 4 == 0 && lane < |v|
    ensures Shuffle(v, ROL16)[lane] == Assemble(ByteOf(v[lane], 2), ByteOf(v[lane], 3), ByteOf(v[lane], 0),
        ByteOf(v[lane], 1))
    ensures Shuffle(v, ROL8)[lane] == Assemble(ByteOf(v[lane], 3), ByteOf(v[lane], 0), ByteOf(v[lane], 1),
        ByteOf(v[lane], 2))
  {
    hide ByteOf, Assemble, HalfByte;
    MaskEntries(lane % 4);
    OwnByte(v, lane, 0);
    OwnByte(v, lane, 1);
    OwnByte(v, lane, 2);
    OwnByte(v, lane, 3);
  }

  /** Every rotation the rounds use rotates each lane. */
  lemma VRotateLane(v: Vec, n: nat, lane: nat)
    requires |v| % 4 == 0 && lane < |v| && Distance(n)
    ensures VRotate(v, n)[lane] == Rotated(v[lane], n)
  {
    hide ByteOf, Assemble, Shuffle, ShiftOr, Rotated;
    ShuffleLane(v, lane);
    Rotations(v[lane]);
  }

  // ----- Rounds -------------------------------------------------------------------------------------------

  /** Sixteen registers; register `i` holds word `i` of every block. */
  predicate Registers(x: seq<Vec>, halves: nat) {
    |x| == 16 && forall i :: 0 <= i < 16 ==> Wide(x[i], halves)
  }

  /** The state of the block in one lane. */
  function Lane(x: seq<Vec>, halves: nat, lane: nat): (v: State)
    requires Registers(x, halves) && lane < 4 * halves
  {
    seq(16, i requires 0 <= i < 16 => x[i][lane])
  }

  function VHalfQuarter(x: seq<Vec>, halves: nat, a: Index, b: Index, c: Index, d: Index, first: nat,
      second: nat): (r: seq<Vec>)
    requires Registers(x, halves) && Distance(first) && Distance(second)
    ensures Registers(r, halves)
  {
    var x := x[a := VAdd(x[a], x[b])];
    var x := x[d := VRotate(VXor(x[d], x[a]), first)];
    var x := x[c := VAdd(x[c], x[d])];
    x[b := VRotate(VXor(x[b], x[c]), second)]
  }

  /** The `qr!` macro. */
  function VQuarter(x: seq<Vec>, halves: nat, a: Index, b: Index, c: Index, d: Index): (r: seq<Vec>)
    requires Registers(x, halves)
    ensures Registers(r, halves)
  {
    VHalfQuarter(VHalfQuarter(x, halves, a, b, c, d, 16, 12), halves, a, b, c, d, 8, 7)
  }

  lemma TurnedLane(v: Vec, w: Vec, n: nat, lane: nat)
    requires |v| == |w| && |v| % 4 == 0 && lane < |v| && Distance(n)
    ensures VRotate(VXor(v, w), n)[lane] == Turned(v[lane], w[lane], n)
  {
    hide VRotate, Rotated, Xor32;
    VRotateLane(VXor(v, w), n, lane);
  }

  lemma AddStep(x: seq<Vec>, halves: nat, a: Index, b: Index, lane: nat)
    requires Registers(x, halves) && lane < 4 * halves
    ensures var v := Lane(x, halves, lane);
            && Registers(x[a := VAdd(x[a], x[b])], halves)
            && Lane(x[a := VAdd(x[a], x[b])], halves, lane) == v[a := Plus(v[a], v[b])]
  {
    hide Plus;
  }

  lemma TurnStep(x: seq<Vec>, halves: nat, d: Index, a: Index, n: nat, lane: nat)
    requires Registers(x, halves) && lane < 4 * halves && Distance(n)
    ensures var v := Lane(x, halves, lane);
            var y := x[d := VRotate(VXor(x[d], x[a]), n)];
            Registers(y, halves) && Lane(y, halves, lane) == v[d := Turned(v[d], v[a], n)]
  {
    hide Turned, VRotate, VXor;
    TurnedLane(x[d], x[a], n, lane);
  }

  lemma VHalfQuarterLane(x: seq<Vec>, halves: nat, a: Index, b: Index, c: Index, d: Index, first: nat, second: nat,
      lane: nat)
    requires Registers(x, halves) && lane < 4 * halves && Distance(first) && Distance(second)
    ensures Lane(VHalfQuarter(x, halves, a, b, c, d, first, second), halves, lane)
         == HalfQuarter(Lane(x, halves, lane), a, b, c, d, first, second)
  {
    hide Turned, Plus, VAdd, VXor, VRotate, Lane;
    AddStep(x, halves, a, b, lane);
    var x1 := x[a := VAdd(x[a], x[b])];
    TurnStep(x1, halves, d, a, first, lane);
    var x2 := x1[d := VRotate(VXor(x1[d], x1[a]), first)];
    AddStep(x2, halves, c, d, lane);
    var x3 := x2[c := VAdd(x2[c], x2[d])];
    TurnStep(x3, halves, b, c, second, lane);
  }

  lemma VQuarterLane(x: seq<Vec>, halves: nat, a: Index, b: Index, c: Index, d: Index, lane: nat)
    requires Registers(x, halves) && lane < 4 * halves
    ensures Lane(VQuarter(x, halves, a, b, c, d), halves, lane) == Quarter(Lane(x, halves, lane), a, b, c, d)
  {
    hide VHalfQuarter, HalfQuarter, Lane, Registers;
    VHalfQuarterLane(x, halves, a, b, c, d, 16, 12, lane);
    VHalfQuarterLane(VHalfQuarter(x, halves, a, b, c, d, 16, 12), halves, a, b, c, d, 8, 7, lane);
  }

  /** Every lane of the registers holds the state given for it. */
  ghost predicate Holds(x: seq<Vec>, halves: nat, states: seq<State>) {
    && Registers(x, halves) && |states| == 4 * halves
    && forall lane :: 0 <= lane < 4 * halves ==> Lane(x, halves, lane) == states[lane]
  }

  ghost function Quarters(states: seq<State>, n: nat): (r: seq<State>)
    requires n <= 8
    ensures |r| == |states|
  {
    seq(|states|, j requires 0 <= j < |states| => DoubleRound(states[j], n))
  }

  ghost function Permuted(states: seq<State>, rounds: nat): (r: seq<State>)
    ensures |r| == |states|
  {
    seq(|states|, j requires 0 <= j < |states| => Permute(states[j], rounds))
  }

  /** One quarter round in all lanes at once. */
  lemma QuarterHolds(x: seq<Vec>, halves: nat, states: seq<State>, n: nat)
    requires 0 < n <= 8 && Holds(x, halves, Quarters(states, n - 1))
    ensures var (a, b, c, d) := LANES[n - 1]; Holds(VQuarter(x, halves, a, b, c, d), halves, Quarters(states, n))
  {
    hide VQuarter, Quarter, Lane, Registers;
    var (a, b, c, d) := LANES[n - 1];
    forall lane | 0 <= lane < 4 * halves
      ensures Lane(VQuarter(x, halves, a, b, c, d), halves, lane) == Quarters(states, n)[lane]
    {
      VQuarterLane(x, halves, a, b, c, d, lane);
    }
  }

  /** The loop of ten double rounds. */
  method VPermute(start: seq<Vec>, halves: nat, ghost states: seq<State>) returns (x: seq<Vec>)
    requires Holds(start, halves, states)
    ensures Holds(x, halves, Permuted(states, ROUNDS))
  {
    hide VQuarter, Registers, DoubleRound, Lane;
    x := start;
    assert Permuted(states, 0) == states;
    for round := 0 to ROUNDS
      invariant Holds(x, halves, Permuted(states, round))
    {
      x := VDoubleRound(x, halves, Permuted(states, round));
      assert Quarters(Permuted(states, round), 8) == Permuted(states, round + 1);
    }
  }

  method VDoubleRound(start: seq<Vec>, halves: nat, ghost states: seq<State>) returns (x: seq<Vec>)
    requires Holds(start, halves, states)
    ensures Holds(x, halves, Quarters(states, 8))
  {
    hide VQuarter, Quarters, Registers;
    x := start;
    NoQuarters(states);
    for i := 0 to 8
      invariant Holds(x, halves, Quarters(states, i))
    {
      QuarterHolds(x, halves, states, i + 1);
      var (a, b, c, d) := LANES[i];
      x := VQuarter(x, halves, a, b, c, d);
    }
  }

  lemma NoQuarters(states: seq<State>)
    ensures Quarters(states, 0) == states
  {}

  // ----- From registers to bytes ------------------------------------------------------------------------

  /** `unpacklo_epi32`, `unpackhi_epi32`, `unpacklo_epi64` and `unpackhi_epi64`. */
  function UnpackLow32(a: Vec, b: Vec): (v: Vec)
    requires |a| == |b| && |a| % 4 == 0
    ensures |v| == |a|
  {
    seq(|a|, i requires 0 <= i < |a| => var h := i / 4 * 4; [a[h], b[h], a[h + 1], b[h + 1]][i % 4])
  }

  function UnpackHigh32(a: Vec, b: Vec): (v: Vec)
    requires |a| == |b| && |a| % 4 == 0
    ensures |v| == |a|
  {
    seq(|a|, i requires 0 <= i < |a| => var h := i / 4 * 4; [a[h + 2], b[h + 2], a[h + 3], b[h + 3]][i % 4])
  }

  function UnpackLow64(a: Vec, b: Vec): (v: Vec)
    requires |a| == |b| && |a| % 4 == 0
    ensures |v| == |a|
  {
    seq(|a|, i requires 0 <= i < |a| => var h := i / 4 * 4; [a[h], a[h + 1], b[h], b[h + 1]][i % 4])
  }

  function UnpackHigh64(a: Vec, b: Vec): (v: Vec)
    requires |a| == |b| && |a| % 4 == 0
    ensures |v| == |a|
  {
    seq(|a|, i requires 0 <= i < |a| => var h := i / 4 * 4; [a[h + 2], a[h + 3], b[h + 2], b[h + 3]][i % 4])
  }

  /** One half of a vector, as `storeu_si128` writes it. */
  function Half(v: Vec, half: nat): (w: seq<bv32>)
    requires |v| % 4 == 0 && 4 * half < |v|
    ensures |w| == 4
  {
    v[4 * half..4 * half + 4]
  }

  lemma InHalf(half: nat)
    ensures var h := 4 * half;
            && h / 4 * 4 == h && (h + 1) / 4 * 4 == h && (h + 2) / 4 * 4 == h && (h + 3) / 4 * 4 == h
            && h % 4 == 0 && (h + 1) % 4 == 1 && (h + 2) % 4 == 2 && (h + 3) % 4 == 3
  {}

  lemma Unpack32Half(a: Vec, b: Vec, half: nat)
    requires |a| == |b| && |a| % 4 == 0 && 4 * half < |a|
    ensures var h := 4 * half;
            && Half(UnpackLow32(a, b), half) == [a[h], b[h], a[h + 1], b[h + 1]]
            && Half(UnpackHigh32(a, b), half) == [a[h + 2], b[h + 2], a[h + 3], b[h + 3]]
  {
    InHalf(half);
  }

  lemma Unpack64Half(a: Vec, b: Vec, half: nat)
    requires |a| == |b| && |a| % 4 == 0 && 4 * half < |a|
    ensures var h := 4 * half;
            && Half(UnpackLow64(a, b), half) == [a[h], a[h + 1], b[h], b[h + 1]]
            && Half(UnpackHigh64(a, b), half) == [a[h + 2], a[h + 3], b[h + 2], b[h + 3]]
  {
    InHalf(half);
  }

  /** The `transpose4!` macro. */
  function Transpose(a: Vec, b: Vec, c: Vec, d: Vec): (r: seq<Vec>)
    requires |a| == |b| == |c| == |d| && |a| % 4 == 0
    ensures |r| == 4 && |r[0]| == |r[1]| == |r[2]| == |r[3]| == |a|
  {
    var t0, t1 := UnpackLow32(a, b), UnpackLow32(c, d);
    var t2, t3 := UnpackHigh32(a, b), UnpackHigh32(c, d);
    [UnpackLow64(t0, t1), UnpackHigh64(t0, t1), UnpackLow64(t2, t3), UnpackHigh64(t2, t3)]
  }

  /** Row `i` of a transposed half holds lane `i` of each of the four vectors. */
  lemma TransposeHalf(a: Vec, b: Vec, c: Vec, d: Vec, half: nat, i: nat)
    requires |a| == |b| == |c| == |d| && |a| % 4 == 0 && 4 * half < |a| && i < 4
    ensures var j := 4 * half + i; Half(Transpose(a, b, c, d)[i], half) == [a[j], b[j], c[j], d[j]]
  {
    hide UnpackLow32, UnpackHigh32, UnpackLow64, UnpackHigh64;
    Unpack32Half(a, b, half);
    Unpack32Half(c, d, half);
    var t0, t1 := UnpackLow32(a, b), UnpackLow32(c, d);
    var t2, t3 := UnpackHigh32(a, b), UnpackHigh32(c, d);
    Unpack64Half(t0, t1, half);
    Unpack64Half(t2, t3, half);
    HalfAt(t0, half);
    HalfAt(t1, half);
    HalfAt(t2, half);
    HalfAt(t3, half);
  }

  lemma HalfAt(v: Vec, half: nat)
    requires |v| % 4 == 0 && 4 * half < |v|
    ensures var w := Half(v, half);
            w[0] == v[4 * half] && w[1] == v[4 * half + 1] && w[2] == v[4 * half + 2] && w[3] == v[4 * half + 3]
  {}

  /** The words a block's four stores write, in order of their offsets. */
  function Emitted(x: seq<Vec>, halves: nat, block: nat): (w: seq<bv32>)
    requires Registers(x, halves) && block < 4 * halves
  {
    var half, i := block / 4, block % 4;
    Half(Transpose(x[0], x[1], x[2], x[3])[i], half) + Half(Transpose(x[4], x[5], x[6], x[7])[i], half)
    + Half(Transpose(x[8], x[9], x[10], x[11])[i], half) + Half(Transpose(x[12], x[13], x[14], x[15])[i], half)
  }

  /** After the transposes, block `j` comes out as the words of lane `j`. */
  lemma EmittedIsLane(x: seq<Vec>, halves: nat, block: nat)
    requires Registers(x, halves) && block < 4 * halves
    ensures Emitted(x, halves, block) == Lane(x, halves, block)
  {
    hide Transpose, Half;
    var half, i := block / 4, block % 4;
    assert 4 * half + i == block;
    TransposeHalf(x[0], x[1], x[2], x[3], half, i);
    TransposeHalf(x[4], x[5], x[6], x[7], half, i);
    TransposeHalf(x[8], x[9], x[10], x[11], half, i);
    TransposeHalf(x[12], x[13], x[14], x[15], half, i);
  }

  // ----- The block functions ----------------------------------------------------------------------------

  /** The blocks for a list of counters. */
  function CounterBlocks(key: seq<bv32>, counters: seq<bv32>, nonce: seq<bv32>): (b: seq<u8>)
    requires |key| == 8 && |nonce| == 3
  {
    if counters == [] then []
    else CounterBlocks(key, counters[..|counters| - 1], nonce) + WordBlock(key, counters[|counters| - 1], nonce)
  }

  /** `s0` to `s15`: everything splatted but the counters. */
  function StartRegisters(key: seq<bv32>, counters: Vec, nonce: seq<bv32>, halves: nat): (x: seq<Vec>)
    requires |key| == 8 && |nonce| == 3 && Wide(counters, halves)
    ensures Registers(x, halves)
  {
    [Splat(SIGMA[0], halves), Splat(SIGMA[1], halves), Splat(SIGMA[2], halves), Splat(SIGMA[3], halves),
     Splat(key[0], halves), Splat(key[1], halves), Splat(key[2], halves), Splat(key[3], halves),
     Splat(key[4], halves), Splat(key[5], halves), Splat(key[6], halves), Splat(key[7], halves),
     counters, Splat(nonce[0], halves), Splat(nonce[1], halves), Splat(nonce[2], halves)]
  }

  ghost function Starts(key: seq<bv32>, counters: Vec, nonce: seq<bv32>): (s: seq<State>)
    requires |key| == 8 && |nonce| == 3
    ensures |s| == |counters|
  {
    seq(|counters|, j requires 0 <= j < |counters| => Start(key, counters[j], nonce))
  }

  lemma StartHolds(key: seq<bv32>, counters: Vec, nonce: seq<bv32>, halves: nat)
    requires |key| == 8 && |nonce| == 3 && Wide(counters, halves)
    ensures Holds(StartRegisters(key, counters, nonce, halves), halves, Starts(key, counters, nonce))
  {
    var x := StartRegisters(key, counters, nonce, halves);
    forall lane | 0 <= lane < 4 * halves ensures Lane(x, halves, lane) == Start(key, counters[lane], nonce) {
      StartLane(key, counters, nonce, halves, lane);
    }
  }

  lemma StartLane(key: seq<bv32>, counters: Vec, nonce: seq<bv32>, halves: nat, lane: nat)
    requires |key| == 8 && |nonce| == 3 && Wide(counters, halves) && lane < 4 * halves
    ensures Lane(StartRegisters(key, counters, nonce, halves), halves, lane) == Start(key, counters[lane], nonce)
  {}

  /** The feed-forward addition of every register. */
  method FeedForward(x: seq<Vec>, start: seq<Vec>, halves: nat) returns (r: seq<Vec>)
    requires Registers(x, halves) && Registers(start, halves)
    ensures Registers(r, halves) && forall i :: 0 <= i < 16 ==> r[i] == VAdd(x[i], start[i])
  {
    hide VAdd;
    r := [];
    for i := 0 to 16
      invariant |r| == i && forall j :: 0 <= j < i ==> r[j] == VAdd(x[j], start[j])
    {
      r := r + [VAdd(x[i], start[i])];
    }
  }

  lemma FeedForwardLane(x: seq<Vec>, start: seq<Vec>, r: seq<Vec>, halves: nat, lane: nat, v: State, rounds: nat)
    requires Registers(x, halves) && Registers(start, halves) && Registers(r, halves) && lane < 4 * halves
    requires forall i :: 0 <= i < 16 ==> r[i] == VAdd(x[i], start[i])
    requires Lane(start, halves, lane) == v && Lane(x, halves, lane) == Permute(v, rounds)
    ensures Lane(r, halves, lane) == Worked(v, rounds)
  {
    hide Plus, Permute;
    forall i | 0 <= i < 16 ensures Lane(r, halves, lane)[i] == Worked(v, rounds)[i] {
      assert x[i][lane] == Permute(v, rounds)[i] by { assert Lane(x, halves, lane)[i] == x[i][lane]; }
      assert start[i][lane] == v[i] by { assert Lane(start, halves, lane)[i] == start[i][lane]; }
    }
  }

  /** `four_blocks` and `eight_blocks`: the keystream blocks of the counters in the lanes. */
  method ParallelBlocks(key: seq<bv32>, counters: Vec, nonce: seq<bv32>, halves: nat) returns (out: seq<u8>)
    requires |key| == 8 && |nonce| == 3 && Wide(counters, halves)
    ensures out == CounterBlocks(key, counters, nonce)
  {
    hide StartRegisters, Start, Permute, Lane, Worked, VAdd, Emitted, Registers, StoreWords;
    var start := StartRegisters(key, counters, nonce, halves);
    ghost var states := Starts(key, counters, nonce);
    StartHolds(key, counters, nonce, halves);
    var x := VPermute(start, halves, states);
    var r := FeedForward(x, start, halves);
    out := [];
    for block := 0 to 4 * halves
      invariant out == CounterBlocks(key, counters[..block], nonce)
    {
      EmittedIsLane(r, halves, block);
      FeedForwardLane(x, start, r, halves, block, states[block], ROUNDS);
      out := out + StoreWords(Emitted(r, halves, block));
      assert counters[..block + 1][..block] == counters[..block];
    }
    assert counters[..4 * halves] == counters;
  }

  // ----- The backends -------------------------------------------------------------------------------------

  function FourCounters(ctr: bv32): (v: Vec)
    ensures |v| == 4
  {
    [ctr, Plus(ctr, 1), Plus(ctr, 2), Plus(ctr, 3)]
  }

  function EightCounters(ctr: bv32): (v: Vec)
    ensures |v| == 8
  {
    [ctr, Plus(ctr, 1), Plus(ctr, 2), Plus(ctr, 3), Plus(ctr, 4), Plus(ctr, 5), Plus(ctr, 6), Plus(ctr, 7)]
  }

  /** The counters of `m` consecutive blocks. */
  function Consecutive(ctr: bv32, m: nat): (v: Vec)
    ensures |v| == m
    decreases m
  {
    if m == 0 then [] else [ctr] + Consecutive(Plus(ctr, 1), m - 1)
  }

  lemma PlusOne(c: bv32, k: bv32)
    ensures Plus(Plus(c, k), 1) == Plus(c, k + 1)
  {}

  lemma {:induction false} NextCounter(ctr: bv32, m: nat)
    ensures Consecutive(ctr, m + 1) == Consecutive(ctr, m) + [Advance(ctr, m)]
    ensures Advance(ctr, m + 1) == Plus(Advance(ctr, m), 1)
    decreases m
  {
    hide Plus;
    if m > 0 { NextCounter(Plus(ctr, 1), m - 1); }
  }

  /** The lane counters, wrapping at 2^32, are consecutive. */
  lemma FourConsecutive(ctr: bv32)
    ensures FourCounters(ctr) == Consecutive(ctr, 4) && Advance(ctr, 4) == Plus(ctr, 4)
  {
    hide Plus, Consecutive, Advance;
    FirstCounter(ctr);
    NextCounter(ctr, 1);
    PlusOne(ctr, 1);
    NextCounter(ctr, 2);
    PlusOne(ctr, 2);
    NextCounter(ctr, 3);
    PlusOne(ctr, 3);
  }

  lemma EightConsecutive(ctr: bv32)
    ensures EightCounters(ctr) == Consecutive(ctr, 8) && Advance(ctr, 8) == Plus(ctr, 8)
  {
    hide Plus, Consecutive, Advance;
    FourConsecutive(ctr);
    NextCounter(ctr, 4);
    PlusOne(ctr, 4);
    NextCounter(ctr, 5);
    PlusOne(ctr, 5);
    NextCounter(ctr, 6);
    PlusOne(ctr, 6);
    NextCounter(ctr, 7);
    PlusOne(ctr, 7);
  }

  lemma FirstCounter(ctr: bv32)
    ensures Consecutive(ctr, 1) == [ctr] && Advance(ctr, 1) == Plus(ctr, 1)
  {
    hide Plus;
    NextCounter(ctr, 0);
  }

  lemma {:induction false} BlocksOfCounters(key: Key, ctr: bv32, nonce: Nonce, m: nat)
    ensures CounterBlocks(LoadWords(key), Consecutive(ctr, m), LoadWords(nonce)) == Blocks(key, ctr, nonce, m)
    decreases m
  {
    hide WordBlock, Plus, LoadWords;
    if m > 0 {
      BlocksOfCounters(key, Plus(ctr, 1), nonce, m - 1);
      CounterBlocksFirst(LoadWords(key), ctr, Consecutive(Plus(ctr, 1), m - 1), LoadWords(nonce));
    }
  }

  lemma {:induction false} CounterBlocksFirst(key: seq<bv32>, first: bv32, counters: seq<bv32>, nonce: seq<bv32>)
    requires |key| == 8 && |nonce| == 3
    ensures CounterBlocks(key, [first] + counters, nonce) == WordBlock(key, first, nonce) + CounterBlocks(key,
        counters, nonce)
    decreases |counters|
  {
    hide WordBlock, CounterBlocks;
    NoBlocks(key, nonce);
    if counters == [] {
      LastBlock(key, [], first, nonce);
      assert [] + [first] == [first] + counters;
    } else {
      var n := |counters| - 1;
      var front, last := counters[..n], counters[n];
      CounterBlocksFirst(key, first, front, nonce);
      LastBlock(key, [first] + front, last, nonce);
      LastBlock(key, front, last, nonce);
      assert [first] + front + [last] == [first] + counters && front + [last] == counters;
    }
  }

  lemma NoBlocks(key: seq<bv32>, nonce: seq<bv32>)
    requires |key| == 8 && |nonce| == 3
    ensures CounterBlocks(key, [], nonce) == []
  {}

  lemma LastBlock(key: seq<bv32>, counters: seq<bv32>, last: bv32, nonce: seq<bv32>)
    requires |key| == 8 && |nonce| == 3
    ensures CounterBlocks(key, counters + [last], nonce) == CounterBlocks(key, counters, nonce)
      + WordBlock(key, last, nonce)
  {
    hide WordBlock;
    assert (counters + [last])[..|counters|] == counters;
  }

  method FourBlocks(key: Key, ctr: bv32, nonce: Nonce) returns (ks: seq<u8>)
    ensures ks == Blocks(key, ctr, nonce, 4)
  {
    hide CounterBlocks, Blocks, LoadWords, Consecutive, FourCounters;
    FourConsecutive(ctr);
    BlocksOfCounters(key, ctr, nonce, 4);
    ks := ParallelBlocks(LoadWords(key), FourCounters(ctr), LoadWords(nonce), 1);
  }

  method EightBlocks(key: Key, ctr: bv32, nonce: Nonce) returns (ks: seq<u8>)
    ensures ks == Blocks(key, ctr, nonce, 8)
  {
    hide CounterBlocks, Blocks, LoadWords, Consecutive, EightCounters;
    EightConsecutive(ctr);
    BlocksOfCounters(key, ctr, nonce, 8);
    ks := ParallelBlocks(LoadWords(key), EightCounters(ctr), LoadWords(nonce), 2);
  }

  /** What is left to do after `at` bytes: the tail under the keystream from `ctr` on. */
  ghost predicate Remaining(target: seq<u8>, key: Key, ctr: bv32, nonce: Nonce, data: seq<u8>, start: nat, at: nat)
    requires start <= at <= |data|
  {
    target == data[start..at] + XorStream(key, ctr, nonce, data[at..])
  }

  /** Exclusive or of one stride of `m` blocks into the buffer, whole or cut short. */
  method XorStride(key: Key, ctr: bv32, nonce: Nonce, data: array<u8>, at: nat, n: nat, m: nat, ks: seq<u8>,
      ghost target: seq<u8>)
    requires at < data.Length && m > 0 && n == (if data.Length - at < 64 * m then data.Length - at else 64 * m)
    requires ks == Blocks(key, ctr, nonce, m) && Remaining(target, key, ctr, nonce, data[..], 0, at)
    modifies data
    ensures Remaining(target, key, Advance(ctr, m), nonce, data[..], 0, at + n)
  {
    hide Blocks, XorBytes, XorStream, Advance;
    ghost var whole := data[..];
    ghost var done, rest := data[..at], data[at..];
    assert whole[0..at] == done && whole[at..] == rest;
    Stride(key, ctr, nonce, rest, m, n);
    Regroup(target, done, XorBytes(rest[..n], ks), XorStream(key, Advance(ctr, m), nonce, rest[n..]));
    XorChunk(data, 0, at, n, ks);
    assert data[..][0..at + n] == data[0..at + n] && data[..][at + n..] == data[at + n..];
    assert data[0..at + n] == done + XorBytes(rest[..n], ks);
  }

  lemma Finished(target: seq<u8>, key: Key, ctr: bv32, nonce: Nonce, data: seq<u8>)
    requires Remaining(target, key, ctr, nonce, data, 0, |data|)
    ensures data == target
  {
    hide XorStream;
    EmptyStream(key, ctr, nonce);
    assert data[|data|..] == [];
  }

  method ScalarTail(key: Key, ctr: bv32, nonce: Nonce, data: array<u8>, at: nat, ghost target: seq<u8>)
    requires at <= data.Length && Remaining(target, key, ctr, nonce, data[..], 0, at)
    modifies data
    ensures data[..] == target
  {
    hide XorStream;
    assert data[..][0..at] == data[..at] && data[..][at..] == data[at..];
    ScalarApply(key, nonce, ctr, data, at);
    assert data[..] == data[..at] + data[at..];
  }

  /** The four-block backend is the scalar one, for every key, nonce, counter and length. */
  method Avx2Apply(key: Key, nonce: Nonce, counter: bv32, data: array<u8>)
    modifies data
    ensures data[..] == XorStream(key, counter, nonce, old(data[..]))
  {
    hide Blocks, XorBytes, XorStream, Advance, Remaining, Plus, FourCounters, EightCounters;
    ghost var target := XorStream(key, counter, nonce, data[..]);
    var ctr, at := counter, 0;
    Begin(key, ctr, nonce, data[..]);
    while data.Length - at >= 256
      invariant at <= data.Length && Remaining(target, key, ctr, nonce, data[..], 0, at)
    {
      var ks := FourBlocks(key, ctr, nonce);
      XorStride(key, ctr, nonce, data, at, 256, 4, ks, target);
      FourConsecutive(ctr);
      ctr, at := Plus(ctr, 4), at + 256;
    }
    if data.Length - at >= 64 {
      var ks := FourBlocks(key, ctr, nonce);
      XorStride(key, ctr, nonce, data, at, data.Length - at, 4, ks, target);
      Finished(target, key, Advance(ctr, 4), nonce, data[..]);
    } else if at < data.Length {
      ScalarTail(key, ctr, nonce, data, at, target);
    } else {
      Finished(target, key, ctr, nonce, data[..]);
    }
  }

  lemma Begin(key: Key, ctr: bv32, nonce: Nonce, data: seq<u8>)
    ensures Remaining(XorStream(key, ctr, nonce, data), key, ctr, nonce, data, 0, 0)
  {
    hide XorStream;
    assert data[0..] == data && data[0..0] == [];
  }

  /** So is the eight-block backend, with its three kinds of tail. */
  method Avx2x8Apply(key: Key, nonce: Nonce, counter: bv32, data: array<u8>)
    modifies data
    ensures data[..] == XorStream(key, counter, nonce, old(data[..]))
  {
    hide Blocks, XorBytes, XorStream, Advance, Remaining, Plus, FourCounters, EightCounters;
    ghost var target := XorStream(key, counter, nonce, data[..]);
    var ctr, at := counter, 0;
    Begin(key, ctr, nonce, data[..]);
    while data.Length - at >= 512
      invariant at <= data.Length && Remaining(target, key, ctr, nonce, data[..], 0, at)
    {
      var ks := EightBlocks(key, ctr, nonce);
      XorStride(key, ctr, nonce, data, at, 512, 8, ks, target);
      EightConsecutive(ctr);
      ctr, at := Plus(ctr, 8), at + 512;
    }
    if data.Length - at >= 256 {
      var ks := EightBlocks(key, ctr, nonce);
      XorStride(key, ctr, nonce, data, at, data.Length - at, 8, ks, target);
      Finished(target, key, Advance(ctr, 8), nonce, data[..]);
    } else if data.Length - at >= 64 {
      var ks := FourBlocks(key, ctr, nonce);
      XorStride(key, ctr, nonce, data, at, data.Length - at, 4, ks, target);
      Finished(target, key, Advance(ctr, 4), nonce, data[..]);
    } else if at < data.Length {
      ScalarTail(key, ctr, nonce, data, at, target);
    } else {
      Finished(target, key, ctr, nonce, data[..]);
    }
  }
}
