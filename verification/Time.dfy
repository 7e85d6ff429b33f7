/** `src/time.rs`: saturating monotonic ticks and the TAI64N stamp with its byte order. */
module Time {
  import opened Machine
  import opened Bytes

  // ----- Ticks ---------------------------------------------------------------

  /** Nanoseconds since the caller's epoch. */
  type Ticks = u64

  function AddNanos(t: Ticks, nanos: u64): (r: Ticks) {
    if t + nanos > U64_MAX then U64_MAX else t + nanos
  }

  /** Nanoseconds from `earlier` to `now`, zero when `earlier` is in the future. */
  function Since(now: Ticks, earlier: Ticks): (r: u64) {
    if now <= earlier then 0 else now - earlier
  }

  /** A deadline lies strictly in the future exactly while less than its delay has
      elapsed.  The one exception is a clock reading at the saturation point. */
  lemma DeadlineAheadIff(now: Ticks, base: Ticks, delay: u64)
    requires now < U64_MAX
    requires delay > 0
    ensures now < AddNanos(base, delay) <==> Since(now, base) < delay
  {}

  // ----- TAI64N --------------------------------------------------------------

  const TAI64_UNIX_BASE: int := 0x4000_0000_0000_000a

  type Tai64N = b: seq<u8> | |b| == 12 witness [0, 0, 0, 0, 0, 0, 0, 0, 0, 0, 0, 0]

  const ALL_ONES: Tai64N := [255, 255, 255, 255, 255, 255, 255, 255, 255, 255, 255, 255]

  datatype Now = Now(ticks: Ticks, unixSecs: u64, unixNanos: u32)

  /** Big-endian value of a byte string. */
  function Value(b: seq<u8>): (v: nat) {
    if |b| == 0 then 0 else Value(b[..|b| - 1]) * 256 + b[|b| - 1]
  }

  /** The `len`-byte big-endian encoding of `v` modulo 256^len. */
  function ToBigEndian(v: nat, len: nat): (b: seq<u8>)
    ensures |b| == len
  {
    if len == 0 then [] else ToBigEndian(v / 256, len - 1) + [v % 256]
  }

  /** The derived `Ord` on byte arrays. */
  predicate LexLess(a: seq<u8>, b: seq<u8>)
    requires |a| == |b|
  {
    |a| > 0 && (a[0] < b[0] || (a[0] == b[0] && LexLess(a[1..], b[1..])))
  }

  predicate LexLessEq(a: seq<u8>, b: seq<u8>)
    requires |a| == |b|
  {
    a == b || LexLess(a, b)
  }

  lemma {:induction false} ValueBound(b: seq<u8>)
    ensures Value(b) < Power256(|b|)
  {
    if |b| > 0 { ValueBound(b[..|b| - 1]); }
  }

  /** Splitting off the most significant byte. */
  lemma {:induction false} ValueHead(b: seq<u8>)
    requires |b| > 0
    ensures Value(b) == b[0] * Power256(|b| - 1) + Value(b[1..])
  {
    if |b| > 1 {
      var front := b[..|b| - 1];
      ValueHead(front);
      assert b[1..][..|b| - 2] == front[1..];
      assert Value(b[1..]) == Value(front[1..]) * 256 + b[|b| - 1];
      assert (b[0] * Power256(|b| - 2)) * 256 == b[0] * Power256(|b| - 1) by {
        assert Power256(|b| - 1) == 256 * Power256(|b| - 2);
      }
    }
  }

  /** Byte order is numeric order: comparing arrays lexicographically orders stamps
      chronologically. */
  lemma {:induction false} LexIsNumeric(a: seq<u8>, b: seq<u8>)
    requires |a| == |b|
    ensures LexLess(a, b) <==> Value(a) < Value(b)
    ensures a == b <==> Value(a) == Value(b)
  {
    if |a| > 0 {
      ValueHead(a);
      ValueHead(b);
      LexIsNumeric(a[1..], b[1..]);
      ValueBound(a[1..]);
      ValueBound(b[1..]);
      var p := Power256(|a| - 1);
      if a[0] == b[0] {
        assert a == [a[0]] + a[1..] && b == [b[0]] + b[1..];
      } else if a[0] < b[0] {
        HigherDigitWins(a[0], b[0], p, Value(a[1..]), Value(b[1..]));
      } else {
        HigherDigitWins(b[0], a[0], p, Value(b[1..]), Value(a[1..]));
      }
    }
  }

  lemma HigherDigitWins(x: int, y: int, p: int, lowX: int, lowY: int)
    requires x < y && 0 <= lowX < p && 0 <= lowY
    ensures x * p + lowX < y * p + lowY
  {
    assert (x + 1) * p <= y * p;
    assert (x + 1) * p == x * p + p;
  }

  lemma {:induction false} BigEndianRoundTrip(v: nat, len: nat)
    requires v < Power256(len)
    ensures Value(ToBigEndian(v, len)) == v
  {
    if len > 0 {
      BigEndianRoundTrip(v / 256, len - 1);
      assert ToBigEndian(v, len)[..len - 1] == ToBigEndian(v / 256, len - 1);
    }
  }

  function FromUnix(unixSecs: u64, unixNanos: u32): (r: Tai64N) {
    var secs := AddNanos(TAI64_UNIX_BASE, unixSecs);
    var nanos := (unixNanos - unixNanos % 0x100_0000) % 1_000_000_000;
    ToBigEndian(secs, 8) + ToBigEndian(nanos, 4)
  }

  function Stamp(now: Now): (r: Tai64N) {
    FromUnix(now.unixSecs, now.unixNanos)
  }

  lemma {:induction false} ValueAppend(a: seq<u8>, b: seq<u8>)
    ensures Value(a + b) == Value(a) * Power256(|b|) + Value(b)
  {
    if b == [] {
      assert a + b == a;
    } else {
      var front, last := b[..|b| - 1], b[|b| - 1];
      ValueAppend(a, front);
      assert (a + b)[..|a + b| - 1] == a + front;
      assert (Value(a) * Power256(|front|)) * 256 == Value(a) * Power256(|b|);
    }
  }

  lemma FromUnixValue(unixSecs: u64, unixNanos: u32)
    requires unixNanos < 1_000_000_000
    ensures Value(FromUnix(unixSecs, unixNanos))
         == AddNanos(TAI64_UNIX_BASE, unixSecs) * U32_LIMIT + unixNanos / 0x100_0000 * 0x100_0000
  {
    hide Value, ToBigEndian, Power256;
    var secs := AddNanos(TAI64_UNIX_BASE, unixSecs);
    var nanos := unixNanos - unixNanos % 0x100_0000;
    PowersOf256();
    ValueAppend(ToBigEndian(secs, 8), ToBigEndian(nanos, 4));
    BigEndianRoundTrip(secs, 8);
    BigEndianRoundTrip(nanos, 4);
  }

  /** Comparing stamps as byte strings orders wall-clock readings: by second, saturated at the
      top of the range, then by the nanoseconds that whitening keeps. */
  lemma StampsAreChronological(a: Now, b: Now)
    requires a.unixNanos < 1_000_000_000 && b.unixNanos < 1_000_000_000
    ensures var s, t := AddNanos(TAI64_UNIX_BASE, a.unixSecs), AddNanos(TAI64_UNIX_BASE, b.unixSecs);
            LexLess(Stamp(a), Stamp(b)) <==> s < t || (s == t && a.unixNanos / 0x100_0000 < b.unixNanos / 0x100_0000)
  {
    hide FromUnix, LexLess, Value;
    FromUnixValue(a.unixSecs, a.unixNanos);
    FromUnixValue(b.unixSecs, b.unixNanos);
    LexIsNumeric(Stamp(a), Stamp(b));
  }

  /** Byte-wise increment with carry, no saturation: all-ones wraps to zero. */
  function Increment(b: seq<u8>): (r: seq<u8>)
    ensures |r| == |b|
  {
    if |b| == 0 then []
    else if b[|b| - 1] == 255 then Increment(b[..|b| - 1]) + [0]
    else b[..|b| - 1] + [b[|b| - 1] + 1]
  }

  function Tick(b: Tai64N): (r: Tai64N) {
    if b == ALL_ONES then ALL_ONES else Increment(b)
  }

  lemma {:induction false} IncrementValue(b: seq<u8>)
    ensures Value(Increment(b)) == if Value(b) == Power256(|b|) - 1 then 0 else Value(b) + 1
  {
    if |b| > 0 {
      var front, last := b[..|b| - 1], b[|b| - 1];
      IncrementValue(front);
      ValueBound(front);
      if last == 255 {
        assert Increment(b)[..|b| - 1] == Increment(front);
      } else {
        assert Increment(b)[..|b| - 1] == front;
      }
    }
  }

  lemma {:induction false} SaturatedValue(b: seq<u8>)
    ensures (forall i :: 0 <= i < |b| ==> b[i] == 255) <==> Value(b) == Power256(|b|) - 1
  {
    if |b| > 0 {
      var front := b[..|b| - 1];
      SaturatedValue(front);
      ValueBound(front);
      if Value(b) == Power256(|b|) - 1 {
        assert forall i :: 0 <= i < |front| ==> front[i] == 255;
        assert forall i :: 0 <= i < |front| ==> b[i] == front[i];
      }
    }
  }

  /** `tick` is the 96-bit successor in the byte order of the stamp, and stays put at
      the top. */
  lemma TickIsSuccessor(b: Tai64N)
    ensures b != ALL_ONES ==> Value(Tick(b)) == Value(b) + 1 && LexLess(b, Tick(b))
    ensures b == ALL_ONES ==> Tick(b) == b
    ensures forall c: Tai64N :: LexLess(b, c) ==> LexLessEq(Tick(b), c)
  {
    SaturatedValue(b);
    SaturatedValue(ALL_ONES);
    IncrementValue(b);
    LexIsNumeric(b, ALL_ONES);
    LexIsNumeric(b, Tick(b));
    forall c: Tai64N | LexLess(b, c)
      ensures LexLessEq(Tick(b), c)
    {
      LexIsNumeric(b, c);
      LexIsNumeric(Tick(b), c);
      ValueBound(c);
    }
  }

  /** Exactly one of less-than, equal and greater-than holds, and less-than chains. */
  lemma StampOrder(a: Tai64N, b: Tai64N, c: Tai64N)
    ensures LexLess(a, b) <==> !LexLessEq(b, a)
    ensures LexLess(a, b) && LexLess(b, c) ==> LexLess(a, c)
  {
    LexIsNumeric(a, b);
    LexIsNumeric(b, a);
    LexIsNumeric(b, c);
    LexIsNumeric(a, c);
  }

  /** `Tai64N::tick` as the source runs it: a carry walks back through a copy of the
      bytes and stops at the first byte that does not overflow. */
  method TickInPlace(stamp: Tai64N) returns (r: seq<u8>)
    ensures r == Tick(stamp)
  {
    hide Increment;
    var bytes := new u8[12](i requires 0 <= i < 12 => stamp[i]);
    var i := 12;
    assert bytes[..] == stamp && stamp[..12] == stamp && stamp + Zeros(0) == stamp;
    while i > 0
      invariant 0 <= i <= 12
      invariant bytes[..] == stamp[..i] + Zeros(12 - i)
      invariant stamp[i..] == seq(12 - i, _ => 255)
      invariant Increment(stamp) == Increment(stamp[..i]) + Zeros(12 - i)
    {
      i := i - 1;
      IncrementLast(stamp[..i], stamp[i]);
      assert stamp[..i + 1] == stamp[..i] + [stamp[i]];
      if bytes[i] == 255 {
        bytes[i] := 0;
        assert [0] + Zeros(11 - i) == Zeros(12 - i);
      } else {
        bytes[i] := bytes[i] + 1;
        r := bytes[..];
        NotSaturated(stamp, i);
        return;
      }
    }
    assert stamp == ALL_ONES by { assert stamp[0..] == stamp; }
    r := ALL_ONES;
  }

  lemma IncrementLast(front: seq<u8>, last: u8)
    ensures Increment(front + [last]) == if last == 255 then Increment(front) + [0] else front + [last + 1]
  {
    assert (front + [last])[..|front|] == front;
  }

  lemma NotSaturated(stamp: Tai64N, i: nat)
    requires i < 12 && stamp[i] != 255
    ensures Tick(stamp) == Increment(stamp)
  {
    assert ALL_ONES[i] == 255;
  }
}
