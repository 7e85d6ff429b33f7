/** `src/replay.rs`: the anti-replay window, a 128-word circular bitmap in the manner of
    section 2 of RFC 6479, and the plain set of seen counters it must agree with. */
module Replay {
  import opened Machine

  const WINDOW_BITS: u64 := 8128
  const WORDS: int := 128

  // ----- The set model -------------------------------------------------------

  ghost predicate IsGreatest(g: u64, seen: set<u64>) {
    g in seen && forall c :: c in seen ==> c <= g
  }

  /** What the window promises, with no bitmap in sight: a counter is fresh when it is
      below the reject limit, was never accepted, and no accepted counter is 8128 or
      more ahead of it. */
  predicate Fresh(seen: set<u64>, c: u64) {
    && c < REJECT_AFTER_MESSAGES
    && c !in seen
    && forall g :: g in seen ==> g < c + WINDOW_BITS
  }

  function Accepted(seen: set<u64>, c: u64): (r: set<u64>) {
    if Fresh(seen, c) then seen + {c} else seen
  }

  function AcceptAll(seen: set<u64>, counters: seq<u64>): (r: set<u64>) {
    if counters == [] then seen
    else Accepted(AcceptAll(seen, counters[..|counters| - 1]), counters[|counters| - 1])
  }

  /** Once a counter has been accepted, no later schedule of arrivals makes it fresh
      again; nor does any schedule revive a counter the window has left behind. */
  lemma {:induction false} NeverFreshAgain(seen: set<u64>, counters: seq<u64>, c: u64)
    requires !Fresh(seen, c)
    ensures seen <= AcceptAll(seen, counters)
    ensures !Fresh(AcceptAll(seen, counters), c)
  {
    if counters != [] {
      NeverFreshAgain(seen, counters[..|counters| - 1], c);
    }
  }

  // ----- Bits of a word ------------------------------------------------------

  /** `1u64 << i`. */
  function Mask(i: nat): (m: bv64)
    requires i < 64
  {
    if i == 0 then 1 else Mask(i - 1) << 1
  }

  predicate Meets(x: bv64, y: bv64) {
    x & y != 0
  }

  function Or(x: bv64, y: bv64): (r: bv64) { x | y }

  predicate Bit(w: bv64, i: nat)
    requires i < 64
  {
    Meets(w, Mask(i))
  }

  function ShiftUp(x: bv64, n: nat): (r: bv64)
    decreases n
  {
    if n == 0 then x else ShiftUp(x << 1, n - 1)
  }

  lemma {:induction false} ShiftUpZero(n: nat)
    ensures ShiftUp(0, n) == 0
  {
    if n > 0 { ShiftUpZero(n - 1); }
  }

  lemma {:induction false} ShiftUpMask(i: nat)
    requires i < 64
    ensures ShiftUp(Mask(i), 63 - i) == Mask(63)
    decreases 63 - i
  {
    if i < 63 {
      ShiftUpMask(i + 1);
      assert Mask(i + 1) == Mask(i) << 1;
    }
  }

  lemma {:induction false} TopMask()
    ensures Mask(63) != 0
  {
    assert Mask(8) == 0x100;
    assert Mask(16) == 0x1_0000;
    assert Mask(24) == 0x100_0000;
    assert Mask(32) == 0x1_0000_0000;
    assert Mask(40) == 0x100_0000_0000;
    assert Mask(48) == 0x1_0000_0000_0000;
    assert Mask(56) == 0x100_0000_0000_0000;
    assert Mask(63) == 0x8000_0000_0000_0000;
  }

  lemma MaskNonZero(i: nat)
    requires i < 64
    ensures Mask(i) != 0
  {
    ShiftUpMask(i);
    ShiftUpZero(63 - i);
    TopMask();
  }

  lemma {:induction false} MasksDisjoint(i: nat, j: nat)
    requires i < 64 && j < 64 && i != j
    ensures !Meets(Mask(i), Mask(j))
  {
    if i == 0 {
      LowBitOfDouble(Mask(j - 1));
    } else if j == 0 {
      LowBitOfDouble(Mask(i - 1));
    } else {
      MasksDisjoint(i - 1, j - 1);
      DoublesDisjoint(Mask(i - 1), Mask(j - 1));
    }
  }

  lemma LowBitOfDouble(x: bv64)
    ensures !Meets(1, x << 1) && !Meets(x << 1, 1)
  {}

  lemma DoublesDisjoint(x: bv64, y: bv64)
    requires !Meets(x, y)
    ensures !Meets(x << 1, y << 1)
  {}

  lemma OrSpreads(w: bv64, m: bv64, n: bv64)
    ensures (w | m) & n == (w & n) | (m & n)
  {}

  lemma OrWithZero(x: bv64)
    ensures x | 0 == x
  {}

  lemma OrThenMeetsOther(w: bv64, m: bv64, n: bv64)
    requires !Meets(m, n)
    ensures Meets(Or(w, m), n) == Meets(w, n)
  {
    OrSpreads(w, m, n);
    OrWithZero(w & n);
  }

  lemma OrThenMeetsSelf(w: bv64, m: bv64)
    requires m != 0
    ensures Meets(Or(w, m), m)
  {
    assert (w | m) & m == m;
  }

  lemma BitAfterSetOf(w: bv64, i: nat, j: nat, m: bv64, n: bv64)
    requires i < 64 && j < 64
    requires m == Mask(i) && n == Mask(j)
    ensures Meets(Or(w, m), n) <==> i == j || Meets(w, n)
  {
    hide Mask, Meets, Or;
    MaskNonZero(i);
    if i != j {
      MasksDisjoint(i, j);
      OrThenMeetsOther(w, m, n);
    } else {
      OrThenMeetsSelf(w, m);
    }
  }

  /** Setting a bit sets that bit and no other. */
  lemma BitAfterSet(w: bv64, after: bv64, i: nat, j: nat)
    requires i < 64 && j < 64
    requires after == Or(w, Mask(i))
    ensures Bit(after, j) <==> i == j || Bit(w, j)
  {
    hide Mask, Meets, Or;
    var m, n := Mask(i), Mask(j);
    BitAfterSetOf(w, i, j, m, n);
  }

  lemma ZeroWord(i: nat)
    requires i < 64
    ensures !Bit(0, i)
  {
    ZeroMeetsNothing(Mask(i));
  }

  lemma ZeroMeetsNothing(x: bv64)
    ensures !Meets(0, x)
  {}

  // ----- The bitmap ----------------------------------------------------------

  function WordOf(c: u64): (w: nat)
    ensures w < WORDS
  {
    (c / 64) % WORDS
  }

  /** The bit of counter `c` in a bitmap held as a sequence of words. */
  predicate BitAt(bitmap: seq<bv64>, c: u64)
    requires |bitmap| == WORDS
  {
    Bit(bitmap[WordOf(c)], c % 64)
  }

  function WithBit(bitmap: seq<bv64>, c: u64): (r: seq<bv64>)
    requires |bitmap| == WORDS
    ensures |r| == WORDS
  {
    bitmap[WordOf(c) := Or(bitmap[WordOf(c)], Mask(c % 64))]
  }

  /** Counters whose words fit in one turn of the ring and that are not equal use
      different bits. */
  lemma SetBitEffect(bitmap: seq<bv64>, c: u64, d: u64)
    requires |bitmap| == WORDS
    requires d / 64 < c / 64 + WORDS && c / 64 < d / 64 + WORDS
    ensures BitAt(WithBit(bitmap, c), d) <==> c == d || BitAt(bitmap, d)
  {
    if WordOf(c) == WordOf(d) {
      SameSlotSameWord(c / 64, d / 64);
      BitAfterSet(bitmap[WordOf(c)], WithBit(bitmap, c)[WordOf(c)], c % 64, d % 64);
    }
  }

  lemma SameSlotSameWord(v: nat, w: nat)
    requires v % WORDS == w % WORDS
    requires v < w + WORDS && w < v + WORDS
    ensures v == w
  {}

  /** The counters the bitmap answers for while `top` is the newest: the window behind
      it, and the rest of its own word. */
  predicate InSight(top: u64, d: u64) {
    top < d + WINDOW_BITS && (d <= top || d / 64 == top / 64)
  }

  ghost predicate Agrees(seen: set<u64>, top: u64, bitmap: seq<bv64>)
    requires |bitmap| == WORDS
  {
    forall d: u64 {:trigger BitAt(bitmap, d)} :: InSight(top, d) ==> (BitAt(bitmap, d) <==> d in seen)
  }

  /** The bitmap and the counter pair represent the set: inside the window a bit is set
      exactly for an accepted counter, and in the newest word the bits above the newest
      counter are zero, because no counter above it is in the set. */
  ghost predicate Represents(seen: set<u64>, greatest: u64, primed: bool, bitmap: seq<bv64>) {
    && |bitmap| == WORDS
    && (primed <==> seen != {})
    && (primed ==> IsGreatest(greatest, seen) && greatest < REJECT_AFTER_MESSAGES)
    && (primed ==> Agrees(seen, greatest, bitmap))
  }

  lemma AllClear(seen: set<u64>, top: u64, bitmap: seq<bv64>)
    requires |bitmap| == WORDS && forall k :: 0 <= k < WORDS ==> bitmap[k] == 0
    requires forall c :: c in seen ==> c + WINDOW_BITS <= top
    ensures Agrees(seen, top, bitmap)
  {
    forall d: u64 | InSight(top, d)
      ensures BitAt(bitmap, d) <==> d in seen
    {
      ZeroWord(d % 64);
    }
  }

  /** Sliding forward: the words strictly after the old top word, up to the new one,
      were cleared and every other word is untouched.  No in-window word is lost and no
      stale bit survives. */
  lemma SlideKeeps(seen: set<u64>, greatest: u64, before: seq<bv64>, after: seq<bv64>, c: u64)
    requires Represents(seen, greatest, true, before)
    requires greatest < c < greatest + WINDOW_BITS
    requires |after| == WORDS
    requires forall w :: greatest / 64 < w <= c / 64 ==> after[w % WORDS] == 0
    requires forall k :: 0 <= k < WORDS && (forall w :: greatest / 64 < w <= c / 64 ==> w % WORDS != k)
                         ==> after[k] == before[k]
    ensures Agrees(seen, c, after)
  {
    forall d: u64 | InSight(c, d)
      ensures BitAt(after, d) <==> d in seen
    {
      if d / 64 > greatest / 64 {
        assert after[(d / 64) % WORDS] == 0;
        ZeroWord(d % 64);
      } else {
        forall w | greatest / 64 < w <= c / 64
          ensures w % WORDS != WordOf(d)
        {
          if w % WORDS == WordOf(d) { SameSlotSameWord(w, d / 64); }
        }
        assert after[WordOf(d)] == before[WordOf(d)];
        assert BitAt(before, d) <==> d in seen;
      }
    }
  }

  /** Marking an unseen counter at or behind the top. */
  lemma MarkOne(seen: set<u64>, top: u64, bitmap: seq<bv64>, c: u64)
    requires |bitmap| == WORDS && Agrees(seen, top, bitmap)
    requires c <= top < c + WINDOW_BITS
    ensures Agrees(seen + {c}, top, WithBit(bitmap, c))
  {
    forall d: u64 | InSight(top, d)
      ensures BitAt(WithBit(bitmap, c), d) <==> d in seen + {c}
    {
      SetBitEffect(bitmap, c, d);
    }
  }

  class ReplayWindow {
    var greatest: u64
    var primed: bool
    const bitmap: array<bv64>
    /** Every counter for which `Accept` has returned true. */
    ghost var seen: set<u64>

    ghost predicate Valid()
      reads this, bitmap
    {
      bitmap.Length == WORDS && Represents(seen, greatest, primed, bitmap[..])
    }

    constructor ()
      ensures Valid() && seen == {} && fresh(bitmap)
    {
      greatest, primed, seen := 0, false, {};
      bitmap := new bv64[WORDS](_ => 0);
    }

    method GetBit(c: u64) returns (r: bool)
      requires bitmap.Length == WORDS
      ensures r == BitAt(bitmap[..], c)
    {
      hide Meets, Mask;
      var word := (c / 64) % WORDS;
      r := Meets(bitmap[word], Mask(c % 64));
    }

    method SetBit(c: u64)
      requires bitmap.Length == WORDS
      modifies bitmap
      ensures bitmap[..] == WithBit(old(bitmap[..]), c)
    {
      var word := (c / 64) % WORDS;
      bitmap[word] := bitmap[word] | Mask(c % 64);
    }

    method Check(c: u64) returns (r: bool)
      requires Valid()
      ensures r == Fresh(seen, c)
    {
      if c >= REJECT_AFTER_MESSAGES {
        return false;
      }
      if !primed || c > greatest {
        return true;
      }
      if greatest - c >= WINDOW_BITS {
        return false;
      }
      var b := GetBit(c);
      r := !b;
    }

    method ClearAll()
      requires bitmap.Length == WORDS
      modifies bitmap
      ensures forall k :: 0 <= k < WORDS ==> bitmap[k] == 0
    {
      forall k | 0 <= k < WORDS { bitmap[k] := 0; }
    }

    /** The loop of `accept`: clears the words the jump from the old top to `c` enters. */
    method ClearSkipped(c: u64)
      requires bitmap.Length == WORDS && c < greatest + WINDOW_BITS
      modifies bitmap
      ensures forall w :: greatest / 64 < w <= c / 64 ==> bitmap[w % WORDS] == 0
      ensures forall k :: 0 <= k < WORDS && (forall w :: greatest / 64 < w <= c / 64 ==> w % WORDS != k)
                          ==> bitmap[k] == old(bitmap[k])
    {
      var oldWord := greatest / 64;
      var newWord := c / 64;
      var w := oldWord + 1;
      while w <= newWord
        invariant oldWord < w
        invariant forall v :: oldWord < v < w && v <= newWord ==> bitmap[v % WORDS] == 0
        invariant forall k :: 0 <= k < WORDS && (forall v :: oldWord < v <= newWord ==> v % WORDS != k)
                              ==> bitmap[k] == old(bitmap[k])
        decreases newWord + 1 - w
      {
        bitmap[w % WORDS] := 0;
        w := w + 1;
      }
    }

    method Accept(c: u64) returns (r: bool)
      requires Valid()
      modifies this, bitmap
      ensures Valid()
      ensures r == Fresh(old(seen), c)
      ensures seen == Accepted(old(seen), c)
    {
      r := Check(c);
      if !r {
        return;
      }
      if !primed {
        primed := true;
        greatest := c;
        ClearAll();
        AllClear(seen, c, bitmap[..]);
      } else if c > greatest {
        ghost var before := bitmap[..];
        var advance := c - greatest;
        if advance >= WINDOW_BITS {
          ClearAll();
          AllClear(seen, c, bitmap[..]);
        } else {
          ClearSkipped(c);
          SlideKeeps(seen, greatest, before, bitmap[..], c);
        }
        greatest := c;
      }
      MarkOne(seen, greatest, bitmap[..], c);
      SetBit(c);
      seen := seen + {c};
    }
  }
}
