/** Division, remainder and congruence facts shared by the arithmetic modules. */
module Arith {
  import opened Machine

  // Wrapping arithmetic on 64-bit words.
  function WrapAdd(x: int, y: int): (r: int) { (x + y) % U64_LIMIT }

  function WrapSub(x: int, y: int): (r: int) { (x - y) % U64_LIMIT }

  function WrapMul(x: int, y: int): (r: int) { x * y % U64_LIMIT }

  lemma SmallMultiple(k: int, m: int)
    requires m > 0
    requires -m < k * m < m
    ensures k == 0
  {
  }

  lemma DivModUnique(x: int, q: int, r: int, m: int)
    requires 0 <= r < m
    requires x == q * m + r
    ensures x % m == r && x / m == q
  {
    var q2, r2 := x / m, x % m;
    assert x == m * q2 + r2;
    assert (q - q2) * m == r2 - r by {
      assert (q - q2) * m == q * m - q2 * m;
      assert q2 * m == m * q2;
    }
    SmallMultiple(q - q2, m);
  }

  lemma SmallMod(x: int, m: int)
    requires 0 <= x < m
    ensures x % m == x
  {
    DivModUnique(x, 0, x, m);
  }

  lemma SuccessorMod(x: int, m: int)
    requires m > 1
    ensures (x + 1) % m == if x % m == m - 1 then 0 else x % m + 1
  {
    var q, r := x / m, x % m;
    assert x == q * m + r by { assert x == m * q + r; assert m * q == q * m; }
    if r == m - 1 {
      assert (q + 1) * m == q * m + m;
      DivModUnique(x + 1, q + 1, 0, m);
    } else {
      DivModUnique(x + 1, q, r + 1, m);
    }
  }

  /** Adding a multiple of the modulus changes nothing. */
  lemma ModMultiple(x: int, y: int, k: int, m: int)
    requires m > 0 && x == y + k * m
    ensures x % m == y % m
  {
    var q, r := y / m, y % m;
    assert y == q * m + r by { assert y == m * q + r; assert m * q == q * m; }
    assert x == (q + k) * m + r by { assert (q + k) * m == q * m + k * m; }
    DivModUnique(x, q + k, r, m);
  }

  lemma ModAdd(a: int, b: int, c: int, d: int, m: int)
    requires m > 0 && a % m == c % m && b % m == d % m
    ensures (a + b) % m == (c + d) % m
  {
    var i := ModDifference(a, c, m);
    var j := ModDifference(b, d, m);
    assert (i + j) * m == i * m + j * m;
    ModMultiple(a + b, c + d, i + j, m);
  }

  lemma ModMul(a: int, b: int, c: int, d: int, m: int)
    requires m > 0 && a % m == c % m && b % m == d % m
    ensures (a * b) % m == (c * d) % m
  {
    var i := ModDifference(a, c, m);
    var j := ModDifference(b, d, m);
    assert a * b == c * d + (c * j + i * d + i * j * m) * m by { ExpandProduct(a, b, c, d, i, j, m); }
    ModMultiple(a * b, c * d, c * j + i * d + i * j * m, m);
  }

  lemma ExpandProduct(a: int, b: int, c: int, d: int, i: int, j: int, m: int)
    requires a == c + i * m && b == d + j * m
    ensures a * b == c * d + (c * j + i * d + i * j * m) * m
  {}

  /** Congruent numbers differ by a multiple of the modulus. */
  lemma ModDifference(a: int, c: int, m: int) returns (k: int)
    requires m > 0 && a % m == c % m
    ensures a == c + k * m
  {
    k := a / m - c / m;
    assert a == m * (a / m) + a % m && c == m * (c / m) + c % m;
    assert k * m == m * (a / m) - m * (c / m);
  }

  lemma ModSub(a: int, b: int, c: int, d: int, m: int)
    requires m > 0 && a % m == c % m && b % m == d % m
    ensures (a - b) % m == (c - d) % m
  {
    var i := ModDifference(a, c, m);
    var j := ModDifference(b, d, m);
    assert (i - j) * m == i * m - j * m;
    ModMultiple(a - b, c - d, i - j, m);
  }

  lemma ModMod(x: int, m: int)
    requires m > 0
    ensures (x % m) % m == x % m
  {
    SmallMod(x % m, m);
  }

  /** `lo | hi` for words that share no bit. */
  function OrDisjoint(lo: int, hi: int, unit: int): (r: int)
    requires 0 < unit && 0 <= lo < unit && 0 <= hi && hi % unit == 0
  {
    lo + hi
  }

  /** A left shift by log2(`scale`) of a 64-bit word keeps the low part of the word. */
  lemma ShiftLeft(x: int, scale: int, kept: int, limit: int)
    requires 0 <= x && 0 < scale && 0 < kept && scale * kept == limit
    ensures x * scale % limit == scale * (x % kept) && (x * scale % limit) % scale == 0
  {
    var q, r := x / kept, x % kept;
    assert x * scale == q * limit + scale * r by {
      assert x == kept * q + r;
      ShiftIdentity(x, q, r, scale, kept, limit);
    }
    assert 0 <= scale * r < limit by { ShiftBound(r, scale, kept); }
    DivModUnique(x * scale, q, scale * r, limit);
    DivModUnique(scale * r, r, 0, scale);
  }

  lemma ShiftIdentity(x: int, q: int, r: int, scale: int, kept: int, limit: int)
    requires x == kept * q + r && scale * kept == limit
    ensures x * scale == q * limit + scale * r
  {
    assert (kept * q) * scale == q * (scale * kept);
  }

  lemma ShiftBound(r: int, scale: int, kept: int)
    requires 0 <= r < kept && 0 < scale
    ensures 0 <= scale * r < scale * kept
  {}

  lemma ProductBound(x: int, y: int, xMax: int, yMax: int)
    requires 0 <= x <= xMax && 0 <= y <= yMax
    ensures 0 <= x * y <= xMax * yMax
  {}

  lemma JoinRoom(lo: int, r: int, scale: int, kept: int)
    requires 0 <= lo < scale && 0 <= r < kept
    ensures 0 <= lo + scale * r < scale * kept
  {
    ProductBound(scale, r, scale, kept - 1);
    assert scale * (kept - 1) == scale * kept - scale;
  }

  /** The low word of `lo | (l << k)`, where 2^k is `scale` and `kept` units of `l` fit. */
  lemma PackLow(lo: int, l: int, scale: int, kept: int, a: int, b: int, limit: int)
    requires 0 <= lo < scale && 0 <= b < kept && l == kept * a + b && scale * kept == limit
    ensures (lo + l * scale) % limit == lo + scale * b && 0 <= lo + scale * b < limit
  {
    ShiftIdentity(l, a, b, scale, kept, limit);
    JoinRoom(lo, b, scale, kept);
    DivModUnique(lo + l * scale, a, lo + scale * b, limit);
  }
}
