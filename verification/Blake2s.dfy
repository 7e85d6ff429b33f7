/** `src/crypto/blake2s.rs`: the buffered streaming hash against section 3.3 of RFC 7693. */
module Blake2s {
  import opened Machine
  import opened Bytes
  import opened Arith

  // ----- The compression function, section 3.2 of RFC 7693 -------------------------------------

  const IV: seq<bv32> :=
    [0x6a09_e667, 0xbb67_ae85, 0x3c6e_f372, 0xa54f_f53a, 0x510e_527f, 0x9b05_688c, 0x1f83_d9ab, 0x5be0_cd19]

  const SIGMA: seq<Row> := [
    [0, 1, 2, 3, 4, 5, 6, 7, 8, 9, 10, 11, 12, 13, 14, 15],
    [14, 10, 4, 8, 9, 15, 13, 6, 1, 12, 0, 2, 11, 7, 5, 3],
    [11, 8, 12, 0, 5, 2, 15, 13, 10, 14, 3, 6, 7, 1, 9, 4],
    [7, 9, 3, 1, 13, 12, 11, 14, 2, 6, 5, 10, 4, 0, 15, 8],
    [9, 0, 5, 7, 2, 4, 10, 15, 14, 1, 11, 12, 6, 8, 3, 13],
    [2, 12, 6, 10, 0, 11, 8, 3, 4, 13, 7, 5, 15, 14, 1, 9],
    [12, 5, 1, 15, 14, 13, 4, 10, 0, 7, 6, 3, 9, 2, 8, 11],
    [13, 11, 7, 14, 12, 1, 3, 9, 5, 0, 15, 4, 8, 6, 2, 10],
    [6, 15, 14, 9, 11, 3, 0, 8, 12, 2, 13, 7, 1, 4, 10, 5],
    [10, 2, 8, 4, 7, 6, 1, 5, 15, 11, 9, 14, 3, 12, 13, 0]
  ]

  type State = v: seq<bv32> | |v| == 16 witness seq(16, _ => 0)
  type Chain = h: seq<bv32> | |h| == 8 witness seq(8, _ => 0)
  type Block = b: seq<u8> | |b| == 64 witness seq(64, _ => 0)
  type Index = i: nat | i < 16
  type Row = s: seq<Index> | |s| == 16 witness seq(16, _ => 0)

  function Sum(x: bv32, y: bv32): (r: bv32) { x + y }

  /** Exclusive or, then a right rotation. */
  function Turned(x: bv32, y: bv32, n: nat): (r: bv32)
    requires n < 32
  {
    (x ^ y).RotateRight(n)
  }

  /** Half of the mixing function, with its two rotation distances. */
  function HalfMix(v: State, a: Index, b: Index, c: Index, d: Index, x: bv32, first: nat, second: nat): (r: State)
    requires first < 32 && second < 32
  {
    var v := v[a := Sum(Sum(v[a], v[b]), x)];
    var v := v[d := Turned(v[d], v[a], first)];
    var v := v[c := Sum(v[c], v[d])];
    v[b := Turned(v[b], v[c], second)]
  }

  /** The mixing function. */
  function Mix(v: State, a: Index, b: Index, c: Index, d: Index, x: bv32, y: bv32): (r: State) {
    HalfMix(HalfMix(v, a, b, c, d, x, 16, 12), a, b, c, d, y, 8, 7)
  }

  /** Four columns, then four diagonals. */
  const LANES: seq<(Index, Index, Index, Index)> := [
    (0, 4, 8, 12), (1, 5, 9, 13), (2, 6, 10, 14), (3, 7, 11, 15),
    (0, 5, 10, 15), (1, 6, 11, 12), (2, 7, 8, 13), (3, 4, 9, 14)
  ]

  /** The first `n` mixes of a round with schedule row `s`. */
  function Round(v: State, m: State, s: Row, n: nat): (r: State)
    requires n <= 8
  {
    if n == 0 then v
    else
      var (a, b, c, d) := LANES[n - 1];
      Mix(Round(v, m, s, n - 1), a, b, c, d, m[s[2 * n - 2]], m[s[2 * n - 1]])
  }

  function Rounds(v: State, m: State, rows: seq<Row>): (r: State) {
    if rows == [] then v else Round(Rounds(v, m, rows[..|rows| - 1]), m, rows[|rows| - 1], 8)
  }

  function MessageWords(block: Block): (m: State) {
    seq(16, i requires 0 <= i < 16 => Word32(block[4 * i..4 * i + 4]))
  }

  /** The working vector before the rounds. */
  function Setup(h: Chain, t: u64, last: bool): (v: State) {
    h + IV[..4] + [IV[4] ^ ((t % U32_LIMIT) as bv32), IV[5] ^ ((t / U32_LIMIT) as bv32),
        if last then !IV[6] else IV[6], IV[7]]
  }

  function Compress(h: Chain, block: Block, t: u64, last: bool): (r: Chain) {
    Fold(h, Rounds(Setup(h, t, last), MessageWords(block), SIGMA))
  }

  // ----- The same, in place ------------------------------------------------------------------------

  method HalfG(v: array<bv32>, a: Index, b: Index, c: Index, d: Index, x: bv32, first: nat, second: nat)
    requires v.Length == 16 && first < 32 && second < 32
    modifies v
    ensures v[..] == HalfMix(old(v[..]), a, b, c, d, x, first, second)
  {
    hide Sum, Turned;
    v[a] := Sum(Sum(v[a], v[b]), x);
    v[d] := Turned(v[d], v[a], first);
    v[c] := Sum(v[c], v[d]);
    v[b] := Turned(v[b], v[c], second);
  }

  method G(v: array<bv32>, a: Index, b: Index, c: Index, d: Index, x: bv32, y: bv32)
    requires v.Length == 16
    modifies v
    ensures v[..] == Mix(old(v[..]), a, b, c, d, x, y)
  {
    hide HalfMix;
    HalfG(v, a, b, c, d, x, 16, 12);
    HalfG(v, a, b, c, d, y, 8, 7);
  }

  method Columns(v: array<bv32>, m: array<bv32>, s: Row)
    requires v.Length == 16 && m.Length == 16 && v != m
    modifies v
    ensures v[..] == Round(old(v[..]), m[..], s, 4)
  {
    hide Mix;
    ghost var start := v[..];
    G(v, 0, 4, 8, 12, m[s[0]], m[s[1]]);
    assert v[..] == Round(start, m[..], s, 1);
    G(v, 1, 5, 9, 13, m[s[2]], m[s[3]]);
    assert v[..] == Round(start, m[..], s, 2);
    G(v, 2, 6, 10, 14, m[s[4]], m[s[5]]);
    assert v[..] == Round(start, m[..], s, 3);
    G(v, 3, 7, 11, 15, m[s[6]], m[s[7]]);
  }

  method Diagonals(v: array<bv32>, m: array<bv32>, s: Row, ghost start: State)
    requires v.Length == 16 && m.Length == 16 && v != m && v[..] == Round(start, m[..], s, 4)
    modifies v
    ensures v[..] == Round(start, m[..], s, 8)
  {
    hide Mix;
    G(v, 0, 5, 10, 15, m[s[8]], m[s[9]]);
    assert v[..] == Round(start, m[..], s, 5);
    G(v, 1, 6, 11, 12, m[s[10]], m[s[11]]);
    assert v[..] == Round(start, m[..], s, 6);
    G(v, 2, 7, 8, 13, m[s[12]], m[s[13]]);
    assert v[..] == Round(start, m[..], s, 7);
    G(v, 3, 4, 9, 14, m[s[14]], m[s[15]]);
  }

  /** The eight calls of one round. */
  method RoundInPlace(v: array<bv32>, m: array<bv32>, s: Row)
    requires v.Length == 16 && m.Length == 16 && v != m
    modifies v
    ensures v[..] == Round(old(v[..]), m[..], s, 8)
  {
    hide Round;
    ghost var start := v[..];
    Columns(v, m, s);
    Diagonals(v, m, s, start);
  }

  method LoadBlock(block: Block) returns (m: array<bv32>)
    ensures m.Length == 16 && fresh(m) && m[..] == MessageWords(block)
  {
    hide Word32;
    m := new bv32[16](_ => 0);
    for i := 0 to 16
      invariant forall j :: 0 <= j < i ==> m[j] == Word32(block[4 * j..4 * j + 4])
    {
      m[i] := Word32(block[4 * i..4 * i + 4]);
    }
  }

  method RoundsInPlace(v: array<bv32>, m: array<bv32>, rows: seq<Row>)
    requires v.Length == 16 && m.Length == 16 && v != m
    modifies v
    ensures v[..] == Rounds(old(v[..]), m[..], rows)
  {
    hide Round;
    ghost var start := v[..];
    for i := 0 to |rows|
      invariant v[..] == Rounds(start, m[..], rows[..i])
    {
      RoundInPlace(v, m, rows[i]);
      assert rows[..i + 1][..i] == rows[..i];
    }
    assert rows[..|rows|] == rows;
  }

  function Xor3(x: bv32, y: bv32, z: bv32): (r: bv32) { x ^ (y ^ z) }

  /** `h ^= v_lo ^ v_hi`, word by word. */
  function Fold(h: Chain, v: State): (r: Chain) {
    seq(8, i requires 0 <= i < 8 => Xor3(h[i], v[i], v[i + 8]))
  }

  method FoldInPlace(h: array<bv32>, v: array<bv32>)
    requires h.Length == 8 && v.Length == 16 && h != v
    modifies h
    ensures h[..] == Fold(old(h[..]), v[..])
  {
    hide Xor3;
    for i := 0 to 8
      invariant forall j :: 0 <= j < 8 ==> h[j] == if j < i then Xor3(old(h[j]), v[j], v[j + 8]) else old(h[j])
    {
      h[i] := Xor3(h[i], v[i], v[i + 8]);
    }
  }

  method CompressInPlace(h: array<bv32>, block: Block, t: u64, last: bool)
    requires h.Length == 8
    modifies h
    ensures h[..] == Compress(old(h[..]), block, t, last)
  {
    hide Rounds, MessageWords, Setup, Fold;
    var m := LoadBlock(block);
    var start := Setup(h[..], t, last);
    var v := new bv32[16](i requires 0 <= i < 16 => start[i]);
    assert v[..] == start;
    RoundsInPlace(v, m, SIGMA);
    FoldInPlace(h, v);
  }

  // ----- The reference hash, section 3.3 of RFC 7693 ----------------------------------------------

  /** The chaining value after whole non-final blocks; each is compressed with the number of
      bytes up to its end. */
  function Chained(start: Chain, whole: seq<u8>): (h: Chain)
    requires |whole| % 64 == 0
    decreases |whole|
  {
    if whole == [] then start
    else
      var n := |whole| - 64;
      Compress(Chained(start, whole[..n]), whole[n..], |whole| % U64_LIMIT, false)
  }

  lemma ChainedNext(start: Chain, whole: seq<u8>, block: Block)
    requires |whole| % 64 == 0
    ensures |whole + block| % 64 == 0
    ensures Chained(start, whole + block) == Compress(Chained(start, whole), block, (|whole| + 64) % U64_LIMIT, false)
  {
    hide Compress;
    var next := whole + block;
    assert next[..|next| - 64] == whole && next[|next| - 64..] == block;
  }

  function ChainBytes(h: seq<bv32>): (b: seq<u8>)
    ensures |b| == 4 * |h|
  {
    if h == [] then [] else ChainBytes(h[..|h| - 1]) + ToLe(h[|h| - 1] as int, 4)
  }

  /** How many bytes come before the final block, which is never empty unless the input is. */
  function BeforeLast(len: nat): (n: nat)
    ensures n <= len && n % 64 == 0 && len - n <= 64 && (len > 0 ==> n < len)
  {
    if len == 0 then 0 else (len - 1) / 64 * 64
  }

  /** Every block but the last through `Chained`, the last zero-padded and flagged. */
  function Digest(start: Chain, input: seq<u8>): (d: seq<u8>)
    ensures |d| == 32
  {
    var n := BeforeLast(|input|);
    var last := input[n..];
    ChainBytes(Compress(Chained(start, input[..n]), last + Zeros(64 - |last|), |input| % U64_LIMIT, true))
  }

  /** The parameter word: key length and output length. */
  function Parameters(outLen: nat, keyLen: nat): (h: Chain)
    requires outLen <= 32 && keyLen <= 32
  {
    IV[0 := IV[0] ^ (0x0101_0000 ^ ((keyLen as bv32) << 8) ^ (outLen as bv32))]
  }

  function KeyBlock(key: seq<u8>): (b: seq<u8>)
    requires |key| <= 32
  {
    if key == [] then [] else key + Zeros(64 - |key|)
  }

  function Hash(key: seq<u8>, msg: seq<u8>, outLen: nat): (d: seq<u8>)
    requires |key| <= 32 && outLen <= 32
    ensures |d| == outLen
  {
    Digest(Parameters(outLen, |key|), KeyBlock(key) + msg)[..outLen]
  }

  // ----- The streaming core ------------------------------------------------------------------------

  class Core {
    const h: array<bv32>
    var t: u64
    const buf: array<u8>
    var bufLen: nat
    ghost const start: Chain
    /** The whole blocks compressed so far. */
    ghost var whole: seq<u8>

    ghost predicate Valid()
      reads this, h, buf
    {
      && h.Length == 8 && buf.Length == 64 && bufLen <= 64 && |whole| % 64 == 0
      && t == |whole| % U64_LIMIT && h[..] == Chained(start, whole)
      && (bufLen == 0 ==> whole == [])
    }

    /** Everything absorbed so far, the key block included. */
    ghost function Absorbed(): (s: seq<u8>)
      requires Valid()
      reads this, h, buf
    {
      whole + buf[..bufLen]
    }

    constructor (outLen: nat, key: seq<u8>)
      requires outLen <= 32 && |key| <= 32
      ensures Valid() && fresh(h) && fresh(buf)
      ensures start == Parameters(outLen, |key|) && Absorbed() == KeyBlock(key)
    {
      hide Parameters, Compress;
      var p := Parameters(outLen, |key|);
      h := new bv32[8](i requires 0 <= i < 8 => p[i]);
      t := 0;
      var b := new u8[64](_ => 0);
      bufLen := if key == [] then 0 else 64;
      start := p;
      whole := [];
      buf := b;
      new;
      if key != [] {
        for i := 0 to |key|
          invariant buf[..i] == key[..i] && forall j :: i <= j < 64 ==> buf[j] == 0
          modifies buf
        {
          buf[i] := key[i];
        }
        assert buf[..] == key + Zeros(64 - |key|);
      }
      assert h[..] == p;
    }

    /** Compress the buffered block as a non-final one. */
    method Flush()
      requires Valid() && bufLen == 64
      modifies this`t, this`bufLen, this`whole, h
      ensures h.Length == 8 && bufLen == 0 && whole == old(whole) + old(buf[..64]) && |whole| % 64 == 0
      ensures t == |whole| % U64_LIMIT && h[..] == Chained(start, whole)
    {
      hide Compress, Chained;
      ChainedNext(start, whole, buf[..]);
      ModAdd(t, 64, |whole|, 64, U64_LIMIT) by { SmallMod(t, U64_LIMIT); }
      t := (t + 64) % U64_LIMIT;
      CompressInPlace(h, buf[..], t, false);
      whole := whole + buf[..];
      bufLen := 0;
    }

    /** Copy as much of `data` as fits behind the buffered bytes. */
    method Fill(data: seq<u8>) returns (take: nat)
      requires buf.Length == 64 && bufLen <= 64
      modifies this`bufLen, buf
      ensures take == (if |data| < 64 - old(bufLen) then |data| else 64 - old(bufLen)) && bufLen == old(bufLen) + take
      ensures buf[..bufLen] == old(buf[..bufLen]) + data[..take]
    {
      take := if |data| < 64 - bufLen then |data| else 64 - bufLen;
      for i := 0 to take
        invariant bufLen == old(bufLen)
        invariant buf[..bufLen + i] == old(buf[..bufLen]) + data[..i]
      {
        buf[bufLen + i] := data[i];
      }
      bufLen := bufLen + take;
    }

    /** One turn of the loop of `update`: flush a full buffer now that more input follows, then
        fill it. */
    method Take(rest: seq<u8>) returns (take: nat)
      requires Valid() && rest != []
      modifies this`t, this`bufLen, this`whole, h, buf
      ensures Valid() && 0 < take <= |rest| && Absorbed() == old(Absorbed()) + rest[..take]
    {
      hide Chained;
      ghost var before := Absorbed();
      if bufLen == 64 {
        Flush();
      }
      assert whole + buf[..bufLen] == before;
      take := Fill(rest);
      assert whole + buf[..bufLen] == before + rest[..take];
    }

    method Update(data: seq<u8>)
      requires Valid()
      modifies this`t, this`bufLen, this`whole, h, buf
      ensures Valid() && Absorbed() == old(Absorbed()) + data
    {
      hide Chained;
      ghost var start := Absorbed();
      var rest, done := data, 0;
      assert start + data[..0] == start;
      while rest != []
        invariant Valid() && 0 <= done <= |data| && rest == data[done..] && Absorbed() == start + data[..done]
        decreases |rest|
      {
        var take := Take(rest);
        assert data[..done] + rest[..take] == data[..done + take];
        rest, done := rest[take..], done + take;
      }
      assert data[..done] == data;
    }

    /** Zero the unused part of the buffer. */
    method ZeroTail()
      requires buf.Length == 64 && bufLen <= 64
      modifies buf
      ensures buf[..] == old(buf[..bufLen]) + Zeros(64 - bufLen)
    {
      for i := bufLen to 64
        invariant buf[..bufLen] == old(buf[..bufLen]) && forall j :: bufLen <= j < i ==> buf[j] == 0
      {
        buf[i] := 0;
      }
    }

    method Finalize() returns (out: seq<u8>)
      requires Valid()
      modifies this`t, h, buf
      ensures out == Digest(start, old(Absorbed()))
    {
      hide Compress, Chained;
      ghost var input := Absorbed();
      ModAdd(t, bufLen, |whole|, bufLen, U64_LIMIT) by { SmallMod(t, U64_LIMIT); }
      assert |input| == |whole| + bufLen;
      t := (t + bufLen) % U64_LIMIT;
      ZeroTail();
      assert input[..|whole|] == whole && input[|whole|..] == old(buf[..bufLen]);
      LastBlock(|whole|, bufLen);
      CompressInPlace(h, buf[..], t, true);
      out := Encode(h[..]);
    }
  }

  method Encode(h: seq<bv32>) returns (out: seq<u8>)
    ensures out == ChainBytes(h)
  {
    out := [];
    for i := 0 to |h|
      invariant out == ChainBytes(h[..i])
    {
      assert h[..i + 1][..i] == h[..i];
      out := out + ToLe(h[i] as int, 4);
    }
    assert h[..|h|] == h;
  }

  lemma LastBlock(whole: nat, tail: nat)
    requires whole % 64 == 0 && tail <= 64 && (tail == 0 ==> whole == 0)
    ensures BeforeLast(whole + tail) == whole
  {}

  /** `hash`: however the message is cut, the digest is that of the whole message. */
  method HashParts(parts: seq<seq<u8>>) returns (out: seq<u8>)
    ensures out == Hash([], Concat(parts), 32)
  {
    hide Digest, Chained, Parameters;
    var core := new Core(32, []);
    for i := 0 to |parts|
      invariant core.Valid() && fresh(core) && fresh(core.h) && fresh(core.buf)
      invariant core.start == Parameters(32, 0) && core.Absorbed() == Concat(parts[..i])
    {
      core.Update(parts[i]);
      ConcatNext(parts, i);
    }
    assert parts[..|parts|] == parts;
    assert [] + Concat(parts) == Concat(parts);
    out := core.Finalize();
  }

  /** What `mac` keys with: keys over 32 bytes are hashed first. */
  function MacKey(key: seq<u8>): (k: seq<u8>)
    ensures |k| <= 32
  {
    if |key| > 32 then Hash([], key, 32) else key
  }

  method MacParts(key: seq<u8>, parts: seq<seq<u8>>) returns (out: seq<u8>)
    ensures out == Hash(MacKey(key), Concat(parts), 16)
  {
    hide Digest, Chained, Parameters, KeyBlock;
    var k := key;
    if |key| > 32 {
      k := HashParts([key]);
      ConcatOne(key);
    }
    var core := new Core(16, k);
    for i := 0 to |parts|
      invariant core.Valid() && fresh(core) && fresh(core.h) && fresh(core.buf)
      invariant core.start == Parameters(16, |k|) && core.Absorbed() == KeyBlock(k) + Concat(parts[..i])
    {
      core.Update(parts[i]);
      ConcatNext(parts, i);
    }
    assert parts[..|parts|] == parts;
    var full := core.Finalize();
    out := full[..16];
  }
}
