/** `src/crypto/chacha20.rs`: the ChaCha20 keystream of RFC 8439. */
module ChaCha20 {
  import opened Machine
  import opened Bytes

  // ----- The permutation, sections 2.1 to 2.3 -----------------------------------------------------

  type State = v: seq<bv32> | |v| == 16 witness seq(16, _ => 0)
  type Index = i: nat | i < 16

  function Plus(x: bv32, y: bv32): (r: bv32) { x + y }

  function Xor32(x: bv32, y: bv32): (r: bv32) { x ^ y }

  function Rotated(x: bv32, n: nat): (r: bv32)
    requires n < 32
  {
    x.RotateLeft(n)
  }

  /** Exclusive or, then a left rotation. */
  function Turned(x: bv32, y: bv32, n: nat): (r: bv32)
    requires n < 32
  {
    Rotated(Xor32(x, y), n)
  }

  /** Half a quarter round, with its two rotation distances. */
  function HalfQuarter(v: State, a: Index, b: Index, c: Index, d: Index, first: nat, second: nat): (r: State)
    requires first < 32 && second < 32
  {
    var v := v[a := Plus(v[a], v[b])];
    var v := v[d := Turned(v[d], v[a], first)];
    var v := v[c := Plus(v[c], v[d])];
    v[b := Turned(v[b], v[c], second)]
  }

  function Quarter(v: State, a: Index, b: Index, c: Index, d: Index): (r: State) {
    HalfQuarter(HalfQuarter(v, a, b, c, d, 16, 12), a, b, c, d, 8, 7)
  }

  // The state of section 2.2.1 of RFC 8439 before, halfway through and after its quarter round.
  const BEFORE: State :=
    [0x879531e0, 0xc5ecf37d, 0x516461b1, 0xc9a62f8a, 0x44c20ef3, 0x3390af7f, 0xd9fc690b, 0x2a5f714c,
     0x53372767, 0xb00a5631, 0x974c541a, 0x359e9963, 0x5c971061, 0x3d631689, 0x2098d9d6, 0x91dbd320]
  const HALFWAY: State :=
    [0x879531e0, 0xc5ecf37d, 0x7bc3d2fd, 0xc9a62f8a, 0x44c20ef3, 0x3390af7f, 0xd9fc690b, 0x41f4b3df,
     0x17ab6e07, 0xb00a5631, 0x974c541a, 0x359e9963, 0x5c971061, 0xc47446a0, 0x2098d9d6, 0x91dbd320]
  const AFTER: State :=
    [0x879531e0, 0xc5ecf37d, 0xbdb886dc, 0xc9a62f8a, 0x44c20ef3, 0x3390af7f, 0xd9fc690b, 0xcfacafd2,
     0xe46bea80, 0xb00a5631, 0x974c541a, 0x359e9963, 0x5c971061, 0xccc07c79, 0x2098d9d6, 0x91dbd320]

  lemma FirstHalfVector()
    ensures HalfQuarter(BEFORE, 2, 7, 8, 13, 16, 12) == HALFWAY
  {}

  lemma SecondHalfVector()
    ensures HalfQuarter(HALFWAY, 2, 7, 8, 13, 8, 7) == AFTER
  {}

  /** The quarter round reproduces the published vector. */
  lemma QuarterVector()
    ensures Quarter(BEFORE, 2, 7, 8, 13) == AFTER
  {
    hide HalfQuarter;
    FirstHalfVector();
    SecondHalfVector();
  }

  /** The columns and diagonals of a double round. */
  const LANES: seq<(Index, Index, Index, Index)> := [
    (0, 4, 8, 12), (1, 5, 9, 13), (2, 6, 10, 14), (3, 7, 11, 15),
    (0, 5, 10, 15), (1, 6, 11, 12), (2, 7, 8, 13), (3, 4, 9, 14)
  ]

  /** The first `n` quarter rounds of a double round. */
  function DoubleRound(v: State, n: nat): (r: State)
    requires n <= 8
  {
    if n == 0 then v
    else
      var (a, b, c, d) := LANES[n - 1];
      Quarter(DoubleRound(v, n - 1), a, b, c, d)
  }

  function Permute(v: State, rounds: nat): (r: State) {
    if rounds == 0 then v else DoubleRound(Permute(v, rounds - 1), 8)
  }

  const SIGMA: seq<bv32> := [0x6170_7865, 0x3320_646e, 0x7962_2d32, 0x6b20_6574]

  /** Constants, key, counter and nonce. */
  function Start(key: seq<bv32>, ctr: bv32, nonce: seq<bv32>): (v: State)
    requires |key| == 8 && |nonce| == 3
  {
    [SIGMA[0], SIGMA[1], SIGMA[2], SIGMA[3], key[0], key[1], key[2], key[3],
     key[4], key[5], key[6], key[7], ctr, nonce[0], nonce[1], nonce[2]]
  }

  /** The permutation with the feed-forward addition. */
  function Worked(v: State, rounds: nat): (r: State) {
    var w := Permute(v, rounds);
    seq(16, i requires 0 <= i < 16 => Plus(w[i], v[i]))
  }

  const ROUNDS: nat := 10

  // ----- Words and bytes ----------------------------------------------------------------------------

  function WordBytes(w: bv32): (b: seq<u8>)
    ensures |b| == 4
  {
    ToLe(w as int, 4)
  }

  /** Little-endian words of a byte string. */
  function LoadWords(b: seq<u8>): (w: seq<bv32>)
    requires |b| % 4 == 0
    ensures |w| == |b| / 4
  {
    seq(|b| / 4, i requires 0 <= i < |b| / 4 => Word32(b[4 * i..4 * i + 4]))
  }

  function StoreWords(w: seq<bv32>): (b: seq<u8>)
    ensures |b| == 4 * |w|
  {
    if w == [] then [] else WordBytes(w[0]) + StoreWords(w[1..])
  }

  lemma StoreFirst(v: seq<bv32>)
    requires v != []
    ensures StoreWords(v) == WordBytes(v[0]) + StoreWords(v[1..])
  {}

  lemma StoreStep(v: seq<bv32>, w: seq<bv32>)
    requires v != [] && StoreWords(v[1..] + w) == StoreWords(v[1..]) + StoreWords(w)
    ensures StoreWords(v + w) == StoreWords(v) + StoreWords(w)
  {
    hide StoreWords, WordBytes;
    StoreFirst(v);
    StoreFirst(v + w);
    assert (v + w)[0] == v[0] && (v + w)[1..] == v[1..] + w;
    var head, tail := WordBytes(v[0]), StoreWords(v[1..]);
    assert head + (tail + StoreWords(w)) == head + tail + StoreWords(w);
  }

  lemma {:induction false} StoreAppend(v: seq<bv32>, w: seq<bv32>)
    ensures StoreWords(v + w) == StoreWords(v) + StoreWords(w)
  {
    if v == [] {
      assert v + w == w;
    } else {
      StoreAppend(v[1..], w);
      StoreStep(v, w);
    }
  }

  // ----- Keystream -------------------------------------------------------------------------------------

  type Key = Bytes32
  type Nonce = n: seq<u8> | |n| == 12 witness seq(12, _ => 0)

  /** The keystream block numbered `ctr`. */
  function WordBlock(key: seq<bv32>, ctr: bv32, nonce: seq<bv32>): (b: seq<u8>)
    requires |key| == 8 && |nonce| == 3
    ensures |b| == 64
  {
    StoreWords(Worked(Start(key, ctr, nonce), ROUNDS))
  }

  function Block(key: Key, ctr: bv32, nonce: Nonce): (b: seq<u8>)
    ensures |b| == 64
  {
    WordBlock(LoadWords(key), ctr, LoadWords(nonce))
  }

  function XorBytes(data: seq<u8>, stream: seq<u8>): (r: seq<u8>)
    requires |data| <= |stream|
    ensures |r| == |data|
  {
    seq(|data|, i requires 0 <= i < |data| => XorByte(data[i], stream[i]))
  }

  /** Exclusive or with consecutive blocks; the counter wraps at 2^32. */
  function XorStream(key: Key, ctr: bv32, nonce: Nonce, data: seq<u8>): (r: seq<u8>)
    ensures |r| == |data|
    decreases |data|
  {
    if |data| <= 64 then XorBytes(data, Block(key, ctr, nonce))
    else XorBytes(data[..64], Block(key, ctr, nonce)) + XorStream(key, Plus(ctr, 1), nonce, data[64..])
  }

  lemma XorBytesTwice(data: seq<u8>, stream: seq<u8>)
    requires |data| <= |stream|
    ensures XorBytes(XorBytes(data, stream), stream) == data
  {
    hide XorByte;
    forall i | 0 <= i < |data| ensures XorBytes(XorBytes(data, stream), stream)[i] == data[i] {
      XorByteTwice(data[i], stream[i]);
    }
  }

  /** Encryption is its own inverse, for every length and counter. */
  lemma {:induction false} XorStreamTwice(key: Key, ctr: bv32, nonce: Nonce, data: seq<u8>)
    ensures XorStream(key, ctr, nonce, XorStream(key, ctr, nonce, data)) == data
    decreases |data|
  {
    hide Block, XorBytes, Plus;
    if |data| <= 64 {
      XorBytesTwice(data, Block(key, ctr, nonce));
    } else {
      XorBytesTwice(data[..64], Block(key, ctr, nonce));
      XorStreamTwice(key, Plus(ctr, 1), nonce, data[64..]);
      var r := XorStream(key, ctr, nonce, data);
      assert r[..64] == XorBytes(data[..64], Block(key, ctr, nonce));
      assert r[64..] == XorStream(key, Plus(ctr, 1), nonce, data[64..]);
      assert data == data[..64] + data[64..];
    }
  }

  // ----- The scalar backend ------------------------------------------------------------------------------

  /** `block`, with the ten double rounds as a loop. */
  method ScalarBlock(key: Key, ctr: bv32, nonce: Nonce) returns (out: seq<u8>)
    ensures out == Block(key, ctr, nonce)
  {
    hide DoubleRound, LoadWords, Start, Plus, WordBytes;
    var state := Start(LoadWords(key), ctr, LoadWords(nonce));
    var x := state;
    for i := 0 to ROUNDS
      invariant x == Permute(state, i)
    {
      x := DoubleRound(x, 8);
    }
    out := [];
    ghost var worked := Worked(state, ROUNDS);
    for i := 0 to 16
      invariant out == StoreWords(worked[..i])
    {
      StoreAppend(worked[..i], [worked[i]]);
      assert worked[..i + 1] == worked[..i] + [worked[i]];
      assert [worked[i]][1..] == [];
      out := out + WordBytes(Plus(x[i], state[i]));
    }
    assert worked[..16] == worked;
  }

  /** `xor_tail`: exclusive or of a stretch of the buffer with the front of `ks`. */
  method XorInto(data: array<u8>, at: nat, n: nat, ks: seq<u8>)
    requires at + n <= data.Length && n <= |ks|
    modifies data
    ensures data[..at] == old(data[..at]) && data[at + n..] == old(data[at + n..])
    ensures data[at..at + n] == XorBytes(old(data[at..at + n]), ks)
  {
    hide XorByte;
    for i := 0 to n
      invariant data[..at] == old(data[..at]) && data[at + i..] == old(data[at + i..])
      invariant forall j :: 0 <= j < i ==> data[at + j] == XorByte(old(data[at + j]), ks[j])
    {
      data[at + i] := XorByte(data[at + i], ks[i]);
    }
  }

  /** The same on the tail of a longer buffer, seen from `start`. */
  method XorChunk(data: array<u8>, start: nat, at: nat, n: nat, ks: seq<u8>)
    requires start <= at && at + n <= data.Length && n <= |ks|
    modifies data
    ensures data[..start] == old(data[..start])
    ensures data[start..at + n] == old(data[start..at]) + XorBytes(old(data[at..])[..n], ks)
    ensures data[at + n..] == old(data[at..])[n..]
  {
    hide XorBytes;
    ghost var front, rest := data[..at], data[at..];
    XorInto(data, at, n, ks);
    assert rest[..n] == old(data[at..at + n]) && rest[n..] == old(data[at + n..]);
    assert data[..at] == front;
    assert front[..start] == data[..start] && front[start..] == data[start..at];
    assert data[start..at + n] == data[start..at] + data[at..at + n];
  }

  // ----- Strides of several blocks ---------------------------------------------------------------------

  /** `m` consecutive blocks. */
  function Blocks(key: Key, ctr: bv32, nonce: Nonce, m: nat): (b: seq<u8>)
    ensures |b| == 64 * m
    decreases m
  {
    if m == 0 then [] else Block(key, ctr, nonce) + Blocks(key, Plus(ctr, 1), nonce, m - 1)
  }

  /** The counter after `m` blocks. */
  function Advance(ctr: bv32, m: nat): (r: bv32)
    decreases m
  {
    if m == 0 then ctr else Advance(Plus(ctr, 1), m - 1)
  }

  /** Exclusive or with one stride of blocks, whole or cut short, then the rest. */
  lemma {:induction false} Stride(key: Key, ctr: bv32, nonce: Nonce, data: seq<u8>, m: nat, n: nat)
    requires m > 0 && data != [] && n == if |data| < 64 * m then |data| else 64 * m
    ensures XorStream(key, ctr, nonce, data)
         == XorBytes(data[..n], Blocks(key, ctr, nonce, m)) + XorStream(key, Advance(ctr, m), nonce, data[n..])
    decreases m
  {
    hide Block, XorBytes, Plus, XorStream;
    if |data| <= 64 {
      ShortStream(key, ctr, nonce, data);
      assert data[..n] == data && data[n..] == [];
      EmptyStream(key, Advance(ctr, m), nonce);
      XorPrefix(data, Block(key, ctr, nonce), Blocks(key, Plus(ctr, 1), nonce, m - 1));
    } else {
      LongStream(key, ctr, nonce, data);
      if m == 1 {
        assert Block(key, ctr, nonce) + [] == Block(key, ctr, nonce);
      } else {
        Stride(key, Plus(ctr, 1), nonce, data[64..], m - 1, n - 64);
        StrideSplit(data, n, Block(key, ctr, nonce), Blocks(key, Plus(ctr, 1), nonce, m - 1));
      }
    }
  }

  lemma XorPrefix(data: seq<u8>, a: seq<u8>, b: seq<u8>)
    requires |data| <= |a|
    ensures XorBytes(data, a + b) == XorBytes(data, a)
  {
    hide XorByte;
  }

  lemma StrideSplit(data: seq<u8>, n: nat, a: seq<u8>, b: seq<u8>)
    requires |a| == 64 <= n <= |data| && n <= 64 + |b|
    ensures XorBytes(data[..n], a + b) == XorBytes(data[..64], a) + XorBytes(data[64..][..n - 64], b)
    ensures data[64..][n - 64..] == data[n..]
  {
    hide XorBytes;
    XorBytesSplit(data[..n], a, b);
    assert data[..n][..64] == data[..64] && data[..n][64..] == data[64..][..n - 64];
  }

  lemma ShortStream(key: Key, ctr: bv32, nonce: Nonce, data: seq<u8>)
    requires |data| <= 64
    ensures XorStream(key, ctr, nonce, data) == XorBytes(data, Block(key, ctr, nonce))
  {}

  lemma EmptyStream(key: Key, ctr: bv32, nonce: Nonce)
    ensures XorStream(key, ctr, nonce, []) == []
  {}

  lemma LongStream(key: Key, ctr: bv32, nonce: Nonce, data: seq<u8>)
    requires |data| > 64
    ensures XorStream(key, ctr, nonce, data)
         == XorBytes(data[..64], Block(key, ctr, nonce)) + XorStream(key, Plus(ctr, 1), nonce, data[64..])
  {}

  lemma XorBytesSplit(data: seq<u8>, a: seq<u8>, b: seq<u8>)
    requires |a| <= |data| <= |a| + |b|
    ensures XorBytes(data, a + b) == XorBytes(data[..|a|], a) + XorBytes(data[|a|..], b)
  {
    hide XorByte;
  }

  /** `Scalar::apply_keystream`, on the part of the buffer from `start` on. */
  method ScalarApply(key: Key, nonce: Nonce, counter: bv32, data: array<u8>, start: nat)
    requires start <= data.Length
    modifies data
    ensures data[..start] == old(data[..start])
    ensures data[start..] == XorStream(key, counter, nonce, old(data[start..]))
  {
    hide Block, XorBytes, Plus, XorStream;
    ghost var target := XorStream(key, counter, nonce, data[start..]);
    var ctr, at := counter, start;
    while at < data.Length
      invariant start <= at <= data.Length && data[..start] == old(data[..start])
      invariant target == data[start..at] + XorStream(key, ctr, nonce, data[at..])
    {
      var n := if data.Length - at < 64 then data.Length - at else 64;
      var ks := ScalarBlock(key, ctr, nonce);
      ghost var done, rest := data[start..at], data[at..];
      OneBlock(key, ctr, nonce, rest, n);
      Regroup(target, done, XorBytes(rest[..n], ks), XorStream(key, Plus(ctr, 1), nonce, rest[n..]));
      XorChunk(data, start, at, n, ks);
      ctr, at := Plus(ctr, 1), at + n;
    }
    assert data[at..] == [];
    EmptyStream(key, ctr, nonce);
  }

  lemma Regroup(target: seq<u8>, a: seq<u8>, b: seq<u8>, c: seq<u8>)
    requires target == a + (b + c)
    ensures target == (a + b) + c
  {}

  lemma OneBlock(key: Key, ctr: bv32, nonce: Nonce, data: seq<u8>, n: nat)
    requires data != [] && n == if |data| < 64 then |data| else 64
    ensures XorStream(key, ctr, nonce, data)
         == XorBytes(data[..n], Block(key, ctr, nonce)) + XorStream(key, Plus(ctr, 1), nonce, data[n..])
  {
    hide Block, XorBytes, Plus, XorStream;
    Stride(key, ctr, nonce, data, 1, n);
    assert Advance(ctr, 1) == Advance(Plus(ctr, 1), 0);
    assert Blocks(key, ctr, nonce, 1) == Block(key, ctr, nonce) + [] == Block(key, ctr, nonce);
  }
}
