/** `src/crypto/kdf.rs`: HMAC of RFC 2104 over BLAKE2s and the key derivation chain of RFC 5869. */
module Kdf {
  import opened Machine
  import opened Bytes
  import Blake2s

  const IPAD: u8 := 0x36
  const OPAD: u8 := 0x5c

  /** The key as one block: hashed first if it is longer than a block. */
  function BlockKey(key: seq<u8>): (k: seq<u8>)
    ensures |k| == 64
  {
    if |key| > 64 then Blake2s.Hash([], key, 32) + Zeros(32) else key + Zeros(64 - |key|)
  }

  function Masked(k: seq<u8>, mask: u8): (r: seq<u8>)
    ensures |r| == |k|
  {
    seq(|k|, i requires 0 <= i < |k| => XorByte(k[i], mask))
  }

  /** Section 2 of RFC 2104. */
  function Hmac(key: seq<u8>, msg: seq<u8>): (t: Bytes32) {
    var inner := Blake2s.Hash([], Masked(BlockKey(key), IPAD) + msg, 32);
    Blake2s.Hash([], Masked(BlockKey(key), OPAD) + inner, 32)
  }

  /** `hmac`: the tag of the concatenation, however the message is cut. */
  method HmacParts(key: seq<u8>, parts: seq<seq<u8>>) returns (t: Bytes32)
    ensures t == Hmac(key, Concat(parts))
  {
    hide Blake2s.Hash, XorByte, Concat;
    var kBlock := new u8[64](_ => 0);
    if |key| > 64 {
      var digest := Blake2s.HashParts([key]);
      ConcatOne(key);
      Copy(kBlock, 0, digest);
    } else {
      Copy(kBlock, 0, key);
    }
    assert kBlock[..] == BlockKey(key);
    var ipad, opad := new u8[64], new u8[64];
    for i := 0 to 64
      invariant kBlock[..] == BlockKey(key)
      invariant forall j :: 0 <= j < i ==> ipad[j] == XorByte(kBlock[j], IPAD) && opad[j] == XorByte(kBlock[j], OPAD)
    {
      ipad[i], opad[i] := XorByte(kBlock[i], IPAD), XorByte(kBlock[i], OPAD);
    }
    assert ipad[..] == Masked(BlockKey(key), IPAD) && opad[..] == Masked(BlockKey(key), OPAD);
    var inner := Blake2s.HashParts([ipad[..]] + parts);
    ConcatFront(ipad[..], parts);
    t := Blake2s.HashParts([opad[..], inner]);
    ConcatTwo(opad[..], inner);
  }

  /** Output number `n` of section 2.3 of RFC 5869, without context information. */
  function Tau(t0: Bytes32, n: nat): (t: seq<u8>)
    requires n < 256
    ensures n > 0 ==> |t| == 32
  {
    hide Hmac;
    if n == 0 then [] else Hmac(t0, Tau(t0, n - 1) + [n])
  }

  /** `Kdf_n`: output number `i` of the chain keyed by `key` over `input`. */
  function Derived(key: Bytes32, input: seq<u8>, i: nat): (t: Bytes32)
    requires 0 < i < 256
  {
    Tau(Hmac(key, input), i)
  }

  method Kdf1(key: Bytes32, input: seq<u8>) returns (t1: Bytes32)
    ensures t1 == Derived(key, input, 1)
  {
    hide Hmac, Concat;
    var t0 := HmacParts(key, [input]);
    t1 := HmacParts(t0, [[1]]);
    ConcatOne(input);
    ConcatOne([1]);
    Taus(t0);
  }

  method Kdf2(key: Bytes32, input: seq<u8>) returns (t1: Bytes32, t2: Bytes32)
    ensures t1 == Derived(key, input, 1) && t2 == Derived(key, input, 2)
  {
    hide Hmac, Concat, Tau;
    var t0 := HmacParts(key, [input]);
    t1 := HmacParts(t0, [[1]]);
    t2 := HmacParts(t0, [t1, [2]]);
    ConcatOne(input);
    ConcatOne([1]);
    ConcatTwo(t1, [2]);
    Taus(t0);
  }

  method Kdf3(key: Bytes32, input: seq<u8>) returns (t1: Bytes32, t2: Bytes32, t3: Bytes32)
    ensures t1 == Derived(key, input, 1) && t2 == Derived(key, input, 2) && t3 == Derived(key, input, 3)
  {
    hide Hmac, Concat, Tau;
    var t0 := HmacParts(key, [input]);
    t1 := HmacParts(t0, [[1]]);
    t2 := HmacParts(t0, [t1, [2]]);
    t3 := HmacParts(t0, [t2, [3]]);
    ConcatOne(input);
    ConcatOne([1]);
    ConcatTwo(t1, [2]);
    ConcatTwo(t2, [3]);
    Taus(t0);
  }

  lemma Taus(t0: Bytes32)
    ensures Tau(t0, 1) == Hmac(t0, [1])
    ensures Tau(t0, 2) == Hmac(t0, Tau(t0, 1) + [2])
    ensures Tau(t0, 3) == Hmac(t0, Tau(t0, 2) + [3])
  {
    hide Hmac;
    assert Tau(t0, 0) + [1] == [1];
  }
}
