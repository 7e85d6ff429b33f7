/** `src/crypto/aead.rs`: ChaCha20-Poly1305 of section 2.8 of RFC 8439, over any keystream
    backend, and the extended-nonce variant. */
module Aead {
  import opened Machine
  import opened Bytes
  import opened Arith
  import opened ChaCha20
  import ChaChaSimd
  import Poly = Poly1305

  const TAG_LEN: nat := 16

  // ----- What sealing and opening mean -------------------------------------------------------------

  /** Four zero bytes, then the little-endian counter. */
  function NonceFromCounter(counter: u64): (n: Nonce) {
    [0, 0, 0, 0] + ToLe(counter, 8)
  }

  /** Both parts zero-padded to sixteen bytes, then their lengths as 64-bit words. */
  function MacData(aad: seq<u8>, ciphertext: seq<u8>): (d: seq<u8>) {
    Poly.Pad16(aad) + Poly.Pad16(ciphertext) + ToLe(|aad| % U64_LIMIT, 8) + ToLe(|ciphertext| % U64_LIMIT, 8)
  }

  function PolyKey(key: Key, nonce: Nonce): (k: seq<u8>)
    ensures |k| == 32
  {
    Block(key, 0, nonce)[..32]
  }

  function TagOf(key: Key, nonce: Nonce, aad: seq<u8>, ciphertext: seq<u8>): (t: seq<u8>)
    ensures |t| == TAG_LEN
  {
    Poly.Tag(PolyKey(key, nonce), MacData(aad, ciphertext))
  }

  function Sealed(key: Key, nonce: Nonce, aad: seq<u8>, plaintext: seq<u8>): (c: seq<u8>)
    ensures |c| == |plaintext| + TAG_LEN
  {
    var ciphertext := XorStream(key, 1, nonce, plaintext);
    ciphertext + TagOf(key, nonce, aad, ciphertext)
  }

  /** The plaintext of a sealed message, if its tag verifies. */
  function Opened(key: Key, nonce: Nonce, aad: seq<u8>, sealed: seq<u8>): (r: Option<seq<u8>>)
    ensures r.Some? ==> |r.value| + TAG_LEN == |sealed|
  {
    if |sealed| < TAG_LEN then None
    else
      var n := |sealed| - TAG_LEN;
      if TagOf(key, nonce, aad, sealed[..n]) == sealed[n..] then Some(XorStream(key, 1, nonce, sealed[..n])) else None
  }

  /** Opening inverts sealing, and nothing else opens: a message opens to `plaintext` exactly
      when it is the sealing of `plaintext`. */
  lemma OpensIffSealed(key: Key, nonce: Nonce, aad: seq<u8>, sealed: seq<u8>, plaintext: seq<u8>)
    ensures Opened(key, nonce, aad, sealed) == Some(plaintext) <==> sealed == Sealed(key, nonce, aad, plaintext)
  {
    hide XorStream, TagOf;
    if sealed == Sealed(key, nonce, aad, plaintext) {
      XorStreamTwice(key, 1, nonce, plaintext);
      var n := |plaintext|;
      assert sealed[..n] == XorStream(key, 1, nonce, plaintext);
      assert sealed[n..] == TagOf(key, nonce, aad, sealed[..n]);
    }
    if Opened(key, nonce, aad, sealed) == Some(plaintext) {
      var n := |sealed| - TAG_LEN;
      XorStreamTwice(key, 1, nonce, sealed[..n]);
      assert sealed == sealed[..n] + sealed[n..];
    }
  }

  /** The authenticated string determines the two parts it was made from. */
  lemma MacDataInjective(a: seq<u8>, c: seq<u8>, b: seq<u8>, d: seq<u8>)
    requires |a| < U64_LIMIT && |b| < U64_LIMIT && |c| < U64_LIMIT && |d| < U64_LIMIT
    requires MacData(a, c) == MacData(b, d)
    ensures a == b && c == d
  {
    hide ToLe, Poly.Pad16;
    LengthsAtEnd(a, c);
    LengthsAtEnd(b, d);
    WordsDiffer(|a|, |b|);
    WordsDiffer(|c|, |d|);
    PadTwo(a, c, b, d);
  }

  function Lengths(aad: seq<u8>, ciphertext: seq<u8>): (r: seq<u8>)
    ensures |r| == 16
  {
    ToLe(|aad| % U64_LIMIT, 8) + ToLe(|ciphertext| % U64_LIMIT, 8)
  }

  lemma LengthsAtEnd(aad: seq<u8>, ciphertext: seq<u8>)
    ensures var d := MacData(aad, ciphertext);
            && |d| >= 16
            && d[..|d| - 16] == Poly.Pad16(aad) + Poly.Pad16(ciphertext)
            && d[|d| - 16..|d| - 8] == ToLe(|aad| % U64_LIMIT, 8)
            && d[|d| - 8..] == ToLe(|ciphertext| % U64_LIMIT, 8)
  {
    hide ToLe, Poly.Pad16;
    var p := Poly.Pad16(aad) + Poly.Pad16(ciphertext);
    assert MacData(aad, ciphertext) == p + Lengths(aad, ciphertext);
  }

  lemma WordsDiffer(x: u64, y: u64)
    requires ToLe(x % U64_LIMIT, 8) == ToLe(y % U64_LIMIT, 8)
    ensures x == y
  {
    hide ToLe;
    SmallMod(x, U64_LIMIT);
    SmallMod(y, U64_LIMIT);
    PowersOf256();
    LeRoundTrip(x, 8);
    LeRoundTrip(y, 8);
  }

  lemma PadTwo(a: seq<u8>, c: seq<u8>, b: seq<u8>, d: seq<u8>)
    requires |a| == |b| && |c| == |d|
    requires Poly.Pad16(a) + Poly.Pad16(c) == Poly.Pad16(b) + Poly.Pad16(d)
    ensures a == b && c == d
  {
    var x, y := Poly.Pad16(a) + Poly.Pad16(c), Poly.Pad16(b) + Poly.Pad16(d);
    var n := |Poly.Pad16(a)|;
    assert x[..n] == Poly.Pad16(a) && y[..n] == Poly.Pad16(b);
    assert x[n..] == Poly.Pad16(c) && y[n..] == Poly.Pad16(d);
    assert a == Poly.Pad16(a)[..|a|] && b == Poly.Pad16(b)[..|b|];
    assert c == Poly.Pad16(c)[..|c|] && d == Poly.Pad16(d)[..|d|];
  }

  /** Distinct counters give distinct nonces. */
  lemma NonceInjective(c: u64, d: u64)
    requires NonceFromCounter(c) == NonceFromCounter(d)
    ensures c == d
  {
    hide ToLe;
    assert ToLe(c, 8) == NonceFromCounter(c)[4..] && ToLe(d, 8) == NonceFromCounter(d)[4..];
    PowersOf256();
    LeRoundTrip(c, 8);
    LeRoundTrip(d, 8);
  }

  // ----- Constant-time comparison, `src/crypto/ct.rs` ---------------------------------------------------

  /** `ct_eq`: the accumulated difference is zero exactly when the strings are equal. */
  method CtEq(a: seq<u8>, b: seq<u8>) returns (equal: bool)
    ensures equal <==> a == b
  {
    hide OrDifference;
    if |a| != |b| {
      return false;
    }
    var diff: u8 := 0;
    for i := 0 to |a|
      invariant diff == 0 <==> a[..i] == b[..i]
    {
      OrDifferenceZero(diff, a[i], b[i]);
      assert a[..i + 1] == a[..i] + [a[i]] && b[..i + 1] == b[..i] + [b[i]];
      assert a[..i + 1] == b[..i + 1] <==> a[..i] == b[..i] && a[i] == b[i];
      diff := OrDifference(diff, a[i], b[i]);
    }
    assert a[..|a|] == a && b[..|b|] == b;
    equal := diff == 0;
  }

  // ----- The operations -----------------------------------------------------------------------------------

  datatype Backend = Scalar | Avx2 | Avx2x8

  /** `apply_keystream` on a stretch of a buffer, by whichever backend. */
  method Apply(backend: Backend, key: Key, nonce: Nonce, counter: bv32, data: array<u8>, at: nat, n: nat)
    requires at + n <= data.Length
    modifies data
    ensures data[..at] == old(data[..at]) && data[at + n..] == old(data[at + n..])
    ensures data[at..at + n] == XorStream(key, counter, nonce, old(data[at..at + n]))
  {
    hide XorStream;
    var slice := new u8[n](i requires 0 <= i < n reads data => data[at + i]);
    assert slice[..] == data[at..at + n];
    match backend {
      case Scalar =>
        ScalarApply(key, nonce, counter, slice, 0);
        assert slice[0..] == slice[..];
      case Avx2 => ChaChaSimd.Avx2Apply(key, nonce, counter, slice);
      case Avx2x8 => ChaChaSimd.Avx2x8Apply(key, nonce, counter, slice);
    }
    Copy(data, at, slice[..]);
  }

  /** The streaming computation of the tag. */
  method ComputeTag(otk: seq<u8>, aad: seq<u8>, ciphertext: seq<u8>) returns (tag: seq<u8>)
    requires |otk| == 32
    ensures tag == Poly.Tag(otk, MacData(aad, ciphertext))
  {
    hide Poly.Tag, Poly.Pad16, Poly.Holds, ToLe, Poly.KeyLimbs, Poly.PadWords;
    var mac := new Poly.Authenticator(otk);
    mac.UpdatePadded(aad);
    mac.UpdatePadded(ciphertext);
    mac.Update(ToLe(|aad| % U64_LIMIT, 8));
    mac.Update(ToLe(|ciphertext| % U64_LIMIT, 8));
    assert mac.Absorbed() == MacData(aad, ciphertext);
    tag := mac.Finalize();
  }

  method OneTimeKey(key: Key, nonce: Nonce) returns (otk: seq<u8>)
    ensures otk == PolyKey(key, nonce)
  {
    hide Block;
    var block := ScalarBlock(key, 0, nonce);
    otk := block[..32];
  }

  /** `copy_exact`: a copy into a slice of exactly the same length. */
  method CopyExact(dst: array<u8>, lo: nat, hi: nat, src: seq<u8>) returns (r: Result<()>)
    requires lo <= hi <= dst.Length
    modifies dst
    ensures r == if hi - lo == |src| then Ok(()) else Err(Internal)
    ensures r.Err? ==> dst[..] == old(dst[..])
    ensures r.Ok? ==> dst[..lo] == old(dst[..lo]) && dst[lo..hi] == src && dst[hi..] == old(dst[hi..])
  {
    if hi - lo != |src| {
      return Err(Internal);
    }
    Copy(dst, lo, src);
    r := Ok(());
  }

  /** `seal_in_place` on the buffer from `at` on: the first `ptLen` bytes become ciphertext, the
      tag follows, the rest of the buffer is untouched; a short buffer is untouched entirely. */
  method SealInPlace(backend: Backend, key: Key, nonce: Nonce, aad: seq<u8>, ptLen: nat, buf: array<u8>,
      at: nat) returns (r: Result<nat>)
    requires at <= buf.Length
    modifies buf
    ensures buf.Length < at + ptLen + TAG_LEN ==> r == Err(BufferTooSmall) && buf[..] == old(buf[..])
    ensures buf.Length >= at + ptLen + TAG_LEN ==>
      && r == Ok(ptLen + TAG_LEN) && buf[at..at + ptLen + TAG_LEN] == Sealed(key, nonce, aad, old(buf[at..at + ptLen]))
      && buf[..at] == old(buf[..at]) && buf[at + ptLen + TAG_LEN..] == old(buf[at + ptLen + TAG_LEN..])
  {
    hide XorStream, Poly.Tag, MacData, PolyKey;
    var end, total := at + ptLen, ptLen + TAG_LEN;
    if buf.Length < at + total {
      return Err(BufferTooSmall);
    }
    if total < ptLen {
      return Err(Internal);
    }
    ghost var after := buf[end + TAG_LEN..];
    Apply(backend, key, nonce, 1, buf, at, ptLen);
    assert buf[end + TAG_LEN..] == after by { assert buf[end + TAG_LEN..] == buf[end..][TAG_LEN..]; }
    ghost var front, middle := buf[..at], buf[at..end];
    var otk := OneTimeKey(key, nonce);
    var tag := ComputeTag(otk, aad, buf[at..end]);
    assert buf[..end] == front + middle;
    var copied := CopyExact(buf, end, at + total, tag);
    if copied.Err? {
      return Err(ErrorOf(copied));
    }
    assert buf[..at] == buf[..end][..at] && buf[at..end] == buf[..end][at..];
    assert buf[at..end + TAG_LEN] == middle + tag;
    r := Ok(total);
  }

  /** `seal`: the same out of place. */
  method Seal(backend: Backend, key: Key, nonce: Nonce, aad: seq<u8>, plaintext: seq<u8>,
      out: array<u8>) returns (r: Result<nat>)
    modifies out
    ensures out.Length < |plaintext| + TAG_LEN ==> r == Err(BufferTooSmall) && out[..] == old(out[..])
    ensures out.Length >= |plaintext| + TAG_LEN ==>
      && r == Ok(|plaintext| + TAG_LEN) && out[..|plaintext| + TAG_LEN] == Sealed(key, nonce, aad, plaintext)
      && out[|plaintext| + TAG_LEN..] == old(out[|plaintext| + TAG_LEN..])
  {
    hide XorStream, Poly.Tag, MacData, PolyKey;
    var n, total := |plaintext|, |plaintext| + TAG_LEN;
    if out.Length < total {
      return Err(BufferTooSmall);
    }
    if total < n {
      return Err(Internal);
    }
    ghost var after := out[total..];
    var staged := CopyExact(out, 0, n, plaintext);
    if staged.Err? {
      return Err(ErrorOf(staged));
    }
    assert out[total..] == out[n..][TAG_LEN..];
    Apply(backend, key, nonce, 1, out, 0, n);
    assert out[total..] == out[n..][TAG_LEN..];
    ghost var ciphertext := out[0..n];
    var otk := OneTimeKey(key, nonce);
    var tag := ComputeTag(otk, aad, out[0..n]);
    var copied := CopyExact(out, n, total, tag);
    if copied.Err? {
      return Err(ErrorOf(copied));
    }
    assert out[..n] == ciphertext;
    assert out[..total] == ciphertext + tag;
    r := Ok(total);
  }

  /** `open`: on every error the output buffer is untouched; the plaintext appears only after
      the tag has verified, and the rest of the buffer stays as it was. */
  method Open(backend: Backend, key: Key, nonce: Nonce, aad: seq<u8>, sealed: seq<u8>,
      out: array<u8>) returns (r: Result<nat>)
    modifies out
    ensures r == if |sealed| < TAG_LEN then Err(AuthFailure)
                 else if out.Length < |sealed| - TAG_LEN then Err(BufferTooSmall)
                 else if Opened(key, nonce, aad, sealed).None? then Err(AuthFailure)
                 else Ok(|sealed| - TAG_LEN)
    ensures r.Err? ==> out[..] == old(out[..])
    ensures r.Ok? ==> Opened(key, nonce, aad, sealed) == Some(out[..r.value]) && out[r.value..] == old(out[r.value..])
  {
    hide XorStream, Poly.Tag, MacData, PolyKey;
    if |sealed| < TAG_LEN {
      return Err(AuthFailure);
    }
    var n := |sealed| - TAG_LEN;
    if |sealed| < n {
      return Err(Internal);
    }
    var ciphertext, tag := sealed[..n], sealed[n..];
    if out.Length < n {
      return Err(BufferTooSmall);
    }
    var otk := OneTimeKey(key, nonce);
    var expected := ComputeTag(otk, aad, ciphertext);
    var verified := CtEq(expected, tag);
    if !verified {
      return Err(AuthFailure);
    }
    var copied := CopyExact(out, 0, n, ciphertext);
    if copied.Err? {
      return Err(ErrorOf(copied));
    }
    Apply(backend, key, nonce, 1, out, 0, n);
    assert out[..n] == out[0..n];
    r := Ok(n);
  }

  // ----- The extended nonce ---------------------------------------------------------------------------------

  type XNonce = n: seq<u8> | |n| == 24 witness seq(24, _ => 0)

  /** HChaCha20: words 0 to 3 and 12 to 15 of the permuted state, without feed-forward. */
  function HChaCha(key: Key, input: seq<u8>): (k: Key)
    requires |input| == 16
  {
    var n := LoadWords(input);
    var w := Permute(Start(LoadWords(key), n[0], n[1..]), ROUNDS);
    StoreWords(w[..4] + w[12..])
  }

  function SubNonce(nonce: XNonce): (n: Nonce) {
    [0, 0, 0, 0] + nonce[16..]
  }

  function XSealed(key: Key, nonce: XNonce, aad: seq<u8>, plaintext: seq<u8>): (c: seq<u8>)
    ensures |c| == |plaintext| + TAG_LEN
  {
    Sealed(HChaCha(key, nonce[..16]), SubNonce(nonce), aad, plaintext)
  }

  method XSeal(key: Key, nonce: XNonce, aad: seq<u8>, plaintext: seq<u8>, out: array<u8>) returns (r: Result<nat>)
    modifies out
    ensures out.Length < |plaintext| + TAG_LEN ==> r == Err(BufferTooSmall) && out[..] == old(out[..])
    ensures out.Length >= |plaintext| + TAG_LEN ==>
      r == Ok(|plaintext| + TAG_LEN) && out[..|plaintext| + TAG_LEN] == XSealed(key, nonce, aad, plaintext)
  {
    hide Sealed, HChaCha;
    r := Seal(Scalar, HChaCha(key, nonce[..16]), SubNonce(nonce), aad, plaintext, out);
  }

  function XOpened(key: Key, nonce: XNonce, aad: seq<u8>, sealed: seq<u8>): (r: Option<seq<u8>>)
    ensures match r case Some(p) => |p| + TAG_LEN == |sealed| case None => true
  {
    Opened(HChaCha(key, nonce[..16]), SubNonce(nonce), aad, sealed)
  }

  /** The extended variant too opens exactly what it seals. */
  lemma XOpensIffSealed(key: Key, nonce: XNonce, aad: seq<u8>, sealed: seq<u8>, plaintext: seq<u8>)
    ensures XOpened(key, nonce, aad, sealed) == Some(plaintext) <==> sealed == XSealed(key, nonce, aad, plaintext)
  {
    hide Sealed, HChaCha, Opened;
    OpensIffSealed(HChaCha(key, nonce[..16]), SubNonce(nonce), aad, sealed, plaintext);
  }

  method XOpen(key: Key, nonce: XNonce, aad: seq<u8>, sealed: seq<u8>, out: array<u8>) returns (r: Result<nat>)
    modifies out
    ensures r == if |sealed| < TAG_LEN then Err(AuthFailure)
                 else if out.Length < |sealed| - TAG_LEN then Err(BufferTooSmall)
                 else if XOpened(key, nonce, aad, sealed).None? then Err(AuthFailure)
                 else Ok(|sealed| - TAG_LEN)
    ensures r.Err? ==> out[..] == old(out[..])
    ensures r.Ok? ==> XOpened(key, nonce, aad, sealed) == Some(out[..r.value]) && out[r.value..] == old(out[r.value..])
  {
    hide HChaCha, Opened;
    r := Open(Scalar, HChaCha(key, nonce[..16]), SubNonce(nonce), aad, sealed, out);
  }
}
