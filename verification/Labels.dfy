/** `src/consts.rs`: the strings that go into the first hashes. */
module Labels {
  import opened Machine

  const CONSTRUCTION: string := "Noise_IKpsk2_25519_ChaChaPoly_BLAKE2s"
  const IDENTIFIER: string := "WireGuard v1 zx2c4 Jason@zx2c4.com"
  const MAC1: string := "mac1----"
  const COOKIE: string := "cookie--"

  function Ascii(s: string): (b: seq<u8>)
    ensures |b| == |s|
  {
    seq(|s|, i requires 0 <= i < |s| => s[i] as int % 256)
  }
}
