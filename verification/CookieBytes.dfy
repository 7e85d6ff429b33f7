/** `src/cookie.rs` on real bytes: the MAC slots as they are filled in the outgoing buffer, and
    the cookie reply with the jar it advances. */
module CookieBytes {
  import opened Machine
  import opened Bytes
  import opened Time
  import opened Rotation
  import Aead
  import Blake2s
  import Labels
  import Message

  type Mac16 = m: seq<u8> | |m| == 16 witness seq(16, _ => 0)

  datatype MacKeys = MacKeys(mac1Send: Bytes32, mac1Recv: Bytes32, cookieSend: Bytes32, cookieRecv: Bytes32)

  function Labelled(tag: string, public: Bytes32): (k: Bytes32) {
    Blake2s.Hash([], Labels.Ascii(tag) + public, 32)
  }

  function KeysOf(localPublic: Bytes32, peerPublic: Bytes32): (k: MacKeys) {
    MacKeys(Labelled(Labels.MAC1, peerPublic), Labelled(Labels.MAC1, localPublic),
            Labelled(Labels.COOKIE, localPublic), Labelled(Labels.COOKIE, peerPublic))
  }

  method HashLabelled(tag: string, public: Bytes32) returns (k: Bytes32)
    ensures k == Labelled(tag, public)
  {
    hide Blake2s.Hash, Concat, Labels.Ascii;
    k := Blake2s.HashParts([Labels.Ascii(tag), public]);
    ConcatTwo(Labels.Ascii(tag), public);
  }

  method NewMacKeys(localPublic: Bytes32, peerPublic: Bytes32) returns (k: MacKeys)
    ensures k == KeysOf(localPublic, peerPublic)
  {
    hide Labelled;
    var mac1Send := HashLabelled(Labels.MAC1, peerPublic);
    var mac1Recv := HashLabelled(Labels.MAC1, localPublic);
    var cookieSend := HashLabelled(Labels.COOKIE, localPublic);
    var cookieRecv := HashLabelled(Labels.COOKIE, peerPublic);
    k := MacKeys(mac1Send, mac1Recv, cookieSend, cookieRecv);
  }

  // ----- The two MACs ----------------------------------------------------------------------------------------

  datatype LastCookie = LastCookie(value: Mac16, receivedAt: Ticks)

  function MacOf(key: seq<u8>, msg: seq<u8>): (m: Mac16) {
    Blake2s.Hash(Blake2s.MacKey(key), msg, 16)
  }

  method ComputeMac(key: seq<u8>, parts: seq<seq<u8>>) returns (m: Mac16)
    ensures m == MacOf(key, Concat(parts))
  {
    hide Blake2s.Hash, Blake2s.MacKey, Concat;
    m := Blake2s.MacParts(key, parts);
  }

  function FreshValue(cookie: Option<LastCookie>, now: Ticks): (r: Option<Mac16>) {
    if cookie.Some? && Since(now, cookie.value.receivedAt) < COOKIE_LIFETIME then Some(cookie.value.value) else None
  }

  /** The second MAC: over everything before it when a cookie is fresh, else zero. */
  function Mac2Of(cookie: Option<LastCookie>, now: Ticks, beta: seq<u8>): (m: Mac16) {
    var value := FreshValue(cookie, now);
    if value.Some? then MacOf(value.value, beta) else Zeros(16)
  }

  /** A message body with both MACs. */
  function Macced(keys: MacKeys, cookie: Option<LastCookie>, now: Ticks, body: seq<u8>): (d: seq<u8>) {
    var beta := body + MacOf(keys.mac1Send, body);
    beta + Mac2Of(cookie, now, beta)
  }

  /** `apply_macs` on the first `n` bytes of a buffer: a length that is no handshake message's is
      refused before anything is written, and every other length succeeds. */
  method ApplyMacs(keys: MacKeys, cookie: Option<LastCookie>, now: Ticks, out: array<u8>, n: nat)
    returns (r: Result<Mac16>)
    requires n <= out.Length
    modifies out
    ensures r.Ok? <==> n == HANDSHAKE_INITIATION_LEN || n == HANDSHAKE_RESPONSE_LEN
    ensures r.Err? ==> r.error == InvalidPacket && out[..] == old(out[..])
    ensures r.Ok? ==> var body := old(out[..n - 32]);
                      && r.value == MacOf(keys.mac1Send, body)
                      && out[..n] == Macced(keys, cookie, now, body) && out[n..] == old(out[n..])
  {
    hide MacOf, FreshValue, Message.MacSlots, Concat;
    var slots := Message.MacSlots(out[..n]);
    if slots.Err? {
      return Err(ErrorOf(slots));
    }
    ghost var after := out[n..];
    var alpha := slots.value.0;
    assert alpha == out[..n - 32] by { assert out[..n][..n - 32] == out[..n - 32]; }
    var mac1 := ComputeMac(keys.mac1Send, [alpha]);
    ConcatOne(alpha);
    Copy(out, n - 32, mac1);
    assert out[..n - 16] == alpha + mac1 && out[n..] == after;
    var value := FreshValue(cookie, now);
    var mac2 := Zeros(16);
    if value.Some? {
      mac2 := ComputeMac(value.value, [alpha, mac1]);
      ConcatTwo(alpha, mac1);
    }
    Copy(out, n - 16, mac2);
    assert out[..n] == out[..n - 16] + mac2;
    r := Ok(mac1);
  }

  method VerifyMac1(keys: MacKeys, alpha: seq<u8>, mac1: Mac16) returns (ok: bool)
    ensures ok <==> mac1 == MacOf(keys.mac1Recv, alpha)
  {
    hide MacOf, Concat;
    var expected := ComputeMac(keys.mac1Recv, [alpha]);
    ConcatOne(alpha);
    ok := Aead.CtEq(expected, mac1);
  }

  predicate Proves(j: Jar<Bytes32>, remote: seq<u8>, beta: seq<u8>, mac2: Mac16) {
    && j.primed
    && (mac2 == MacOf(MacOf(j.secret, remote), beta)
       || (j.hasPrevious && mac2 == MacOf(MacOf(j.previous, remote), beta)))
  }

  /** `verify_mac2`. */
  method VerifyMac2(jar: CookieJar<Bytes32>, remote: seq<u8>, beta: seq<u8>, mac2: Mac16) returns (ok: bool)
    ensures ok <==> Proves(jar.Contents(), remote, beta, mac2)
  {
    hide MacOf, Concat;
    if !jar.primed {
      return false;
    }
    ConcatOne(remote);
    ConcatOne(beta);
    var cookie := ComputeMac(jar.secret, [remote]);
    var current := ComputeMac(cookie, [beta]);
    cookie := ComputeMac(jar.previous, [remote]);
    var previous := ComputeMac(cookie, [beta]);
    var okCurrent := Aead.CtEq(current, mac2);
    var okPrevious := Aead.CtEq(previous, mac2);
    ok := okCurrent || (okPrevious && jar.hasPrevious);
  }

  // ----- The cookie reply ----------------------------------------------------------------------------------------

  function NonceBytes(w: NonceWords): (n: Aead.XNonce) {
    ToLe(w[0], 8) + ToLe(w[1], 8) + ToLe(w[2], 8)
  }

  /** The reply a jar makes once it has rotated: its next nonce and the sealed cookie. */
  function ReplyOf(keys: MacKeys, j: Jar<Bytes32>, peerSender: u32, theirMac1: Mac16,
      remote: seq<u8>): (p: Message.Packet) {
    var nonce := NonceBytes(NextNonce(j.nonce));
    Message.CookieReply(peerSender, nonce, Aead.XSealed(keys.cookieSend, nonce, theirMac1, MacOf(j.secret, remote)))
  }

  /** `build_cookie_reply`: the seal of a 16-byte cookie into 32 bytes and the assembly of the
      message cannot fail, so once the jar has rotated and given up a nonce the reply goes out:
      an error leaves both the jar and the buffer as they were. */
  method BuildCookieReply(keys: MacKeys, jar: CookieJar<Bytes32>, now: Ticks, drawn: Option<Bytes32>,
      seed: Option<NonceWords>, peerSender: u32, theirMac1: Mac16, remote: seq<u8>, out: array<u8>)
    returns (r: Result<nat>)
    modifies jar, out
    ensures var rotated := Rotated(old(jar.Contents()), now, drawn, seed);
            && r == (if out.Length < COOKIE_REPLY_LEN then Err(BufferTooSmall)
                     else if rotated.Err? then Err(EntropyFailure) else Ok(COOKIE_REPLY_LEN))
            && (r.Err? ==> jar.Contents() == old(jar.Contents()) && out[..] == old(out[..]))
            && (r.Ok? ==>
                  && jar.Contents() == rotated.value.(nonce := NextNonce(rotated.value.nonce))
                  && out[..64] == Message.Encode(ReplyOf(keys, rotated.value, peerSender, theirMac1, remote))
                  && out[64..] == old(out[64..]))
  {
    hide MacOf, Concat, Aead.XSealed, Message.Encode, NonceBytes, NextNonce, Rotated;
    if out.Length < COOKIE_REPLY_LEN {
      return Err(BufferTooSmall);
    }
    var rotation := jar.RotateIfNeeded(now, drawn, seed);
    if rotation.Err? {
      return Err(ErrorOf(rotation));
    }
    var cookie := ComputeMac(jar.secret, [remote]);
    ConcatOne(remote);
    var words := jar.TakeNonce();
    var nonce := NonceBytes(words);
    var encrypted := new u8[32];
    var sealed := Aead.XSeal(keys.cookieSend, nonce, theirMac1, cookie, encrypted);
    if sealed != Ok(32) {
      return Err(Internal);
    }
    assert encrypted[..] == encrypted[..32];
    var built := Message.BuildCookieReply(out, peerSender, nonce, encrypted[..]);
    if built.Err? {
      return Err(ErrorOf(built));
    }
    r := Ok(COOKIE_REPLY_LEN);
  }

  /** `consume_cookie_reply`: what opens is stored, everything else is refused. */
  method ConsumeCookieReply(keys: MacKeys, lastSentMac1: Mac16, p: Message.Packet, now: Ticks)
    returns (r: Result<LastCookie>)
    requires p.CookieReply? && Message.WellFormed(p)
    ensures r == match Aead.XOpened(keys.cookieRecv, p.nonce, lastSentMac1, p.encryptedCookie)
                 case None => Err(InvalidCookie)
                 case Some(c) => Ok(LastCookie(c, now))
  {
    hide Aead.XOpened;
    var cookie := new u8[16];
    var result := Aead.XOpen(keys.cookieRecv, p.nonce, lastSentMac1, p.encryptedCookie, cookie);
    if result != Ok(16) {
      return Err(InvalidCookie);
    }
    assert cookie[..] == cookie[..16];
    r := Ok(LastCookie(cookie[..], now));
  }
}
