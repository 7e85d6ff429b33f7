/** `src/message.rs`: the four datagram formats. */
module Message {
  import opened Machine
  import opened Bytes

  const TYPE_HANDSHAKE_INITIATION: u8 := 1
  const TYPE_HANDSHAKE_RESPONSE: u8 := 2
  const TYPE_COOKIE_REPLY: u8 := 3
  const TYPE_TRANSPORT_DATA: u8 := 4

  const INIT_ALPHA_LEN: nat := 116
  const RESP_ALPHA_LEN: nat := 60

  datatype Packet =
    | HandshakeInitiation(sender: u32, ephemeral: seq<u8>, encryptedStatic: seq<u8>, encryptedTimestamp: seq<u8>,
                          mac1: seq<u8>, mac2: seq<u8>, alpha: seq<u8>, beta: seq<u8>)
    | HandshakeResponse(sender: u32, receiver: u32, ephemeral: seq<u8>, encryptedNothing: seq<u8>,
                        mac1: seq<u8>, mac2: seq<u8>, alpha: seq<u8>, beta: seq<u8>)
    | CookieReply(receiver: u32, nonce: seq<u8>, encryptedCookie: seq<u8>)
    | TransportData(receiver: u32, counter: u64, ciphertext: seq<u8>)

  // ----- Parsing ----------------------------------------------------------------------------------------

  function Le32(b: seq<u8>): (v: u32)
    requires |b| == 4
  {
    LeBound(b);
    PowersOf256();
    LeValue(b)
  }

  function Le64(b: seq<u8>): (v: u64)
    requires |b| == 8
  {
    LeBound(b);
    PowersOf256();
    LeValue(b)
  }

  /** `take`: split off a fixed-size chunk. */
  function Take(b: seq<u8>, n: nat): (r: Result<(seq<u8>, seq<u8>)>)
    ensures r.Ok? ==> |r.value.0| == n && r.value.0 + r.value.1 == b
    ensures r.Err? ==> r.error == InvalidPacket && |b| < n
  {
    if |b| < n then Err(InvalidPacket) else Ok((b[..n], b[n..]))
  }

  function ParseInitiation(d: seq<u8>): (r: Result<Packet>)
    requires |d| >= 4
    ensures r.Ok? <==> |d| == HANDSHAKE_INITIATION_LEN
    ensures r.Err? ==> r.error == InvalidPacket
  {
    if |d| != HANDSHAKE_INITIATION_LEN then Err(InvalidPacket) else
    var sender := Take(d[4..], 4);
    if sender.Err? then Err(ErrorOf(sender)) else
    var ephemeral := Take(sender.value.1, 32);
    if ephemeral.Err? then Err(ErrorOf(ephemeral)) else
    var identity := Take(ephemeral.value.1, 48);
    if identity.Err? then Err(ErrorOf(identity)) else
    var stamp := Take(identity.value.1, 28);
    if stamp.Err? then Err(ErrorOf(stamp)) else
    var mac1 := Take(stamp.value.1, 16);
    if mac1.Err? then Err(ErrorOf(mac1)) else
    var mac2 := Take(mac1.value.1, 16);
    if mac2.Err? then Err(ErrorOf(mac2)) else
    if mac2.value.1 != [] then Err(Internal) else
    Ok(HandshakeInitiation(Le32(sender.value.0), ephemeral.value.0, identity.value.0, stamp.value.0, mac1.value.0,
                           mac2.value.0, d[..INIT_ALPHA_LEN], d[..INIT_ALPHA_LEN + 16]))
  }

  function ParseResponse(d: seq<u8>): (r: Result<Packet>)
    requires |d| >= 4
    ensures r.Ok? <==> |d| == HANDSHAKE_RESPONSE_LEN
    ensures r.Err? ==> r.error == InvalidPacket
  {
    if |d| != HANDSHAKE_RESPONSE_LEN then Err(InvalidPacket) else
    var sender := Take(d[4..], 4);
    if sender.Err? then Err(ErrorOf(sender)) else
    var receiver := Take(sender.value.1, 4);
    if receiver.Err? then Err(ErrorOf(receiver)) else
    var ephemeral := Take(receiver.value.1, 32);
    if ephemeral.Err? then Err(ErrorOf(ephemeral)) else
    var nothing := Take(ephemeral.value.1, 16);
    if nothing.Err? then Err(ErrorOf(nothing)) else
    var mac1 := Take(nothing.value.1, 16);
    if mac1.Err? then Err(ErrorOf(mac1)) else
    var mac2 := Take(mac1.value.1, 16);
    if mac2.Err? then Err(ErrorOf(mac2)) else
    if mac2.value.1 != [] then Err(Internal) else
    Ok(HandshakeResponse(Le32(sender.value.0), Le32(receiver.value.0), ephemeral.value.0, nothing.value.0, mac1.value.0,
                         mac2.value.0, d[..RESP_ALPHA_LEN], d[..RESP_ALPHA_LEN + 16]))
  }

  function ParseCookie(d: seq<u8>): (r: Result<Packet>)
    requires |d| >= 4
    ensures r.Ok? <==> |d| == COOKIE_REPLY_LEN
    ensures r.Err? ==> r.error == InvalidPacket
  {
    if |d| != COOKIE_REPLY_LEN then Err(InvalidPacket) else
    var receiver := Take(d[4..], 4);
    if receiver.Err? then Err(ErrorOf(receiver)) else
    var nonce := Take(receiver.value.1, 24);
    if nonce.Err? then Err(ErrorOf(nonce)) else
    var cookie := Take(nonce.value.1, 32);
    if cookie.Err? then Err(ErrorOf(cookie)) else
    if cookie.value.1 != [] then Err(Internal) else
    Ok(CookieReply(Le32(receiver.value.0), nonce.value.0, cookie.value.0))
  }

  function ParseTransport(d: seq<u8>): (r: Result<Packet>)
    requires |d| >= 4
    ensures r.Ok? <==> |d| >= TRANSPORT_OVERHEAD
    ensures r.Err? ==> r.error == InvalidPacket
  {
    if |d| < TRANSPORT_OVERHEAD then Err(InvalidPacket) else
    var receiver := Take(d[4..], 4);
    if receiver.Err? then Err(ErrorOf(receiver)) else
    var counter := Take(receiver.value.1, 8);
    if counter.Err? then Err(ErrorOf(counter)) else
    Ok(TransportData(Le32(receiver.value.0), Le64(counter.value.0), counter.value.1))
  }

  /** With the length checked no chunk is missing and nothing is left over. */
  lemma InitiationSlices(d: seq<u8>)
    requires |d| == HANDSHAKE_INITIATION_LEN
    ensures ParseInitiation(d) == Ok(HandshakeInitiation(Le32(d[4..8]), d[8..40], d[40..88], d[88..116], d[116..132],
                                                         d[132..148], d[..INIT_ALPHA_LEN], d[..INIT_ALPHA_LEN + 16]))
  {
    hide Le32;
    assert d[4..][..4] == d[4..8] && d[4..][4..] == d[8..];
    assert d[8..][..32] == d[8..40] && d[8..][32..] == d[40..];
    assert d[40..][..48] == d[40..88] && d[40..][48..] == d[88..];
    assert d[88..][..28] == d[88..116] && d[88..][28..] == d[116..];
    assert d[116..][..16] == d[116..132] && d[116..][16..] == d[132..];
    assert d[132..][..16] == d[132..148] && d[132..][16..] == [];
  }

  lemma ResponseSlices(d: seq<u8>)
    requires |d| == HANDSHAKE_RESPONSE_LEN
    ensures ParseResponse(d) == Ok(HandshakeResponse(Le32(d[4..8]), Le32(d[8..12]), d[12..44], d[44..60], d[60..76],
                                                     d[76..92], d[..RESP_ALPHA_LEN], d[..RESP_ALPHA_LEN + 16]))
  {
    hide Le32;
    assert d[4..][..4] == d[4..8] && d[4..][4..] == d[8..];
    assert d[8..][..4] == d[8..12] && d[8..][4..] == d[12..];
    assert d[12..][..32] == d[12..44] && d[12..][32..] == d[44..];
    assert d[44..][..16] == d[44..60] && d[44..][16..] == d[60..];
    assert d[60..][..16] == d[60..76] && d[60..][16..] == d[76..];
    assert d[76..][..16] == d[76..92] && d[76..][16..] == [];
  }

  lemma OtherSlices(d: seq<u8>)
    requires |d| >= TRANSPORT_OVERHEAD
    ensures |d| == COOKIE_REPLY_LEN ==> ParseCookie(d) == Ok(CookieReply(Le32(d[4..8]), d[8..32], d[32..64]))
    ensures ParseTransport(d) == Ok(TransportData(Le32(d[4..8]), Le64(d[8..16]), d[16..]))
  {
    hide Le32, Le64;
    assert d[4..][..4] == d[4..8] && d[4..][4..] == d[8..];
    assert d[8..][..8] == d[8..16] && d[8..][8..] == d[16..];
    if |d| == COOKIE_REPLY_LEN {
      assert d[8..][..24] == d[8..32] && d[8..][24..] == d[32..];
      assert d[32..][..32] == d[32..64] && d[32..][32..] == [];
    }
  }

  /** `parse`: the first four bytes, read as one word, must be the type byte. */
  function Parse(d: seq<u8>): (r: Result<Packet>) {
    if |d| < 4 then Err(InvalidPacket)
    else
      var word := Le32(d[..4]);
      if word == TYPE_HANDSHAKE_INITIATION then ParseInitiation(d)
      else if word == TYPE_HANDSHAKE_RESPONSE then ParseResponse(d)
      else if word == TYPE_COOKIE_REPLY then ParseCookie(d)
      else if word == TYPE_TRANSPORT_DATA then ParseTransport(d)
      else Err(InvalidPacket)
  }

  // ----- The formats ------------------------------------------------------------------------------------

  function Header(kind: u8): (h: seq<u8>)
    ensures |h| == 4
  {
    [kind, 0, 0, 0]
  }

  /** The bytes of a message. */
  function Encode(p: Packet): (d: seq<u8>) {
    match p
    case HandshakeInitiation(sender, ephemeral, identity, stamp, mac1, mac2, _, _) =>
      Header(TYPE_HANDSHAKE_INITIATION) + ToLe(sender, 4) + ephemeral + identity + stamp + mac1 + mac2
    case HandshakeResponse(sender, receiver, ephemeral, nothing, mac1, mac2, _, _) =>
      Header(TYPE_HANDSHAKE_RESPONSE) + ToLe(sender, 4) + ToLe(receiver, 4) + ephemeral + nothing + mac1 + mac2
    case CookieReply(receiver, nonce, cookie) =>
      Header(TYPE_COOKIE_REPLY) + ToLe(receiver, 4) + nonce + cookie
    case TransportData(receiver, counter, ciphertext) =>
      Header(TYPE_TRANSPORT_DATA) + ToLe(receiver, 4) + ToLe(counter, 8) + ciphertext
  }

  /** Fields of their proper sizes, and MAC inputs that are prefixes of the message. */
  predicate WellFormed(p: Packet) {
    match p
    case HandshakeInitiation(_, ephemeral, identity, stamp, mac1, mac2, alpha, beta) =>
      && |ephemeral| == 32 && |identity| == 48 && |stamp| == 28 && |mac1| == 16 && |mac2| == 16
      && alpha + mac1 + mac2 == Encode(p) && beta + mac2 == Encode(p)
    case HandshakeResponse(_, _, ephemeral, nothing, mac1, mac2, alpha, beta) =>
      && |ephemeral| == 32 && |nothing| == 16 && |mac1| == 16 && |mac2| == 16
      && alpha + mac1 + mac2 == Encode(p) && beta + mac2 == Encode(p)
    case CookieReply(_, nonce, cookie) => |nonce| == 24 && |cookie| == 32
    case TransportData(_, _, ciphertext) => |ciphertext| >= 16
  }

  lemma HeaderWord(kind: u8)
    ensures Le32(Header(kind)) == kind
  {
    var h := Header(kind);
    assert h[1..] == [0, 0, 0] && h[1..][1..] == [0, 0] && h[1..][1..][1..] == [0] && h[1..][1..][1..][1..] == [];
    assert LeValue([0]) == 0 + 256 * LeValue([]);
    assert LeValue([0, 0]) == 0 + 256 * LeValue([0]);
    assert LeValue([0, 0, 0]) == 0 + 256 * LeValue([0, 0]);
  }

  lemma WordHeader(b: seq<u8>, kind: u8)
    requires |b| == 4 && Le32(b) == kind
    ensures b == Header(kind)
  {
    HeaderWord(kind);
    LeInverse(b);
    LeInverse(Header(kind));
  }

  lemma Le32RoundTrip(v: u32)
    ensures Le32(ToLe(v, 4)) == v
  {
    PowersOf256();
    LeRoundTrip(v, 4);
  }

  lemma Le64RoundTrip(v: u64)
    ensures Le64(ToLe(v, 8)) == v
  {
    PowersOf256();
    LeRoundTrip(v, 8);
  }

  lemma ToLeOfLe(b: seq<u8>)
    ensures |b| == 4 ==> ToLe(Le32(b), 4) == b
    ensures |b| == 8 ==> ToLe(Le64(b), 8) == b
  {
    LeInverse(b);
  }

  lemma InitiationFields(a: seq<u8>, b: seq<u8>, c: seq<u8>, d: seq<u8>, e: seq<u8>, f: seq<u8>, g: seq<u8>)
    requires |a| == 4 && |b| == 4 && |c| == 32 && |d| == 48 && |e| == 28 && |f| == 16 && |g| == 16
    ensures var m := a + b + c + d + e + f + g;
            && |m| == 148 && m[..4] == a && m[4..8] == b && m[8..40] == c && m[40..88] == d && m[88..116] == e
            && m[116..132] == f && m[132..148] == g
  {}

  lemma ParsesInitiation(p: Packet)
    requires p.HandshakeInitiation? && WellFormed(p)
    ensures Parse(Encode(p)) == Ok(p)
  {
    hide Le32, ToLe, Le64, ParseInitiation;
    var d := Encode(p);
    HeaderWord(TYPE_HANDSHAKE_INITIATION);
    Le32RoundTrip(p.sender);
    InitiationFields(Header(TYPE_HANDSHAKE_INITIATION), ToLe(p.sender, 4), p.ephemeral, p.encryptedStatic,
        p.encryptedTimestamp, p.mac1, p.mac2);
    assert d[..116] == p.alpha && d[..132] == p.beta;
    InitiationSlices(d);
  }

  lemma ParsesResponse(p: Packet)
    requires p.HandshakeResponse? && WellFormed(p)
    ensures Parse(Encode(p)) == Ok(p)
  {
    hide Le32, ToLe, Le64, ParseResponse;
    var d := Encode(p);
    HeaderWord(TYPE_HANDSHAKE_RESPONSE);
    Le32RoundTrip(p.sender);
    Le32RoundTrip(p.receiver);
    assert d[..4] == Header(TYPE_HANDSHAKE_RESPONSE) && d[4..8] == ToLe(p.sender, 4) && d[8..12] == ToLe(p.receiver, 4);
    assert d[12..44] == p.ephemeral && d[44..60] == p.encryptedNothing && d[60..76] == p.mac1 && d[76..92] == p.mac2;
    assert d[..60] == p.alpha && d[..76] == p.beta;
    ResponseSlices(d);
  }

  lemma ParsesCookie(p: Packet)
    requires p.CookieReply? && WellFormed(p)
    ensures Parse(Encode(p)) == Ok(p)
  {
    hide Le32, ToLe, Le64, ParseCookie;
    var d := Encode(p);
    HeaderWord(TYPE_COOKIE_REPLY);
    Le32RoundTrip(p.receiver);
    assert d[..4] == Header(TYPE_COOKIE_REPLY) && d[4..8] == ToLe(p.receiver, 4);
    assert d[8..32] == p.nonce && d[32..64] == p.encryptedCookie;
    OtherSlices(d);
  }

  lemma ParsesTransport(p: Packet)
    requires p.TransportData? && WellFormed(p)
    ensures Parse(Encode(p)) == Ok(p)
  {
    hide Le32, ToLe, Le64, ParseTransport;
    var d := Encode(p);
    HeaderWord(TYPE_TRANSPORT_DATA);
    Le32RoundTrip(p.receiver);
    Le64RoundTrip(p.counter);
    assert d[..4] == Header(TYPE_TRANSPORT_DATA) && d[4..8] == ToLe(p.receiver, 4) && d[8..16] == ToLe(p.counter, 8);
    assert d[16..] == p.ciphertext;
    OtherSlices(d);
  }

  lemma ParsedInitiation(d: seq<u8>)
    requires |d| >= 4 && Le32(d[..4]) == TYPE_HANDSHAKE_INITIATION && ParseInitiation(d).Ok?
    ensures WellFormed(ParseInitiation(d).value) && Encode(ParseInitiation(d).value) == d
  {
    hide Le32, ToLe, Le64, ParseInitiation;
    WordHeader(d[..4], TYPE_HANDSHAKE_INITIATION);
    ToLeOfLe(d[4..8]);
    assert d == d[..4] + d[4..8] + d[8..40] + d[40..88] + d[88..116] + d[116..132] + d[132..148];
    assert d == d[..116] + d[116..132] + d[132..148] && d == d[..132] + d[132..148];
    InitiationSlices(d);
  }

  lemma ParsedResponse(d: seq<u8>)
    requires |d| >= 4 && Le32(d[..4]) == TYPE_HANDSHAKE_RESPONSE && ParseResponse(d).Ok?
    ensures WellFormed(ParseResponse(d).value) && Encode(ParseResponse(d).value) == d
  {
    hide Le32, ToLe, Le64, ParseResponse;
    WordHeader(d[..4], TYPE_HANDSHAKE_RESPONSE);
    ToLeOfLe(d[4..8]);
    ToLeOfLe(d[8..12]);
    assert d == d[..4] + d[4..8] + d[8..12] + d[12..44] + d[44..60] + d[60..76] + d[76..92];
    assert d == d[..60] + d[60..76] + d[76..92] && d == d[..76] + d[76..92];
    ResponseSlices(d);
  }

  lemma ParsedOther(d: seq<u8>)
    requires |d| >= 4
    ensures Le32(d[..4]) == TYPE_COOKIE_REPLY && ParseCookie(d).Ok? ==>
              WellFormed(ParseCookie(d).value) && Encode(ParseCookie(d).value) == d
    ensures Le32(d[..4]) == TYPE_TRANSPORT_DATA && ParseTransport(d).Ok? ==>
              WellFormed(ParseTransport(d).value) && Encode(ParseTransport(d).value) == d
  {
    hide Le32, ToLe, Le64, ParseCookie, ParseTransport;
    if Le32(d[..4]) == TYPE_COOKIE_REPLY && ParseCookie(d).Ok? {
      WordHeader(d[..4], TYPE_COOKIE_REPLY);
      ToLeOfLe(d[4..8]);
      assert d == d[..4] + d[4..8] + d[8..32] + d[32..64];
      OtherSlices(d);
    }
    if Le32(d[..4]) == TYPE_TRANSPORT_DATA && ParseTransport(d).Ok? {
      WordHeader(d[..4], TYPE_TRANSPORT_DATA);
      ToLeOfLe(d[4..8]);
      ToLeOfLe(d[8..16]);
      assert d == d[..4] + d[4..8] + d[8..16] + d[16..];
      OtherSlices(d);
    }
  }

  /** Strict both ways: a datagram parses to `p` exactly when it is the encoding of the
      well-formed message `p`; every other datagram is `InvalidPacket`. */
  lemma ParseIffEncode(d: seq<u8>, p: Packet)
    ensures Parse(d) == Ok(p) <==> WellFormed(p) && d == Encode(p)
    ensures Parse(d).Err? ==> Parse(d) == Err(InvalidPacket)
  {
    hide Encode, WellFormed, Le32;
    if WellFormed(p) {
      match p
      case HandshakeInitiation(_, _, _, _, _, _, _, _) => ParsesInitiation(p);
      case HandshakeResponse(_, _, _, _, _, _, _, _) => ParsesResponse(p);
      case CookieReply(_, _, _) => ParsesCookie(p);
      case TransportData(_, _, _) => ParsesTransport(p);
    }
    if Parse(d).Ok? {
      var word := Le32(d[..4]);
      if word == TYPE_HANDSHAKE_INITIATION {
        ParsedInitiation(d);
      } else if word == TYPE_HANDSHAKE_RESPONSE {
        ParsedResponse(d);
      } else {
        ParsedOther(d);
      }
    }
  }

  // ----- Building into a buffer ----------------------------------------------------------------------

  /** A message whose MACs are still to be filled in. */
  function Unmacced(body: seq<u8>): (d: seq<u8>) { body + Zeros(16) + Zeros(16) }

  function InitiationBody(sender: u32, ephemeral: seq<u8>, encryptedStatic: seq<u8>,
      encryptedTimestamp: seq<u8>): (b: seq<u8>) {
    Header(TYPE_HANDSHAKE_INITIATION) + ToLe(sender, 4) + ephemeral + encryptedStatic + encryptedTimestamp
  }

  function ResponseBody(sender: u32, receiver: u32, ephemeral: seq<u8>, encryptedNothing: seq<u8>): (b: seq<u8>) {
    Header(TYPE_HANDSHAKE_RESPONSE) + ToLe(sender, 4) + ToLe(receiver, 4) + ephemeral + encryptedNothing
  }

  /** Split a chunk off the front of what is left of `out[..limit]`, once per piece, and copy the
      piece into it: `Internal` as soon as a chunk does not fit, after the earlier ones were written. */
  method WritePieces(out: array<u8>, limit: nat, pieces: seq<seq<u8>>) returns (r: Result<()>)
    requires limit <= out.Length
    modifies out
    ensures r == if |Concat(pieces)| <= limit then Ok(()) else Err(Internal)
    ensures r.Ok? ==>
              out[..|Concat(pieces)|] == Concat(pieces) && out[|Concat(pieces)|..] == old(out[|Concat(pieces)|..])
  {
    var at := 0;
    for i := 0 to |pieces|
      invariant at == |Concat(pieces[..i])| <= limit
      invariant out[..at] == Concat(pieces[..i]) && out[at..] == old(out[at..])
    {
      ConcatNext(pieces, i);
      ConcatPrefix(pieces, i + 1);
      if limit - at < |pieces[i]| {
        return Err(Internal);
      }
      ghost var before := out[..at];
      Copy(out, at, pieces[i]);
      assert out[..at + |pieces[i]|] == before + pieces[i];
      at := at + |pieces[i]|;
    }
    assert pieces[..|pieces|] == pieces;
    r := Ok(());
  }

  lemma {:induction false} ConcatPrefix(pieces: seq<seq<u8>>, i: nat)
    requires i <= |pieces|
    ensures |Concat(pieces[..i])| <= |Concat(pieces)|
    decreases |pieces|
  {
    if i < |pieces| {
      ConcatPrefix(pieces[..|pieces| - 1], i);
      assert pieces[..|pieces| - 1][..i] == pieces[..i];
    } else {
      assert pieces[..i] == pieces;
    }
  }

  lemma Concat5(a: seq<u8>, b: seq<u8>, c: seq<u8>, d: seq<u8>, e: seq<u8>)
    ensures Concat([a, b, c, d, e]) == a + b + c + d + e
  {
    var p := [a, b, c, d, e];
    assert p[..0] == [] && p[..5] == p;
    ConcatNext(p, 0);
    ConcatNext(p, 1);
    ConcatNext(p, 2);
    ConcatNext(p, 3);
    ConcatNext(p, 4);
  }

  /** `build_initiation`: the message with zero MACs, and nothing beyond it. */
  method BuildInitiation(out: array<u8>, sender: u32, ephemeral: seq<u8>, encryptedStatic: seq<u8>,
      encryptedTimestamp: seq<u8>)
    returns (r: Result<nat>)
    requires |ephemeral| == 32 && |encryptedStatic| == 48 && |encryptedTimestamp| == 28
    modifies out
    ensures out.Length < HANDSHAKE_INITIATION_LEN ==> r == Err(BufferTooSmall) && out[..] == old(out[..])
    ensures out.Length >= HANDSHAKE_INITIATION_LEN ==>
      && r == Ok(HANDSHAKE_INITIATION_LEN)
      && out[..148] == Unmacced(InitiationBody(sender, ephemeral, encryptedStatic, encryptedTimestamp))
      && out[148..] == old(out[148..])
  {
    hide Concat, ToLe;
    if out.Length < HANDSHAKE_INITIATION_LEN {
      return Err(BufferTooSmall);
    }
    ghost var after := out[148..];
    Copy(out, 0, Zeros(148));
    assert out[..148] == out[0..148] == Zeros(148) && out[148..] == after;
    Concat5(Header(TYPE_HANDSHAKE_INITIATION), ToLe(sender, 4), ephemeral, encryptedStatic, encryptedTimestamp);
    ghost var zeroed := out[..];
    var written := WritePieces(out, HANDSHAKE_INITIATION_LEN,
      [Header(TYPE_HANDSHAKE_INITIATION), ToLe(sender, 4), ephemeral, encryptedStatic, encryptedTimestamp]);
    if written.Err? {
      return Err(ErrorOf(written));
    }
    assert out[116..] == zeroed[116..];
    assert out[148..] == out[116..][32..] && zeroed[148..] == zeroed[116..][32..];
    assert out[116..148] == zeroed[116..148] == Zeros(16) + Zeros(16);
    assert out[..148] == out[..116] + out[116..148];
    r := Ok(HANDSHAKE_INITIATION_LEN);
  }

  /** `build_response`. */
  method BuildResponse(out: array<u8>, sender: u32, receiver: u32, ephemeral: seq<u8>, encryptedNothing: seq<u8>)
    returns (r: Result<nat>)
    requires |ephemeral| == 32 && |encryptedNothing| == 16
    modifies out
    ensures out.Length < HANDSHAKE_RESPONSE_LEN ==> r == Err(BufferTooSmall) && out[..] == old(out[..])
    ensures out.Length >= HANDSHAKE_RESPONSE_LEN ==>
      && r == Ok(HANDSHAKE_RESPONSE_LEN)
      && out[..92] == Unmacced(ResponseBody(sender, receiver, ephemeral, encryptedNothing))
      && out[92..] == old(out[92..])
  {
    hide Concat, ToLe;
    if out.Length < HANDSHAKE_RESPONSE_LEN {
      return Err(BufferTooSmall);
    }
    ghost var after := out[92..];
    Copy(out, 0, Zeros(92));
    assert out[..92] == out[0..92] == Zeros(92) && out[92..] == after;
    Concat5(Header(TYPE_HANDSHAKE_RESPONSE), ToLe(sender, 4), ToLe(receiver, 4), ephemeral, encryptedNothing);
    ghost var zeroed := out[..];
    var written := WritePieces(out, HANDSHAKE_RESPONSE_LEN,
      [Header(TYPE_HANDSHAKE_RESPONSE), ToLe(sender, 4), ToLe(receiver, 4), ephemeral, encryptedNothing]);
    if written.Err? {
      return Err(ErrorOf(written));
    }
    assert out[60..] == zeroed[60..];
    assert out[92..] == out[60..][32..] && zeroed[92..] == zeroed[60..][32..];
    assert out[60..92] == zeroed[60..92] == Zeros(16) + Zeros(16);
    assert out[..92] == out[..60] + out[60..92];
    r := Ok(HANDSHAKE_RESPONSE_LEN);
  }

  /** `build_cookie_reply`: the exact encoding. */
  method BuildCookieReply(out: array<u8>, receiver: u32, nonce: seq<u8>, encryptedCookie: seq<u8>)
    returns (r: Result<nat>)
    requires |nonce| == 24 && |encryptedCookie| == 32
    modifies out
    ensures out.Length < COOKIE_REPLY_LEN ==> r == Err(BufferTooSmall) && out[..] == old(out[..])
    ensures out.Length >= COOKIE_REPLY_LEN ==>
      && r == Ok(COOKIE_REPLY_LEN) && out[..64] == Encode(CookieReply(receiver, nonce, encryptedCookie))
      && out[64..] == old(out[64..])
  {
    hide Concat, ToLe;
    if out.Length < COOKIE_REPLY_LEN {
      return Err(BufferTooSmall);
    }
    ghost var after := out[64..];
    Copy(out, 0, Zeros(64));
    assert out[64..] == after;
    Concat5(Header(TYPE_COOKIE_REPLY), ToLe(receiver, 4), nonce, encryptedCookie, []);
    var written := WritePieces(out, COOKIE_REPLY_LEN,
        [Header(TYPE_COOKIE_REPLY), ToLe(receiver, 4), nonce, encryptedCookie, []]);
    if written.Err? {
      return Err(ErrorOf(written));
    }
    r := Ok(COOKIE_REPLY_LEN);
  }

  function TransportHeader(receiver: u32, counter: u64): (h: seq<u8>)
    ensures |h| == 16
  {
    Header(TYPE_TRANSPORT_DATA) + ToLe(receiver, 4) + ToLe(counter, 8)
  }

  /** `write_transport_header`. */
  method WriteTransportHeader(out: array<u8>, receiver: u32, counter: u64) returns (r: Result<()>)
    modifies out
    ensures out.Length < TRANSPORT_OVERHEAD ==> r == Err(BufferTooSmall) && out[..] == old(out[..])
    ensures out.Length >= TRANSPORT_OVERHEAD ==>
      r == Ok(()) && out[..16] == TransportHeader(receiver, counter) && out[16..] == old(out[16..])
  {
    hide Concat, ToLe;
    if out.Length < TRANSPORT_OVERHEAD {
      return Err(BufferTooSmall);
    }
    Concat5(Header(TYPE_TRANSPORT_DATA), ToLe(receiver, 4), ToLe(counter, 8), [], []);
    var written := WritePieces(out, out.Length,
        [Header(TYPE_TRANSPORT_DATA), ToLe(receiver, 4), ToLe(counter, 8), [], []]);
    if written.Err? {
      return Err(ErrorOf(written));
    }
    r := Ok(());
  }

  // ----- The MAC slots ------------------------------------------------------------------------------

  /** `split_at_mut_checked`. */
  function SplitAt(b: seq<u8>, n: int): (r: Result<(seq<u8>, seq<u8>)>)
    ensures r.Err? <==> !(0 <= n <= |b|)
    ensures r.Err? ==> r.error == Internal
    ensures r.Ok? ==> |r.value.0| == n && r.value.0 + r.value.1 == b
  {
    if 0 <= n <= |b| then Ok((b[..n], b[n..])) else Err(Internal)
  }

  /** `mac_slots`: everything before `mac1`, `mac1`, `mac2`. A length that is no handshake
      message's is refused; no other check in here can fail. */
  function MacSlots(msg: seq<u8>): (r: Result<(seq<u8>, seq<u8>, seq<u8>)>)
    ensures r.Ok? <==> |msg| == HANDSHAKE_INITIATION_LEN || |msg| == HANDSHAKE_RESPONSE_LEN
    ensures r.Err? ==> r.error == InvalidPacket
    ensures r.Ok? ==> |r.value.1| == |r.value.2| == 16 && r.value.0 + r.value.1 + r.value.2 == msg
  {
    if |msg| != HANDSHAKE_INITIATION_LEN && |msg| != HANDSHAKE_RESPONSE_LEN then Err(InvalidPacket) else
    var outer := SplitAt(msg, |msg| - 16);
    if outer.Err? then Err(ErrorOf(outer)) else
    var inner := SplitAt(outer.value.0, |msg| - 32);
    if inner.Err? then Err(ErrorOf(inner)) else
    if |inner.value.1| != 16 then Err(Internal) else
    if |outer.value.1| != 16 then Err(Internal) else
    Ok((inner.value.0, inner.value.1, outer.value.1))
  }

  lemma SlotsOf(body: seq<u8>, mac1: seq<u8>, mac2: seq<u8>)
    requires (|body| == INIT_ALPHA_LEN || |body| == RESP_ALPHA_LEN) && |mac1| == 16 && |mac2| == 16
    ensures MacSlots(body + mac1 + mac2) == Ok((body, mac1, mac2))
  {
    var msg := body + mac1 + mac2;
    assert msg[..|msg| - 32] == body && msg[|msg| - 32..|msg| - 16] == mac1 && msg[|msg| - 16..] == mac2;
  }

  /** A built initiation, with any two MACs filled into the slots, parses to exactly the fields
      it was built from; the first MAC covers the body and the second the body and the first. */
  lemma InitiationRoundTrip(sender: u32, ephemeral: seq<u8>, encryptedStatic: seq<u8>, encryptedTimestamp: seq<u8>,
      mac1: seq<u8>, mac2: seq<u8>)
    requires |ephemeral| == 32 && |encryptedStatic| == 48 && |encryptedTimestamp| == 28 && |mac1| == 16 && |mac2| == 16
    ensures var body := InitiationBody(sender, ephemeral, encryptedStatic, encryptedTimestamp);
            && MacSlots(Unmacced(body)) == Ok((body, Zeros(16), Zeros(16)))
            && Parse(body + mac1 + mac2)
               == Ok(HandshakeInitiation(sender, ephemeral, encryptedStatic, encryptedTimestamp, mac1, mac2, body,
                   body + mac1))
  {
    hide Parse, ToLe;
    var body := InitiationBody(sender, ephemeral, encryptedStatic, encryptedTimestamp);
    SlotsOf(body, Zeros(16), Zeros(16));
    ParsesInitiation(HandshakeInitiation(sender, ephemeral, encryptedStatic, encryptedTimestamp, mac1, mac2, body,
        body + mac1));
  }

  lemma ResponseRoundTrip(sender: u32, receiver: u32, ephemeral: seq<u8>, encryptedNothing: seq<u8>, mac1: seq<u8>,
      mac2: seq<u8>)
    requires |ephemeral| == 32 && |encryptedNothing| == 16 && |mac1| == 16 && |mac2| == 16
    ensures var body := ResponseBody(sender, receiver, ephemeral, encryptedNothing);
            && MacSlots(Unmacced(body)) == Ok((body, Zeros(16), Zeros(16)))
            && Parse(body + mac1 + mac2)
               == Ok(HandshakeResponse(sender, receiver, ephemeral, encryptedNothing, mac1, mac2, body, body + mac1))
  {
    hide Parse, ToLe;
    var body := ResponseBody(sender, receiver, ephemeral, encryptedNothing);
    SlotsOf(body, Zeros(16), Zeros(16));
    ParsesResponse(HandshakeResponse(sender, receiver, ephemeral, encryptedNothing, mac1, mac2, body, body + mac1));
  }

  // ----- Trimming --------------------------------------------------------------------------------------

  function Be16(hi: u8, lo: u8): (v: nat) { hi as int * 256 + lo as int }

  /** The length an IP header claims, if the header is there and consistent. */
  function ClaimedLen(payload: seq<u8>): (r: Option<nat>) {
    if payload == [] then None
    else if payload[0] / 16 == 4 then
      if |payload| < 4 then None
      else
        var ihl, total := payload[0] as int % 16 * 4, Be16(payload[2], payload[3]);
        if ihl >= 20 && total >= ihl then Some(total) else None
    else if payload[0] / 16 == 6 then
      if |payload| < 40 then None else Some(Be16(payload[4], payload[5]) + 40)
    else None
  }

  /** `ip_packet_len`. */
  function IpPacketLen(payload: seq<u8>): (r: Option<nat>)
    ensures r.Some? ==> 20 <= r.value <= |payload|
  {
    var claimed := ClaimedLen(payload);
    if claimed.Some? && claimed.value <= |payload| then claimed else None
  }

  /** A packet that states its own size is recovered from under any padding, and trimming is
      idempotent: what is cut off had no say in the length. */
  lemma TrimsPadding(packet: seq<u8>, padding: seq<u8>)
    requires IpPacketLen(packet) == Some(|packet|)
    ensures IpPacketLen(packet + padding) == Some(|packet|)
  {
    assert |packet| >= 20;
    assert (packet + padding)[..6] == packet[..6];
    assert (packet + padding)[0] == packet[0] && (packet + padding)[2] == packet[2]
        && (packet + padding)[3] == packet[3];
    assert (packet + padding)[4] == packet[4] && (packet + padding)[5] == packet[5];
  }
}
