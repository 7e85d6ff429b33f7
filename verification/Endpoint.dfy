/** `decapsulate` and `send_initiation` of `src/tunnel.rs` on real bytes: the datagram is a byte
    string, the reply or the plaintext goes into the caller's array, and keys, MACs and cookies
    are the bytes that the primitives compute. */
module Endpoint {
  import opened Machine
  import opened Bytes
  import opened Time
  import opened Timers
  import opened Replay
  import opened Rotation
  import opened Sessions
  import opened NoiseBytes
  import opened CookieBytes
  import Aead
  import Message
  import X25519
  import Model = TunnelModel

  type Key = Bytes32
  type ByteSession = SessionOf<Key>

  // ----- The state as a value -----------------------------------------------------------------------------

  datatype Config = Config(localStatic: Key, localPublic: Key, peerPublic: Key, psk: Key, ss: Key,
                           constants: HandshakeConstants, macKeys: MacKeys, backend: Aead.Backend)

  datatype State = State(
    inflight: Option<InFlight>, lastInitMac1: Option<Mac16>, lastRespMac1: Option<Mac16>, cookie: Option<LastCookie>,
    jar: Jar<Key>, greatestTimestamp: Option<Tai64N>, lastSentTai: Option<Tai64N>, previous: Option<ByteSession>,
    current: Option<ByteSession>, next: Option<ByteSession>, timers: TimerState, recvRekeyDone: bool, lastNow: Ticks)
  {
    ghost function InSlot(slot: Model.Slot): (x: Option<ByteSession>) {
      match slot
      case Previous => previous
      case Current => current
      case Next => next
    }

    ghost function WithSlot(slot: Model.Slot, x: ByteSession): (s: State) {
      match slot
      case Previous => this.(previous := Some(x))
      case Current => this.(current := Some(x))
      case Next => this.(next := Some(x))
    }

    ghost function SlotOf(index: u32): (r: Option<Model.Slot>)
      ensures r.Some? ==> InSlot(r.value).Some?
    {
      if next.Some? && next.value.keys.localIndex == index then Some(Model.Next)
      else if current.Some? && current.value.keys.localIndex == index then Some(Model.Current)
      else if previous.Some? && previous.value.keys.localIndex == index then Some(Model.Previous)
      else None
    }

    ghost predicate Uses(index: u32) { SlotOf(index).Some? }

    ghost predicate Free(index: u32) {
      !Uses(index) && (inflight.Some? ==> inflight.value.localIndex != index)
    }

    /** The new session becomes current, the old current becomes previous. */
    ghost function Completed(keys: SessionKeys, now: Ticks): (s: State) {
      this.(previous := current, current := Some(NewSession(keys, now))).Settled()
    }

    ghost function Settled(): (s: State) {
      this.(inflight := None, recvRekeyDone := false,
            timers := timers.NoteHandshakeComplete().(confirmKeepaliveDue := true))
    }

    ghost function Responded(keys: SessionKeys, timestamp: Tai64N, mac1: Mac16, now: Ticks): (s: State) {
      this.(lastRespMac1 := Some(mac1), greatestTimestamp := Some(timestamp), next := Some(NewSession(keys, now)))
    }

    ghost function Initiated(flight: InFlight, stamp: Tai64N, mac1: Mac16, jitter: u64, now: Ticks): (s: State) {
      this.(lastSentTai := Some(stamp), lastInitMac1 := Some(mac1), inflight := Some(flight),
            timers := timers.NoteInitiationTx(now, jitter))
    }

    ghost function Promoted(): (s: State) {
      this.(previous := current, current := next, next := None, recvRekeyDone := false, inflight := None,
            timers := timers.NoteHandshakeComplete())
    }

    ghost function Rekeyed(now: Ticks): (s: State) {
      if !recvRekeyDone && current.Some? && current.value.keys.isInitiator
         && current.value.Age(now) >= Model.REKEY_AFTER_TIME_RECV
      then this.(recvRekeyDone := true, timers := timers.(rekeyDue := true)) else this
    }

    /** After an authenticated transport message. */
    ghost function Admitted(slot: Model.Slot, counter: u64): (s: State)
      requires InSlot(slot).Some?
    {
      var x := InSlot(slot).value;
      WithSlot(slot, x.(seen := Accepted(x.seen, counter), confirmed := true))
    }

    ghost function Delivered(slot: Model.Slot, counter: u64, isKeepalive: bool, now: Ticks): (s: State)
      requires InSlot(slot).Some?
    {
      var admitted := Admitted(slot, counter);
      var placed := if !InSlot(slot).value.confirmed && slot == Model.Next then admitted.Promoted() else admitted;
      var rekeyed := placed.Rekeyed(now);
      rekeyed.(timers := rekeyed.timers.NoteRx(now, isKeepalive))
    }
  }

  /** Everything a call may draw; `None` is a failed draw. */
  datatype Entropy = Entropy(indices: seq<Option<u32>>, eph: Option<Key>, jitter: Option<u64>, secret: Option<Key>,
                             seed: Option<NonceWords>)

  /** Slices of the caller's buffer are given by their length. */
  datatype Received = Data(n: nat) | Keepalive | Reply(n: nat) | HandshakeComplete | CookieStored

  // ----- What a call does, as a function --------------------------------------------------------------------

  /** Where and how a datagram arrives. */
  datatype Env = Env(config: Config, now: Ticks, remote: seq<u8>, underLoad: bool, rng: Entropy)

  /** The state, the result and the caller's buffer after a call. */
  datatype Outcome<T> = Outcome(state: State, result: Result<T>, buffer: seq<u8>)

  /** A rejection changes nothing. */
  ghost function Rejected<T>(s: State, e: Error, before: seq<u8>): (o: Outcome<T>) {
    Outcome(s, Err(e), before)
  }

  /** Up to 32 draws; the first that no live session and no in-flight handshake uses. */
  ghost function FirstFree(s: State, draws: seq<Option<u32>>, from: nat): (r: Result<u32>)
    requires from <= Model.INDEX_DRAWS
    ensures match r case Ok(index) => s.Free(index) case Err(e) => e == EntropyFailure
    decreases Model.INDEX_DRAWS - from
  {
    if from == Model.INDEX_DRAWS || from >= |draws| || draws[from].None? then Err(EntropyFailure)
    else if s.Free(draws[from].value) then Ok(draws[from].value)
    else FirstFree(s, draws, from + 1)
  }

  function Jitter(rng: Entropy, timerDriven: bool): (j: u64) {
    if timerDriven && rng.jitter.Some? then rng.jitter.value % (REKEY_TIMEOUT_JITTER_MAX + 1) else 0
  }

  function OutgoingStamp(lastSent: Option<Tai64N>, now: Now): (t: Tai64N) {
    if lastSent.Some? && LexLessEq(Stamp(now), lastSent.value) then Tick(lastSent.value) else Stamp(now)
  }

  /** An initiation with an unused index, a stamp past the last one and both MACs. */
  ghost function InitiationOf(c: Config, s: State, now: Now, index: u32, eph: Key, jitter: u64, before: seq<u8>)
    : (o: Outcome<nat>)
  {
    if |before| < HANDSHAKE_INITIATION_LEN then Rejected(s, BufferTooSmall, before) else
    var stamp := OutgoingStamp(s.lastSentTai, now);
    match Initiation(c.constants, c.localPublic, c.peerPublic, c.ss, index, eph, stamp)
    case Err(e) => Rejected(s, e, before)
    case Ok((flight, body)) =>
      Outcome(s.Initiated(flight, stamp, MacOf(c.macKeys.mac1Send, body), jitter, now.ticks),
              Ok(HANDSHAKE_INITIATION_LEN),
              Macced(c.macKeys, s.cookie, now.ticks, body) + before[HANDSHAKE_INITIATION_LEN..])
  }

  ghost function Initiating(c: Config, s: State, now: Now, rng: Entropy, timerDriven: bool, before: seq<u8>)
    : (o: Outcome<nat>)
  {
    match FirstFree(s, rng.indices, 0)
    case Err(e) => Rejected(s, e, before)
    case Ok(index) =>
      if rng.eph.None? then Rejected(s, EntropyFailure, before)
      else InitiationOf(c, s, now, index, rng.eph.value, Jitter(rng, timerDriven), before)
  }

  /** A cookie reply: the jar rotates if that is due and gives up one nonce. */
  ghost function CookieReplying(e: Env, s: State, sender: u32, mac1: Mac16, before: seq<u8>): (o: Outcome<Received>) {
    if |before| < COOKIE_REPLY_LEN then Rejected(s, BufferTooSmall, before) else
    match Rotated(s.jar, e.now, e.rng.secret, e.rng.seed)
    case Err(x) => Rejected(s, x, before)
    case Ok(jar) =>
      Outcome(s.(jar := jar.(nonce := NextNonce(jar.nonce))), Ok(Reply(COOKIE_REPLY_LEN)),
              Message.Encode(ReplyOf(e.config.macKeys, jar, sender, mac1, e.remote)) + before[COOKIE_REPLY_LEN..])
  }

  /** Both MAC checks, the second one only under load. */
  function Gated(keys: MacKeys, jar: Jar<Key>, remote: seq<u8>, underLoad: bool, alpha: seq<u8>, beta: seq<u8>,
      mac1: Mac16, mac2: Mac16): (r: Result<bool>)
    ensures match r case Ok(_) => true case Err(e) => e == InvalidMac1
  {
    if mac1 != MacOf(keys.mac1Recv, alpha) then Err(InvalidMac1) else Ok(!underLoad || Proves(jar, remote, beta, mac2))
  }

  /** An initiation that decrypts under the peer's keys and whose stamp is new. */
  function Vetted(c: Config, greatest: Option<Tai64N>, p: Message.Packet): (r: Result<Consumed>)
    requires p.HandshakeInitiation? && Message.WellFormed(p)
    ensures match r case Ok(_) => true case Err(e) => e != Internal
  {
    hide ConsumedInitiation, LexLessEq;
    var consumed := ConsumedInitiation(c.constants, c.localStatic, c.localPublic, c.peerPublic, c.ss, p);
    if consumed.Ok? && greatest.Some? && LexLessEq(consumed.value.timestamp, greatest.value) then Err(ReplayedTimestamp)
    else consumed
  }

  /** The response with an index of our own and both MACs; its session waits in `next`. */
  ghost function ResponseOf(e: Env, s: State, consumed: Consumed, index: u32, eph: Key, before: seq<u8>)
    : (o: Outcome<Received>)
  {
    if |before| < HANDSHAKE_RESPONSE_LEN then Rejected(s, BufferTooSmall, before) else
    match Response(consumed, e.config.psk, index, eph)
    case Err(x) => Rejected(s, x, before)
    case Ok((keys, body)) =>
      Outcome(s.Responded(keys, consumed.timestamp, MacOf(e.config.macKeys.mac1Send, body), e.now),
              Ok(Reply(HANDSHAKE_RESPONSE_LEN)),
              Macced(e.config.macKeys, s.cookie, e.now, body) + before[HANDSHAKE_RESPONSE_LEN..])
  }

  /** Everything about an answer that can fail before the buffer is touched: the initiation, an
      index and an ephemeral. */
  ghost function Prepared(e: Env, s: State, greatest: Option<Tai64N>,
      p: Message.Packet): (r: Result<(Consumed, u32, Key)>)
    requires p.HandshakeInitiation? && Message.WellFormed(p)
    ensures match r case Ok(_) => true case Err(x) => x != Internal
  {
    hide Vetted, FirstFree;
    match Vetted(e.config, greatest, p)
    case Err(x) => Err(x)
    case Ok(consumed) =>
      match FirstFree(s, e.rng.indices, 0)
      case Err(x) => Err(x)
      case Ok(index) => if e.rng.eph.None? then Err(EntropyFailure) else Ok((consumed, index, e.rng.eph.value))
  }

  ghost function Answering(e: Env, s: State, p: Message.Packet, before: seq<u8>): (o: Outcome<Received>)
    requires p.HandshakeInitiation? && Message.WellFormed(p)
  {
    match Prepared(e, s, s.greatestTimestamp, p)
    case Err(x) => Rejected(s, x, before)
    case Ok((consumed, index, eph)) => ResponseOf(e, s, consumed, index, eph, before)
  }

  ghost function OnInitiation(e: Env, s: State, p: Message.Packet, before: seq<u8>): (o: Outcome<Received>)
    requires p.HandshakeInitiation? && Message.WellFormed(p)
  {
    match Gated(e.config.macKeys, s.jar, e.remote, e.underLoad, p.alpha, p.beta, p.mac1, p.mac2)
    case Err(x) => Rejected(s, x, before)
    case Ok(proven) =>
      if proven then Answering(e, s, p, before) else CookieReplying(e, s, p.sender, p.mac1, before)
  }

  /** A response to the handshake in flight that opens under its keys; `None` asks for a cookie
      reply instead. */
  function Matched(e: Env, jar: Jar<Key>, inflight: Option<InFlight>,
      p: Message.Packet): (r: Result<Option<SessionKeys>>)
    requires p.HandshakeResponse? && Message.WellFormed(p)
    ensures match r case Ok(_) => true case Err(x) => x != Internal
  {
    hide Gated, ConsumedResponse;
    match Gated(e.config.macKeys, jar, e.remote, e.underLoad, p.alpha, p.beta, p.mac1, p.mac2)
    case Err(x) => Err(x)
    case Ok(proven) =>
      if inflight.None? || inflight.value.localIndex != p.receiver then Err(NoPendingHandshake)
      else if !proven then Ok(None)
      else match ConsumedResponse(inflight.value, e.config.localStatic, e.config.psk, p)
           case Err(x) => Err(x)
           case Ok(keys) => Ok(Some(keys))
  }

  ghost function OnResponse(e: Env, s: State, p: Message.Packet, before: seq<u8>): (o: Outcome<Received>)
    requires p.HandshakeResponse? && Message.WellFormed(p)
  {
    match Matched(e, s.jar, s.inflight, p)
    case Err(x) => Rejected(s, x, before)
    case Ok(None) => CookieReplying(e, s, p.sender, p.mac1, before)
    case Ok(Some(keys)) => Outcome(s.Completed(keys, e.now), Ok(HandshakeComplete), before)
  }

  function Tried(c: Config, mac1: Option<Mac16>, now: Ticks, p: Message.Packet): (r: Option<LastCookie>)
    requires p.CookieReply? && Message.WellFormed(p)
  {
    if mac1.None? then None else
    match Aead.XOpened(c.macKeys.cookieRecv, p.nonce, mac1.value, p.encryptedCookie)
    case None => None
    case Some(value) => Some(LastCookie(value, now))
  }

  /** A cookie reply is tried against the last initiation and then the last response. */
  ghost function CookieIn(c: Config, s: State, now: Ticks, p: Message.Packet): (r: Result<LastCookie>)
    requires p.CookieReply? && Message.WellFormed(p)
  {
    if !s.Uses(p.receiver) && (s.inflight.None? || s.inflight.value.localIndex != p.receiver)
    then Err(UnknownReceiverIndex)
    else if Tried(c, s.lastInitMac1, now, p).Some? then Ok(Tried(c, s.lastInitMac1, now, p).value)
    else if Tried(c, s.lastRespMac1, now, p).Some? then Ok(Tried(c, s.lastRespMac1, now, p).value)
    else if s.lastInitMac1.None? && s.lastRespMac1.None? then Err(NoPendingHandshake)
    else Err(InvalidCookie)
  }

  ghost function OnCookie(e: Env, s: State, p: Message.Packet, before: seq<u8>): (o: Outcome<Received>)
    requires p.CookieReply? && Message.WellFormed(p)
  {
    match CookieIn(e.config, s, e.now, p)
    case Err(x) => Rejected(s, x, before)
    case Ok(cookie) => Outcome(s.(cookie := Some(cookie)), Ok(CookieStored), before)
  }

  /** A transport message opens under the receiving key of a live session that has not seen its
      counter; exactly its plaintext goes into the buffer. */
  ghost function OnTransport(e: Env, s: State, p: Message.Packet, before: seq<u8>): (o: Outcome<Received>)
    requires p.TransportData?
  {
    match s.SlotOf(p.receiver)
    case None => Rejected(s, UnknownReceiverIndex, before)
    case Some(slot) =>
      var x := s.InSlot(slot).value;
      match Unsealing(x, e.now, p, |before|)
      case Err(error) => Rejected(s, error, before)
      case Ok(plain) =>
        Outcome(s.Delivered(slot, p.counter, plain == [], e.now),
                Ok(if plain == [] then Keepalive else Data(|plain|)), plain + before[|plain|..])
  }

  /** What one session makes of a transport message. */
  ghost function Unsealing(x: ByteSession, now: Ticks, p: Message.Packet, room: nat): (r: Result<seq<u8>>)
    requires p.TransportData?
    ensures match r case Ok(plain) => |plain| <= room && Fresh(x.seen, p.counter) case Err(e) => e != Internal
  {
    hide Fresh, Aead.Opened;
    if p.counter >= REJECT_AFTER_MESSAGES || x.Age(now) >= REJECT_AFTER_TIME then Err(Expired)
    else if !Fresh(x.seen, p.counter) then Err(Error.Replay)
    else if |p.ciphertext| < Aead.TAG_LEN then Err(AuthFailure)
    else if room < |p.ciphertext| - Aead.TAG_LEN then Err(BufferTooSmall)
    else match Aead.Opened(x.keys.recv, Aead.NonceFromCounter(p.counter), [], p.ciphertext)
         case None => Err(AuthFailure)
         case Some(plain) => Ok(plain)
  }

  /** `decapsulate` as a function of the datagram, the state and the buffer. */
  ghost function Decapsulated(e: Env, s: State, datagram: seq<u8>, before: seq<u8>): (o: Outcome<Received>) {
    match Message.Parse(datagram)
    case Err(x) => Rejected(s, x, before)
    case Ok(p) =>
      Message.ParseIffEncode(datagram, p);
      match p
      case HandshakeInitiation(_, _, _, _, _, _, _, _) => OnInitiation(e, s, p, before)
      case HandshakeResponse(_, _, _, _, _, _, _, _) => OnResponse(e, s, p, before)
      case CookieReply(_, _, _) => OnCookie(e, s, p, before)
      case TransportData(_, _, _) => OnTransport(e, s, p, before)
  }

  // ----- Messages into the buffer -------------------------------------------------------------------------------

  lemma BodyOfUnmacced(body: seq<u8>)
    ensures |Message.Unmacced(body)| == |body| + 32 && Message.Unmacced(body)[..|body|] == body
  {}

  /** `create_initiation` and then `apply_macs`: the array is written from the assembly of the
      message on, and from there on nothing fails, so an error leaves every byte as it was. */
  method WriteInitiation(c: Config, cookie: Option<LastCookie>, index: u32, eph: Key, stamp: Tai64N, now: Ticks,
      out: array<u8>)
    returns (r: Result<(InFlight, Mac16)>)
    modifies out
    ensures var spec := Initiation(c.constants, c.localPublic, c.peerPublic, c.ss, index, eph, stamp);
            && r == (if out.Length < HANDSHAKE_INITIATION_LEN then Err(BufferTooSmall)
                     else if spec.Err? then Err(InvalidPublicKey)
                     else Ok((spec.value.0, MacOf(c.macKeys.mac1Send, spec.value.1))))
            && out[..] == if r.Err? then old(out[..])
                          else Macced(c.macKeys, cookie, now, spec.value.1) + old(out[HANDSHAKE_INITIATION_LEN..])
  {
    hide Initiation, Macced, MacOf, Message.Unmacced;
    var flight := CreateInitiation(c.constants, c.localPublic, c.peerPublic, c.ss, index, eph, stamp, out);
    if flight.Err? {
      return Err(ErrorOf(flight));
    }
    if out.Length < HANDSHAKE_INITIATION_LEN {
      return Err(Internal);
    }
    ghost var body := Initiation(c.constants, c.localPublic, c.peerPublic, c.ss, index, eph, stamp).value.1;
    BodyOfUnmacced(body);
    assert out[..116] == body by { assert out[..116] == out[..148][..116]; }
    var mac1 := ApplyMacs(c.macKeys, cookie, now, out, HANDSHAKE_INITIATION_LEN);
    if mac1.Err? {
      return Err(ErrorOf(mac1));
    }
    assert out[..] == out[..148] + out[148..];
    r := Ok((flight.value, mac1.value));
  }

  /** `create_response` and then `apply_macs`. */
  method WriteResponse(c: Config, cookie: Option<LastCookie>, consumed: Consumed, index: u32, eph: Key, now: Ticks,
      out: array<u8>)
    returns (r: Result<(SessionKeys, Mac16)>)
    modifies out
    ensures var spec := Response(consumed, c.psk, index, eph);
            && r == (if out.Length < HANDSHAKE_RESPONSE_LEN then Err(BufferTooSmall)
                     else if spec.Err? then Err(InvalidPublicKey)
                     else Ok((spec.value.0, MacOf(c.macKeys.mac1Send, spec.value.1))))
            && out[..] == if r.Err? then old(out[..])
                          else Macced(c.macKeys, cookie, now, spec.value.1) + old(out[HANDSHAKE_RESPONSE_LEN..])
  {
    hide Response, Macced, MacOf, Message.Unmacced;
    var keys := CreateResponse(consumed, c.psk, index, eph, out);
    if keys.Err? {
      return Err(ErrorOf(keys));
    }
    if out.Length < HANDSHAKE_RESPONSE_LEN {
      return Err(Internal);
    }
    ghost var body := Response(consumed, c.psk, index, eph).value.1;
    BodyOfUnmacced(body);
    assert out[..60] == body by { assert out[..60] == out[..92][..60]; }
    var mac1 := ApplyMacs(c.macKeys, cookie, now, out, HANDSHAKE_RESPONSE_LEN);
    if mac1.Err? {
      return Err(ErrorOf(mac1));
    }
    assert out[..] == out[..92] + out[92..];
    r := Ok((keys.value, mac1.value));
  }

  /** Overwrite the first `n` bytes with zeros. */
  method Wipe(out: array<u8>, n: nat)
    requires n <= out.Length
    modifies out
    ensures out[..] == Zeros(n) + old(out[n..])
  {
    ghost var after := out[n..];
    Copy(out, 0, Zeros(n));
    assert out[0..n] == Zeros(n);
    assert out[..] == out[0..n] + out[n..];
  }

  ghost function PartsOf(s: LiveSession?<Key>): (p: set<object>) {
    if s == null then {} else s.Parts()
  }

  ghost function ViewOf(s: LiveSession?<Key>): (v: Option<ByteSession>)
    reads PartsOf(s)
  {
    if s == null then None else Some(s.View())
  }

  class Endpoint {
    const config: Config
    var inflight: Option<InFlight>
    var lastInitMac1: Option<Mac16>
    var lastRespMac1: Option<Mac16>
    var cookie: Option<LastCookie>
    const jar: CookieJar<Key>
    var greatestTimestamp: Option<Tai64N>
    var lastSentTai: Option<Tai64N>
    var previous: LiveSession?<Key>
    var current: LiveSession?<Key>
    var next: LiveSession?<Key>
    const timers: TimerSet
    var recvRekeyDone: bool
    var lastNow: Ticks

    /** Everything this object owns, itself included. */
    ghost var owned: set<object>

    ghost predicate Valid()
      reads this, owned
    {
      && this in owned && jar in owned && timers in owned
      && PartsOf(previous) <= owned && PartsOf(current) <= owned && PartsOf(next) <= owned
      && PartsOf(previous) !! PartsOf(current) && PartsOf(current) !! PartsOf(next)
      && PartsOf(next) !! PartsOf(previous)
      && (previous != null ==> previous.Valid())
      && (current != null ==> current.Valid())
      && (next != null ==> next.Valid())
    }

    ghost function View(): (s: State)
      requires Valid()
      reads this, owned
    {
      State(inflight, lastInitMac1, lastRespMac1, cookie, jar.Contents(), greatestTimestamp, lastSentTai,
            ViewOf(previous), ViewOf(current), ViewOf(next), timers.Contents(), recvRekeyDone, lastNow)
    }

    /** A tunnel with no session: the derived keys are computed once. */
    constructor (localStatic: Key, localPublic: Key, peerPublic: Key, psk: Key, ss: Key, constants: HandshakeConstants,
        macKeys: MacKeys, backend: Aead.Backend)
      ensures Valid() && fresh(owned)
      ensures config == Config(localStatic, localPublic, peerPublic, psk, ss, constants, macKeys, backend)
      ensures View()
        == State(None, None, None, None, Unprimed(Zeros(32)), None, None, None, None, None, DEFAULT_TIMERS, false, 0)
    {
      config := Config(localStatic, localPublic, peerPublic, psk, ss, constants, macKeys, backend);
      inflight, lastInitMac1, lastRespMac1, cookie := None, None, None, None;
      jar := new CookieJar(Zeros(32));
      greatestTimestamp, lastSentTai := None, None;
      previous, current, next := null, null, null;
      timers := new TimerSet();
      recvRekeyDone, lastNow := false, 0;
      owned := {this, jar, timers};
    }

    method SessionWithIndex(index: u32) returns (r: Option<Model.Slot>)
      requires Valid()
      ensures r == View().SlotOf(index)
      ensures r.Some? ==> SlotSession(r.value) != null
    {
      if next != null && next.keys.localIndex == index {
        return Some(Model.Next);
      }
      if current != null && current.keys.localIndex == index {
        return Some(Model.Current);
      }
      if previous != null && previous.keys.localIndex == index {
        return Some(Model.Previous);
      }
      r := None;
    }

    function SlotSession(slot: Model.Slot): (s: LiveSession?<Key>)
      reads this
    {
      match slot
      case Previous => previous
      case Current => current
      case Next => next
    }

    /** `fresh_index`: at most 32 draws for an index that nothing uses. */
    method FreshIndex(draws: seq<Option<u32>>) returns (r: Result<u32>)
      requires Valid()
      ensures r == FirstFree(View(), draws, 0)
    {
      for i := 0 to Model.INDEX_DRAWS
        invariant FirstFree(View(), draws, 0) == FirstFree(View(), draws, i)
      {
        if i >= |draws| || draws[i].None? {
          return Err(EntropyFailure);
        }
        var slot := SessionWithIndex(draws[i].value);
        var clash := slot.Some? || (inflight.Some? && inflight.value.localIndex == draws[i].value);
        if !clash {
          return Ok(draws[i].value);
        }
      }
      r := Err(EntropyFailure);
    }

    lemma FieldsView()
      requires Valid()
      ensures View().jar == jar.Contents() && View().cookie == cookie && View().inflight == inflight
      ensures View().lastSentTai == lastSentTai && View().greatestTimestamp == greatestTimestamp
      ensures View().lastInitMac1 == lastInitMac1 && View().lastRespMac1 == lastRespMac1
    {}

    lemma InSlotView(slot: Model.Slot)
      requires Valid()
      ensures View().InSlot(slot) == ViewOf(SlotSession(slot))
    {}

    // ----- send_initiation ---------------------------------------------------------------------------------

    /** `send_initiation`: whatever fails, fails before the first byte is written and before
        anything is recorded. */
    method SendInitiation(now: Now, out: array<u8>, rng: Entropy, timerDriven: bool) returns (r: Result<nat>)
      requires Valid() && out !in owned
      modifies this`lastSentTai, this`lastInitMac1, this`inflight, timers, out
      ensures Valid()
      ensures Outcome(View(), r, out[..]) == Initiating(config, old(View()), now, rng, timerDriven, old(out[..]))
    {
      hide View, Represents, InitiationOf, FirstFree;
      var index := FreshIndex(rng.indices);
      if index.Err? {
        return Err(ErrorOf(index));
      }
      if rng.eph.None? {
        return Err(EntropyFailure);
      }
      r := EmitInitiation(now, index.value, rng.eph.value, Jitter(rng, timerDriven), out);
    }

    /** The message into the buffer, and then the four records of it. */
    method EmitInitiation(now: Now, index: u32, eph: Key, jitter: u64, out: array<u8>) returns (r: Result<nat>)
      requires Valid() && out !in owned
      modifies this`lastSentTai, this`lastInitMac1, this`inflight, timers, out
      ensures Valid()
      ensures Outcome(View(), r, out[..]) == InitiationOf(config, old(View()), now, index, eph, jitter, old(out[..]))
    {
      hide View, Represents, InitiationOf, Initiation, Macced, MacOf, OutgoingStamp;
      ghost var s, before := View(), out[..];
      FieldsView();
      var stamp := OutgoingStamp(lastSentTai, now);
      var written := WriteInitiation(config, cookie, index, eph, stamp, now.ticks, out);
      assert View() == s;
      InitiationOutcome(config, s, now, index, eph, jitter, before);
      if written.Err? {
        return Err(ErrorOf(written));
      }
      CommitInitiation(written.value.0, stamp, written.value.1, jitter, now.ticks);
      r := Ok(HANDSHAKE_INITIATION_LEN);
    }

    method CommitInitiation(flight: InFlight, stamp: Tai64N, mac1: Mac16, jitter: u64, now: Ticks)
      requires Valid()
      modifies this`lastSentTai, this`lastInitMac1, this`inflight, timers
      ensures Valid()
      ensures View() == old(View()).Initiated(flight, stamp, mac1, jitter, now)
    {
      hide Represents;
      lastSentTai := Some(stamp);
      lastInitMac1 := Some(mac1);
      inflight := Some(flight);
      timers.NoteInitiationTx(now, jitter);
    }

    // ----- Initiations -------------------------------------------------------------------------------------

    method RespondWithCookie(e: Env, sender: u32, mac1: Mac16, out: array<u8>) returns (r: Result<Received>)
      requires Valid() && out !in owned && e.config == config
      modifies jar, out
      ensures Valid()
      ensures Outcome(View(), r, out[..]) == CookieReplying(e, old(View()), sender, mac1, old(out[..]))
    {
      hide Represents, ReplyOf, Message.Encode, Rotated, NextNonce;
      var built := BuildCookieReply(config.macKeys, jar, e.now, e.rng.secret, e.rng.seed, sender, mac1, e.remote, out);
      if built.Err? {
        return Err(ErrorOf(built));
      }
      assert out[..] == out[..64] + out[64..];
      if out.Length < built.value {
        return Err(Internal);
      }
      r := Ok(Reply(built.value));
    }

    method Gate(e: Env, alpha: seq<u8>, beta: seq<u8>, mac1: Mac16, mac2: Mac16) returns (r: Result<bool>)
      requires e.config == config
      ensures r == Gated(config.macKeys, jar.Contents(), e.remote, e.underLoad, alpha, beta, mac1, mac2)
    {
      hide MacOf, Proves;
      var known := VerifyMac1(config.macKeys, alpha, mac1);
      if !known {
        return Err(InvalidMac1);
      }
      if e.underLoad {
        var proven := VerifyMac2(jar, e.remote, beta, mac2);
        return Ok(proven);
      }
      r := Ok(true);
    }

    method ReceiveInitiation(e: Env, p: Message.Packet, out: array<u8>) returns (r: Result<Received>)
      requires Valid() && out !in owned && e.config == config && p.HandshakeInitiation? && Message.WellFormed(p)
      modifies this`lastRespMac1, this`greatestTimestamp, this`next, this`owned, jar, out
      ensures Valid() && fresh(owned - old(owned))
      ensures Outcome(View(), r, out[..]) == OnInitiation(e, old(View()), p, old(out[..]))
    {
      hide View, Represents, Gated, Answering, CookieReplying;
      ghost var s := View();
      FieldsView();
      var gate := Gate(e, p.alpha, p.beta, p.mac1, p.mac2);
      assert View() == s;
      if gate.Err? {
        return Err(ErrorOf(gate));
      }
      if !gate.value {
        r := RespondWithCookie(e, p.sender, p.mac1, out);
        return;
      }
      r := Answer(e, p, out);
    }

    /** The rest of the initiation path, once the MACs have passed. */
    method Answer(e: Env, p: Message.Packet, out: array<u8>) returns (r: Result<Received>)
      requires Valid() && out !in owned && e.config == config && p.HandshakeInitiation? && Message.WellFormed(p)
      modifies this`lastRespMac1, this`greatestTimestamp, this`next, this`owned, out
      ensures Valid() && fresh(owned - old(owned))
      ensures Outcome(View(), r, out[..]) == Answering(e, old(View()), p, old(out[..]))
    {
      hide View, Represents, Prepared, ResponseOf, Message.WellFormed;
      ghost var s := View();
      FieldsView();
      var ready := Prepare(e, p);
      assert View() == s;
      if ready.Err? {
        return Err(ErrorOf(ready));
      }
      r := EmitResponse(e, ready.value.0, ready.value.1, ready.value.2, out);
    }

    method Prepare(e: Env, p: Message.Packet) returns (r: Result<(Consumed, u32, Key)>)
      requires Valid() && e.config == config && p.HandshakeInitiation? && Message.WellFormed(p)
      ensures r == Prepared(e, View(), greatestTimestamp, p)
    {
      hide View, Represents, Vetted, FirstFree, Message.WellFormed;
      var consumed := Consume(p);
      if consumed.Err? {
        return Err(ErrorOf(consumed));
      }
      var index := FreshIndex(e.rng.indices);
      if index.Err? {
        return Err(ErrorOf(index));
      }
      if e.rng.eph.None? {
        return Err(EntropyFailure);
      }
      r := Ok((consumed.value, index.value, e.rng.eph.value));
    }

    method Consume(p: Message.Packet) returns (r: Result<Consumed>)
      requires p.HandshakeInitiation? && Message.WellFormed(p)
      ensures r == Vetted(config, greatestTimestamp, p)
    {
      hide ConsumedInitiation, LexLessEq, Message.WellFormed;
      r := ConsumeInitiation(config.constants, config.localStatic, config.localPublic, config.peerPublic, config.ss, p);
      if r.Ok? && greatestTimestamp.Some? && LexLessEq(r.value.timestamp, greatestTimestamp.value) {
        return Err(ReplayedTimestamp);
      }
    }

    /** The response into the buffer, and then the three records of it. */
    method EmitResponse(e: Env, consumed: Consumed, index: u32, eph: Key, out: array<u8>) returns (r: Result<Received>)
      requires Valid() && out !in owned && e.config == config
      modifies this`lastRespMac1, this`greatestTimestamp, this`next, this`owned, out
      ensures Valid() && fresh(owned - old(owned))
      ensures Outcome(View(), r, out[..]) == ResponseOf(e, old(View()), consumed, index, eph, old(out[..]))
    {
      hide View, Represents, ResponseOf, Response, Macced, MacOf;
      ghost var s, before := View(), out[..];
      FieldsView();
      var written := WriteResponse(config, cookie, consumed, index, eph, e.now, out);
      assert View() == s;
      ResponseOutcome(e, s, consumed, index, eph, before);
      if written.Err? {
        return Err(ErrorOf(written));
      }
      CommitResponse(written.value.0, consumed.timestamp, written.value.1, e.now);
      if out.Length < HANDSHAKE_RESPONSE_LEN {
        return Err(Internal);
      }
      r := Ok(Reply(HANDSHAKE_RESPONSE_LEN));
    }

    method CommitResponse(keys: SessionKeys, timestamp: Tai64N, mac1: Mac16, now: Ticks)
      requires Valid()
      modifies this`lastRespMac1, this`greatestTimestamp, this`next, this`owned
      ensures Valid() && fresh(owned - old(owned))
      ensures View() == old(View()).Responded(keys, timestamp, mac1, now)
    {
      hide Represents;
      var session := new LiveSession(keys, now);
      lastRespMac1 := Some(mac1);
      greatestTimestamp := Some(timestamp);
      next := session;
      owned := owned + session.Parts();
    }

    // ----- Responses -----------------------------------------------------------------------------------------

    method ReceiveResponse(e: Env, p: Message.Packet, out: array<u8>) returns (r: Result<Received>)
      requires Valid() && out !in owned && e.config == config && p.HandshakeResponse? && Message.WellFormed(p)
      modifies this`inflight, this`previous, this`current, this`recvRekeyDone, this`owned, timers, jar, out
      ensures Valid() && fresh(owned - old(owned))
      ensures Outcome(View(), r, out[..]) == OnResponse(e, old(View()), p, old(out[..]))
    {
      hide View, Represents, Matched, CookieReplying, Message.WellFormed;
      ghost var s := View();
      FieldsView();
      var keys := Match(e, p);
      assert View() == s;
      if keys.Err? {
        return Err(ErrorOf(keys));
      }
      if keys.value.None? {
        WellFormedMacs(p);
        r := RespondWithCookie(e, p.sender, p.mac1, out);
        return;
      }
      CommitSession(keys.value.value, e.now);
      r := Ok(HandshakeComplete);
    }

    method Match(e: Env, p: Message.Packet) returns (r: Result<Option<SessionKeys>>)
      requires e.config == config && p.HandshakeResponse? && Message.WellFormed(p)
      ensures r == Matched(e, jar.Contents(), inflight, p)
    {
      hide Gated, ConsumedResponse;
      var gate := Gate(e, p.alpha, p.beta, p.mac1, p.mac2);
      if gate.Err? {
        return Err(ErrorOf(gate));
      }
      if inflight.None? || inflight.value.localIndex != p.receiver {
        return Err(NoPendingHandshake);
      }
      if !gate.value {
        return Ok(None);
      }
      var keys := ConsumeResponse(inflight.value, config.localStatic, config.psk, p);
      r := if keys.Err? then Err(ErrorOf(keys)) else Ok(Some(keys.value));
    }

    method CommitSession(keys: SessionKeys, now: Ticks)
      requires Valid()
      modifies this`inflight, this`previous, this`current, this`recvRekeyDone, this`owned, timers
      ensures Valid() && fresh(owned - old(owned))
      ensures View() == old(View()).Completed(keys, now)
    {
      hide Represents, View;
      var session := new LiveSession(keys, now);
      Shift(session);
      Settle();
    }

    method Shift(session: LiveSession<Key>)
      requires Valid() && session.Valid() && session.Parts() !! owned
      modifies this`previous, this`current, this`owned
      ensures Valid() && owned == old(owned) + session.Parts()
      ensures View() == old(View()).(previous := old(View()).current, current := Some(session.View()))
    {
      hide Represents;
      previous := current;
      current := session;
      owned := owned + session.Parts();
    }

    method Settle()
      requires Valid()
      modifies this`inflight, this`recvRekeyDone, timers
      ensures Valid()
      ensures View() == old(View()).Settled()
    {
      hide Represents;
      inflight := None;
      recvRekeyDone := false;
      timers.NoteHandshakeComplete();
      timers.confirmKeepaliveDue := true;
    }

    // ----- Cookie replies --------------------------------------------------------------------------------------

    method ReceiveCookie(e: Env, p: Message.Packet, ghost before: seq<u8>) returns (r: Result<Received>)
      requires Valid() && e.config == config && p.CookieReply? && Message.WellFormed(p)
      modifies this`cookie
      ensures Valid()
      ensures Outcome(View(), r, before) == OnCookie(e, old(View()), p, before)
    {
      hide Represents, CookieIn;
      var found := FindCookie(e.now, p);
      if found.Err? {
        return Err(ErrorOf(found));
      }
      cookie := Some(found.value);
      r := Ok(CookieStored);
    }

    method FindCookie(now: Ticks, p: Message.Packet) returns (r: Result<LastCookie>)
      requires Valid() && p.CookieReply? && Message.WellFormed(p)
      ensures r == CookieIn(config, View(), now, p)
    {
      hide View, Represents, Tried;
      ghost var s := View();
      FieldsView();
      var slot := SessionWithIndex(p.receiver);
      if slot.None? && (inflight.None? || inflight.value.localIndex != p.receiver) {
        return Err(UnknownReceiverIndex);
      }
      var found := TryOpen(lastInitMac1, now, p);
      assert View() == s;
      if found.None? {
        found := TryOpen(lastRespMac1, now, p);
        assert View() == s;
      }
      if found.Some? {
        return Ok(found.value);
      }
      r := if lastInitMac1.None? && lastRespMac1.None? then Err(NoPendingHandshake) else Err(InvalidCookie);
    }

    method TryOpen(mac1: Option<Mac16>, now: Ticks, p: Message.Packet) returns (r: Option<LastCookie>)
      requires p.CookieReply? && Message.WellFormed(p)
      ensures r == Tried(config, mac1, now, p)
    {
      hide Aead.XOpened;
      if mac1.None? {
        return None;
      }
      var reply := ConsumeCookieReply(config.macKeys, mac1.value, p, now);
      r := if reply.Ok? then Some(reply.value) else None;
    }

    // ----- Transport -------------------------------------------------------------------------------------------

    /** `handle_transport`: the plaintext is in the buffer before its counter enters the window; were
        the window to refuse it there, the plaintext would be wiped and the buffer spoiled, but
        what the window was asked before decryption still holds. */
    method ReceiveTransport(e: Env, p: Message.Packet, out: array<u8>) returns (r: Result<Received>)
      requires Valid() && out !in owned && e.config == config && p.TransportData?
      modifies owned, out
      ensures Valid() && owned == old(owned)
      ensures Outcome(View(), r, out[..]) == OnTransport(e, old(View()), p, old(out[..]))
    {
      hide View, Represents, Unsealing, Fresh;
      ghost var s := View();
      var slot := SessionWithIndex(p.receiver);
      if slot.None? {
        return Err(UnknownReceiverIndex);
      }
      InSlotView(slot.value);
      var session := SlotSession(slot.value);
      if session == null {
        return Err(Internal);
      }
      var decrypted := Decrypt(session, e.now, p, out);
      assert View() == s;
      if decrypted.Err? {
        return Err(ErrorOf(decrypted));
      }
      r := Conclude(e.now, slot.value, p.counter, decrypted.value, out);
    }

    /** The checks and then the decryption: a message that does not open leaves no trace. */
    method Decrypt(session: LiveSession<Key>, now: Ticks, p: Message.Packet, out: array<u8>) returns (r: Result<nat>)
      requires session.Valid() && out !in session.Parts() && p.TransportData?
      modifies out
      ensures session.Valid()
      ensures match Unsealing(session.View(), now, p, out.Length)
              case Err(e) => r == Err(e) && out[..] == old(out[..])
              case Ok(plain) => r == Ok(|plain|) && out[..] == plain + old(out[|plain|..])
    {
      hide Represents, Fresh, Aead.Opened, Aead.NonceFromCounter;
      if p.counter >= REJECT_AFTER_MESSAGES {
        return Err(Expired);
      }
      if session.Age(now) >= REJECT_AFTER_TIME {
        return Err(Expired);
      }
      var ok := session.replay.Check(p.counter);
      if !ok {
        return Err(Error.Replay);
      }
      r := Aead.Open(config.backend, session.keys.recv, Aead.NonceFromCounter(p.counter), [], p.ciphertext, out);
      assert r.Ok? ==> out[..] == out[..r.value] + out[r.value..];
    }

    /** The counter enters the window; a refusal would wipe the plaintext. */
    method Conclude(now: Ticks, slot: Model.Slot, counter: u64, n: nat, out: array<u8>) returns (r: Result<Received>)
      requires Valid() && out !in owned && n <= out.Length
      requires SlotSession(slot) != null && Fresh(SlotSession(slot).replay.seen, counter)
      modifies owned, out
      ensures Valid() && owned == old(owned) && out[..] == old(out[..])
      ensures r == Ok(if n == 0 then Keepalive else Data(n))
      ensures old(View()).InSlot(slot).Some? && View() == old(View()).Delivered(slot, counter, n == 0, now)
    {
      hide View, Represents, Fresh;
      var delivered := Deliver(now, slot, counter, n == 0);
      ghost var s := View();
      Wipe(out, if delivered.Err? then n else 0);
      assert View() == s;
      if delivered.Err? {
        return Err(ErrorOf(delivered));
      }
      if out.Length < n {
        return Err(Internal);
      }
      r := Ok(if n == 0 then Keepalive else Data(n));
    }

    method Admit(slot: Model.Slot, counter: u64) returns (r: Result<()>)
      requires Valid() && SlotSession(slot) != null
      modifies SlotSession(slot).Parts()
      ensures Valid()
      ensures r == if old(Fresh(SlotSession(slot).replay.seen, counter)) then Ok(()) else Err(Internal)
      ensures old(View()).InSlot(slot).Some?
      ensures View() == if r.Ok? then old(View()).Admitted(slot, counter) else old(View())
    {
      hide Represents, Fresh;
      var session := SlotSession(slot);
      var accepted := session.replay.Accept(counter);
      if !accepted {
        return Err(Internal);
      }
      session.confirmed := true;
      r := Ok(());
    }

    method Promote()
      requires Valid()
      modifies this`previous, this`current, this`next, this`recvRekeyDone, this`inflight, timers
      ensures Valid() && View() == old(View()).Promoted()
    {
      hide Represents;
      MoveUp();
      recvRekeyDone := false;
      inflight := None;
      timers.NoteHandshakeComplete();
    }

    method MoveUp()
      requires Valid()
      modifies this`previous, this`current, this`next
      ensures Valid()
      ensures View() == old(View()).(previous := old(View()).current, current := old(View()).next, next := None)
    {
      hide Represents;
      previous := current;
      current := next;
      next := null;
    }

    method RekeyOnReceive(now: Ticks)
      requires Valid()
      modifies this`recvRekeyDone, timers`rekeyDue
      ensures Valid() && View() == old(View()).Rekeyed(now)
    {
      hide Represents;
      if !recvRekeyDone && current != null && current.keys.isInitiator
          && current.Age(now) >= Model.REKEY_AFTER_TIME_RECV {
        timers.rekeyDue := true;
        recvRekeyDone := true;
      }
    }

    method NoteRx(now: Ticks, isKeepalive: bool)
      requires Valid()
      modifies timers
      ensures Valid()
      ensures View() == old(View()).(timers := old(View()).timers.NoteRx(now, isKeepalive))
    {
      hide Represents;
      timers.NoteRx(now, isKeepalive);
    }

    method Deliver(now: Ticks, slot: Model.Slot, counter: u64, isKeepalive: bool) returns (r: Result<()>)
      requires Valid() && SlotSession(slot) != null
      modifies this, timers, SlotSession(slot).Parts()
      ensures Valid() && owned == old(owned)
      ensures r == if old(Fresh(SlotSession(slot).replay.seen, counter)) then Ok(()) else Err(Internal)
      ensures old(View()).InSlot(slot).Some?
      ensures View() == if r.Ok? then old(View()).Delivered(slot, counter, isKeepalive, now) else old(View())
    {
      hide Represents, Fresh, View;
      InSlotView(slot);
      var confirms := !SlotSession(slot).confirmed;
      r := Admit(slot, counter);
      if r.Err? {
        return;
      }
      if confirms && slot == Model.Next {
        Promote();
      }
      RekeyOnReceive(now);
      NoteRx(now, isKeepalive);
    }

    // ----- The whole ---------------------------------------------------------------------------------------------

    method ClampNow(now: Now) returns (r: Now)
      requires Valid()
      modifies this`lastNow
      ensures Valid()
      ensures r == now.(ticks := if now.ticks < old(lastNow) then old(lastNow) else now.ticks)
      ensures View() == old(View()).(lastNow := r.ticks)
    {
      hide Represents;
      if now.ticks < lastNow {
        return now.(ticks := lastNow);
      }
      lastNow := now.ticks;
      r := now;
    }

    /** `decapsulate`, for every byte string and every buffer: an error leaves every byte of the
        buffer and every field but the clamped clock as it was, and it is never the internal
        error that the code reports from its unreachable branches. */
    method Decapsulate(now0: Now, remote: seq<u8>, underLoad: bool, datagram: seq<u8>, out: array<u8>, rng: Entropy)
      returns (r: Result<Received>)
      requires Valid() && out !in owned
      modifies owned, out
      ensures Valid() && fresh(owned - old(owned))
      ensures var now := if now0.ticks < old(lastNow) then old(lastNow) else now0.ticks;
              var (s, e) := (old(View()).(lastNow := now), Env(config, now, remote, underLoad, rng));
              && Outcome(View(), r, out[..]) == Decapsulated(e, s, datagram, old(out[..]))
              && (r.Err? ==> View() == s && out[..] == old(out[..]) && r.error != Internal)
    {
      hide View, Represents, Decapsulated;
      var now := ClampNow(now0);
      r := Dispatch(Env(config, now.ticks, remote, underLoad, rng), datagram, out);
      RejectionIsAtomic(Env(config, now.ticks, remote, underLoad, rng), old(View()).(lastNow := now.ticks), datagram,
        old(out[..]));
    }

    /** `decapsulate` on the clamped clock. */
    method Dispatch(e: Env, datagram: seq<u8>, out: array<u8>) returns (r: Result<Received>)
      requires Valid() && out !in owned && e.config == config
      modifies owned, out
      ensures Valid() && fresh(owned - old(owned))
      ensures Outcome(View(), r, out[..]) == Decapsulated(e, old(View()), datagram, old(out[..]))
    {
      hide View, Represents, OnInitiation, OnResponse, OnCookie, OnTransport, Message.Parse, Message.WellFormed;
      var parsed := Message.Parse(datagram);
      if parsed.Err? {
        return Err(ErrorOf(parsed));
      }
      Message.ParseIffEncode(datagram, parsed.value);
      match parsed.value {
        case HandshakeInitiation(_, _, _, _, _, _, _, _) => r := ReceiveInitiation(e, parsed.value, out);
        case HandshakeResponse(_, _, _, _, _, _, _, _) => r := ReceiveResponse(e, parsed.value, out);
        case CookieReply(_, _, _) => r := ReceiveCookie(e, parsed.value, out[..]);
        case TransportData(_, _, _) => r := ReceiveTransport(e, parsed.value, out);
      }
    }
  }

  lemma InitiationOutcome(c: Config, s: State, now: Now, index: u32, eph: Key, jitter: u64, before: seq<u8>)
    ensures var stamp := OutgoingStamp(s.lastSentTai, now);
            var spec := Initiation(c.constants, c.localPublic, c.peerPublic, c.ss, index, eph, stamp);
            InitiationOf(c, s, now, index, eph, jitter, before)
            == if |before| < HANDSHAKE_INITIATION_LEN then Outcome(s, Err(BufferTooSmall), before)
               else if spec.Err? then Outcome(s, Err(InvalidPublicKey), before)
               else Outcome(s.Initiated(spec.value.0, stamp, MacOf(c.macKeys.mac1Send, spec.value.1), jitter,
                                        now.ticks),
                            Ok(HANDSHAKE_INITIATION_LEN),
                            Macced(c.macKeys, s.cookie, now.ticks, spec.value.1) + before[HANDSHAKE_INITIATION_LEN..])
  {
    hide OutgoingStamp, Initiation, MacOf, Macced;
  }

  lemma ResponseOutcome(e: Env, s: State, consumed: Consumed, index: u32, eph: Key, before: seq<u8>)
    ensures var spec := Response(consumed, e.config.psk, index, eph);
            ResponseOf(e, s, consumed, index, eph, before)
            == if |before| < HANDSHAKE_RESPONSE_LEN then Outcome(s, Err(BufferTooSmall), before)
               else if spec.Err? then Outcome(s, Err(InvalidPublicKey), before)
               else Outcome(s.Responded(spec.value.0, consumed.timestamp,
                                        MacOf(e.config.macKeys.mac1Send, spec.value.1), e.now),
                            Ok(Reply(HANDSHAKE_RESPONSE_LEN)),
                            Macced(e.config.macKeys, s.cookie, e.now, spec.value.1) + before[HANDSHAKE_RESPONSE_LEN..])
  {
    hide Response, MacOf, Macced;
  }

  ghost predicate Atomic<T>(o: Outcome<T>, s: State, before: seq<u8>) {
    match o.result case Ok(_) => true case Err(x) => o.state == s && o.buffer == before && x != Internal
  }

  lemma CookieIsAtomic(e: Env, s: State, sender: u32, mac1: Mac16, before: seq<u8>)
    ensures Atomic(CookieReplying(e, s, sender, mac1, before), s, before)
  {
    hide Rotated, ReplyOf, NextNonce, Message.Encode;
  }

  lemma HandshakeIsAtomic(e: Env, s: State, p: Message.Packet, before: seq<u8>)
    requires Message.WellFormed(p)
    ensures p.HandshakeInitiation? ==> Atomic(OnInitiation(e, s, p, before), s, before)
    ensures p.HandshakeResponse? ==> Atomic(OnResponse(e, s, p, before), s, before)
  {
    hide CookieReplying, Gated, Prepared, Matched, Response, Macced, MacOf, Message.WellFormed;
    if p.HandshakeInitiation? || p.HandshakeResponse? {
      WellFormedMacs(p);
      CookieIsAtomic(e, s, p.sender, p.mac1, before);
    }
  }

  lemma WellFormedMacs(p: Message.Packet)
    requires Message.WellFormed(p) && (p.HandshakeInitiation? || p.HandshakeResponse?)
    ensures |p.mac1| == 16 && |p.mac2| == 16
  {}

  /** A rejected datagram changes neither the state nor the buffer, and no rejection is an
      internal error. */
  lemma RejectionIsAtomic(e: Env, s: State, datagram: seq<u8>, before: seq<u8>)
    ensures Atomic(Decapsulated(e, s, datagram, before), s, before)
  {
    hide Message.Parse, Message.WellFormed, OnInitiation, OnResponse, Unsealing, Tried;
    Message.ParseIffEncode(datagram, Message.CookieReply(0, [], []));
    if Message.Parse(datagram).Ok? {
      var p := Message.Parse(datagram).value;
      Message.ParseIffEncode(datagram, p);
      HandshakeIsAtomic(e, s, p, before);
    }
  }
}
