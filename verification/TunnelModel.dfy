/** `src/tunnel.rs` and `src/session.rs`: every operation of the tunnel as a step on its
    state.  Time, entropy and the size of the caller's output buffer are arguments. */
module TunnelModel {
  import opened Machine
  import opened Time
  import opened Terms
  import opened Sessions
  import opened Noise
  import opened Cookie
  import opened Rotation
  import opened Timers
  import Replay

  const REKEY_AFTER_MESSAGES: u64 := 0x1000_0000_0000_0000
  const REKEY_AFTER_TIME: u64 := 120_000_000_000
  const SESSION_DISCARD_TIME: u64 := 540_000_000_000
  const REKEY_AFTER_TIME_RECV: u64 := 165_000_000_000
  const INDEX_DRAWS: nat := 32

  // ----- Data ------------------------------------------------------------------

  type Interval = x: u16 | x != 0 witness 1

  datatype Config = Config(localStatic: Name, peerPublic: Term, psk: Term,
                           keepalive: Option<Interval>, mtu: Option<Interval>)

  type Session = SessionOf<Term>

  datatype State = State(
    config: Config,
    ss: Term,
    inflight: Option<InFlight>,
    lastInitMac1: Option<Term>,
    lastRespMac1: Option<Term>,
    cookie: Option<LastCookie>,
    jar: Jar<Term>,
    greatestTimestamp: Option<Tai64N>,
    lastSentTai: Option<Tai64N>,
    previous: Option<Session>,
    current: Option<Session>,
    next: Option<Session>,
    timers: TimerState,
    recvRekeyDone: bool,
    lastNow: Ticks)
  {
    function LocalPublic(): (t: Term) { Pub(config.localStatic) }
    function Keys(): (k: MacKeys) { NewMacKeys(LocalPublic(), config.peerPublic) }
    predicate Usable(now: Ticks) { current.Some? && current.value.UsableForSend(now) }
  }

  /** Everything an operation may draw; `None` is a failed draw. */
  datatype Entropy = Entropy(indices: seq<Option<u32>>, eph: Option<Name>, jitter: Option<u64>, jar: JarEntropy)

  datatype Packet =
    | Initiation(init: InitiationBody, mac1: Term, mac2: Term)
    | Response(resp: ResponseBody, mac1: Term, mac2: Term)
    | Cookies(reply: CookieReply)
    | Transport(receiver: u32, counter: u64, ciphertext: Term)

  datatype Encapsulated = Sealed(wire: Packet) | NeedsHandshake(wire: Packet)

  datatype Received =
    | Data(plain: seq<u8>)
    | Keepalive
    | Reply(wire: Packet)
    | HandshakeComplete
    | CookieStored

  datatype SendReason = FreshInitiation | Retransmit | KeepaliveSend | PersistentSend

  datatype PollOutput = Send(wire: Packet, reason: SendReason) | HandshakeExpired | SessionsExpired | Idle

  // ----- Construction ------------------------------------------------------------

  function NewTunnel(config: Config): (r: Result<State>) {
    if Pub(config.localStatic) == config.peerPublic then Err(InvalidPublicKey) else
    var ss := SharedSecret(config.localStatic, config.peerPublic);
    if ss.Err? then Err(ss.error) else
    Ok(State(config, ss.value, None, None, None, None, EMPTY_JAR, None, None, None, None, None,
             DEFAULT_TIMERS, false, 0))
  }

  // ----- Shared pieces -----------------------------------------------------------

  function ClampTicks(s: State, now: Now): (t: Ticks) {
    if now.ticks < s.lastNow then s.lastNow else now.ticks
  }

  function Clamped(s: State, now: Now): (n: Now) {
    now.(ticks := ClampTicks(s, now))
  }

  function AtClock(s: State, now: Now): (r: State) {
    s.(lastNow := ClampTicks(s, now))
  }

  /** `padded_len`: the next multiple of 16, clamped to the MTU, never truncating. */
  function PaddedLen(len: nat, mtu: Option<Interval>): (n: nat)
    ensures n >= len
  {
    var aligned := (len + 15) / 16 * 16;
    if mtu.Some? && aligned > mtu.value then (if mtu.value > len then mtu.value else len) else aligned
  }

  function Pad(payload: seq<u8>, mtu: Option<Interval>): (r: seq<u8>) {
    payload + seq(PaddedLen(|payload|, mtu) - |payload|, _ => 0)
  }

  function MaxTick(a: Option<Ticks>, b: Option<Ticks>): (r: Option<Ticks>) {
    if a.None? then b else if b.None? then a else if a.value < b.value then b else a
  }

  function MinTick(a: Option<Ticks>, b: Option<Ticks>): (r: Option<Ticks>) {
    if a.None? then b else if b.None? then a else if b.value < a.value then b else a
  }

  function CreatedAt(s: Option<Session>): (r: Option<Ticks>) {
    if s.Some? then Some(s.value.created) else None
  }

  function NewestCreated(s: State): (r: Option<Ticks>) {
    MaxTick(MaxTick(CreatedAt(s.previous), CreatedAt(s.current)), CreatedAt(s.next))
  }

  predicate HasIndex(s: Option<Session>, index: u32) {
    s.Some? && s.value.keys.localIndex == index
  }

  datatype Slot = Previous | Current | Next

  function SlotOf(s: State, index: u32): (r: Option<Slot>) {
    if HasIndex(s.next, index) then Some(Next)
    else if HasIndex(s.current, index) then Some(Current)
    else if HasIndex(s.previous, index) then Some(Previous)
    else None
  }

  predicate Clashes(s: State, index: u32) {
    SlotOf(s, index).Some? || (s.inflight.Some? && s.inflight.value.localIndex == index)
  }

  /** Up to 32 draws; the first that no live session and no in-flight handshake uses. */
  function FreshIndex(s: State, draws: seq<Option<u32>>, from: nat): (r: Result<u32>)
    requires from <= INDEX_DRAWS
    ensures r.Ok? ==> !Clashes(s, r.value)
    ensures r.Err? ==> r.error == EntropyFailure
    decreases INDEX_DRAWS - from
  {
    if from == INDEX_DRAWS || from >= |draws| || draws[from].None? then Err(EntropyFailure)
    else if Clashes(s, draws[from].value) then FreshIndex(s, draws, from + 1)
    else Ok(draws[from].value)
  }

  function Jitter(rng: Entropy, timerDriven: bool): (j: u64) {
    if timerDriven && rng.jitter.Some? then rng.jitter.value % (REKEY_TIMEOUT_JITTER_MAX + 1) else 0
  }

  function OutgoingStamp(s: State, now: Now): (t: Tai64N) {
    if s.lastSentTai.Some? && LexLessEq(Stamp(now), s.lastSentTai.value) then Tick(s.lastSentTai.value)
    else Stamp(now)
  }

  function SendInitiation(s: State, now: Now, outLen: nat, rng: Entropy, timerDriven: bool)
    : (r: (State, Result<Packet>))
  {
    var index := FreshIndex(s, rng.indices, 0);
    if index.Err? then (s, Err(index.error)) else
    if rng.eph.None? then (s, Err(EntropyFailure)) else
    var stamp := OutgoingStamp(s, now);
    var created := CreateInitiation(s.LocalPublic(), s.config.peerPublic, s.ss, index.value, rng.eph.value, stamp,
        outLen);
    if created.Err? then (s, Err(created.error)) else
    var body := created.value.1;
    var macs := ApplyMacs(s.Keys(), s.cookie, now.ticks, InitiationAlpha(body));
    (s.(lastSentTai := Some(stamp), lastInitMac1 := Some(macs.0), inflight := Some(created.value.0),
        timers := s.timers.NoteInitiationTx(now.ticks, Jitter(rng, timerDriven))),
     Ok(Initiation(body, macs.0, macs.1)))
  }

  /** The send-path rekey rule of section 6.2, on the session after its counter moved. */
  predicate RekeyOnSend(s: Session, now: Ticks) {
    s.sendCounter >= REKEY_AFTER_MESSAGES || (s.keys.isInitiator && s.Age(now) >= REKEY_AFTER_TIME)
  }

  /** Seal `plain` on the current session and account for it. */
  function SealOnCurrent(s: State, now: Ticks, plain: seq<u8>, isData: bool): (r: (State, Packet))
    requires s.Usable(now)
  {
    var c := s.current.value;
    var moved := c.(sendCounter := c.sendCounter + 1);
    var noted := if isData then s.timers.NoteDataTx(now) else s.timers.NoteKeepaliveTx(now);
    (s.(current := Some(moved), timers := if RekeyOnSend(moved, now) then noted.(rekeyDue := true) else noted),
     Transport(c.keys.peerIndex, c.sendCounter, Seal(c.keys.send, c.sendCounter, EMPTY, Atom(plain))))
  }

  function SendKeepalive(s: State, now: Ticks, outLen: nat): (r: (State, Result<Packet>))
    requires s.Usable(now)
  {
    if outLen < TRANSPORT_OVERHEAD then (s, Err(BufferTooSmall)) else
    var sealed := SealOnCurrent(s, now, [], false);
    (sealed.0, Ok(sealed.1))
  }

  function DiscardAll(s: State): (r: State) {
    s.(previous := None, current := None, next := None, inflight := None, cookie := None,
       lastInitMac1 := None, lastRespMac1 := None, recvRekeyDone := false,
       timers := DEFAULT_TIMERS.(lastInitiationTx := s.timers.lastInitiationTx))
  }

  // ----- encapsulate ---------------------------------------------------------------

  function Encapsulate(s0: State, now0: Now, payload: seq<u8>, outLen: nat, rng: Entropy)
    : (r: (State, Result<Encapsulated>))
  {
    var s, now := AtClock(s0, now0), Clamped(s0, now0);
    if !s.Usable(now.ticks) then
      var s := s.(timers := s.timers.(gaveUp := false));
      if s.inflight.Some? then (s.(timers := s.timers.(attemptStarted := Some(now.ticks))), Err(NotEstablished)) else
      if !s.timers.InitiationAllowed(now.ticks) then (s, Err(NotEstablished)) else
      var sent := SendInitiation(s.(timers := s.timers.(attemptStarted := None)), now, outLen, rng, false);
      (sent.0, if sent.1.Ok? then Ok(NeedsHandshake(sent.1.value)) else Err(sent.1.error))
    else
      var plain := Pad(payload, s.config.mtu);
      if outLen < |plain| + TRANSPORT_OVERHEAD then (s, Err(BufferTooSmall)) else
      var sealed := SealOnCurrent(s, now.ticks, plain, payload != []);
      (sealed.0, Ok(Sealed(sealed.1)))
  }

  // ----- decapsulate ---------------------------------------------------------------

  function RespondWithCookie(s: State, now: Ticks, remote: seq<u8>, sender: u32, mac1: Term, outLen: nat, rng: Entropy)
    : (r: (State, Result<Received>))
  {
    var built := BuildCookieReply(s.Keys(), s.jar, now, rng.jar, sender, mac1, remote, outLen);
    if built.Err? then (s, Err(built.error))
    else (s.(jar := built.value.0), Ok(Reply(Cookies(built.value.1))))
  }

  function ReceiveInitiation(s: State, now: Ticks, remote: seq<u8>, underLoad: bool, p: Packet, outLen: nat,
      rng: Entropy)
    : (r: (State, Result<Received>))
    requires p.Initiation?
  {
    var alpha := InitiationAlpha(p.init);
    if !VerifyMac1(s.Keys(), alpha, p.mac1) then (s, Err(InvalidMac1)) else
    if underLoad && !VerifyMac2(s.jar, remote, Pair(alpha, p.mac1), p.mac2) then
      RespondWithCookie(s, now, remote, p.init.sender, p.mac1, outLen, rng)
    else
    var consumed := ConsumeInitiation(s.config.localStatic, s.LocalPublic(), s.config.peerPublic, s.ss, p.init);
    if consumed.Err? then (s, Err(consumed.error)) else
    if s.greatestTimestamp.Some? && LexLessEq(consumed.value.timestamp, s.greatestTimestamp.value) then
      (s, Err(ReplayedTimestamp))
    else
    var index := FreshIndex(s, rng.indices, 0);
    if index.Err? then (s, Err(index.error)) else
    if rng.eph.None? then (s, Err(EntropyFailure)) else
    var created := CreateResponse(consumed.value, s.config.psk, index.value, rng.eph.value, outLen);
    if created.Err? then (s, Err(created.error)) else
    var body := created.value.1;
    var macs := ApplyMacs(s.Keys(), s.cookie, now, ResponseAlpha(body));
    (s.(lastRespMac1 := Some(macs.0), greatestTimestamp := Some(consumed.value.timestamp),
        next := Some(NewSession(created.value.0, now))),
     Ok(Reply(Response(body, macs.0, macs.1))))
  }

  function ReceiveResponse(s: State, now: Ticks, remote: seq<u8>, underLoad: bool, p: Packet, outLen: nat, rng: Entropy)
    : (r: (State, Result<Received>))
    requires p.Response?
  {
    var alpha := ResponseAlpha(p.resp);
    if !VerifyMac1(s.Keys(), alpha, p.mac1) then (s, Err(InvalidMac1)) else
    if s.inflight.None? || s.inflight.value.localIndex != p.resp.receiver then (s, Err(NoPendingHandshake)) else
    if underLoad && !VerifyMac2(s.jar, remote, Pair(alpha, p.mac1), p.mac2) then
      RespondWithCookie(s, now, remote, p.resp.sender, p.mac1, outLen, rng)
    else
    var keys := ConsumeResponse(s.inflight.value, s.config.localStatic, s.config.psk, p.resp);
    if keys.Err? then (s, Err(keys.error)) else
    (s.(inflight := None, previous := s.current, current := Some(NewSession(keys.value, now)), recvRekeyDone := false,
        timers := s.timers.NoteHandshakeComplete().(confirmKeepaliveDue := true)),
     Ok(HandshakeComplete))
  }

  function TryCookie(s: State, mac1: Option<Term>, msg: CookieReply, now: Ticks): (r: Option<LastCookie>) {
    if mac1.None? then None else
    var c := ConsumeCookieReply(s.Keys(), mac1.value, msg, now);
    if c.Ok? then Some(c.value) else None
  }

  function ReceiveCookie(s: State, now: Ticks, msg: CookieReply): (r: (State, Result<Received>)) {
    if !Clashes(s, msg.receiver) then (s, Err(UnknownReceiverIndex)) else
    var first := TryCookie(s, s.lastInitMac1, msg, now);
    var found := if first.Some? then first else TryCookie(s, s.lastRespMac1, msg, now);
    if found.Some? then (s.(cookie := found), Ok(CookieStored))
    else if s.lastInitMac1.None? && s.lastRespMac1.None? then (s, Err(NoPendingHandshake))
    else (s, Err(InvalidCookie))
  }

  function InSlot(s: State, slot: Slot): (r: Option<Session>) {
    match slot
    case Previous => s.previous
    case Current => s.current
    case Next => s.next
  }

  function WithSlot(s: State, slot: Slot, x: Session): (r: State) {
    match slot
    case Previous => s.(previous := Some(x))
    case Current => s.(current := Some(x))
    case Next => s.(next := Some(x))
  }

  /** First authenticated message on a responder session: next becomes current. */
  function Promote(s: State): (r: State) {
    s.(previous := s.current, current := s.next, next := None, recvRekeyDone := false, inflight := None,
       timers := s.timers.NoteHandshakeComplete())
  }

  /** The receive-path rekey rule of section 6.2. */
  function RekeyOnReceive(s: State, now: Ticks): (r: State) {
    if !s.recvRekeyDone && s.current.Some? && s.current.value.keys.isInitiator
       && s.current.value.Age(now) >= REKEY_AFTER_TIME_RECV
    then s.(timers := s.timers.(rekeyDue := true), recvRekeyDone := true)
    else s
  }

  /** An authenticated counter enters the window of its slot, which confirms the session. */
  function Admit(s: State, slot: Slot, counter: u64): (r: State)
    requires InSlot(s, slot).Some?
  {
    var x := InSlot(s, slot).value;
    WithSlot(s, slot, x.(seen := Replay.Accepted(x.seen, counter), confirmed := true))
  }

  /** Everything that follows a successful decryption. */
  function Deliver(s: State, now: Ticks, slot: Slot, counter: u64, isKeepalive: bool): (r: State)
    requires InSlot(s, slot).Some?
  {
    var admitted := Admit(s, slot, counter);
    var placed := if !InSlot(s, slot).value.confirmed && slot == Next then Promote(admitted) else admitted;
    var rekeyed := RekeyOnReceive(placed, now);
    rekeyed.(timers := rekeyed.timers.NoteRx(now, isKeepalive))
  }

  function ReceiveTransport(s: State, now: Ticks, p: Packet, outLen: nat): (r: (State, Result<Received>))
    requires p.Transport?
  {
    var slot := SlotOf(s, p.receiver);
    if slot.None? then (s, Err(UnknownReceiverIndex)) else
    if p.counter >= REJECT_AFTER_MESSAGES then (s, Err(Expired)) else
    var x := InSlot(s, slot.value).value;
    if x.Age(now) >= REJECT_AFTER_TIME then (s, Err(Expired)) else
    if !Replay.Fresh(x.seen, p.counter) then (s, Err(Error.Replay)) else
    if outLen < BodyLen(p.ciphertext) then (s, Err(BufferTooSmall)) else
    var got := Open(x.keys.recv, p.counter, EMPTY, p.ciphertext);
    if got.None? || !got.value.Atom? then (s, Err(AuthFailure)) else
    var plain := got.value.bytes;
    (Deliver(s, now, slot.value, p.counter, plain == []), Ok(if plain == [] then Keepalive else Data(plain)))
  }

  /** `datagram` is `None` when the bytes do not parse. */
  function Decapsulate(s0: State, now0: Now, remote: seq<u8>, underLoad: bool, datagram: Option<Packet>, outLen: nat,
                       rng: Entropy): (r: (State, Result<Received>))
  {
    var s, now := AtClock(s0, now0), ClampTicks(s0, now0);
    match datagram
    case None => (s, Err(InvalidPacket))
    case Some(Initiation(_, _, _)) => ReceiveInitiation(s, now, remote, underLoad, datagram.value, outLen, rng)
    case Some(Response(_, _, _)) => ReceiveResponse(s, now, remote, underLoad, datagram.value, outLen, rng)
    case Some(Cookies(reply)) => ReceiveCookie(s, now, reply)
    case Some(Transport(_, _, _)) => ReceiveTransport(s, now, datagram.value, outLen)
  }

  // ----- poll ----------------------------------------------------------------------

  function IntervalNanos(i: Interval): (n: u64) { i * 1_000_000_000 }

  function DropStaleNext(s: State, t: Ticks): (r: State) {
    if s.next.Some? && s.next.value.Age(t) >= REJECT_AFTER_TIME then s.(next := None) else s
  }

  predicate DiscardDue(s: State, t: Ticks) {
    NewestCreated(s).Some? && Since(t, NewestCreated(s).value) >= SESSION_DISCARD_TIME
  }

  predicate RetransmitDue(s: State, t: Ticks) {
    s.inflight.Some? && s.timers.retransmitAt.Some? && t >= s.timers.retransmitAt.value
  }

  function AsSend(sent: (State, Result<Packet>), reason: SendReason): (r: (State, Result<PollOutput>)) {
    (sent.0, if sent.1.Ok? then Ok(Send(sent.1.value, reason)) else Err(sent.1.error))
  }

  function StartAttempt(s: State, now: Now, outLen: nat, rng: Entropy): (r: (State, Result<PollOutput>)) {
    AsSend(SendInitiation(s.(timers := s.timers.(attemptStarted := None)), now, outLen, rng, true), FreshInitiation)
  }

  function PollHandshake(s: State, now: Now, outLen: nat, rng: Entropy): (r: (State, Result<PollOutput>))
    requires RetransmitDue(s, now.ticks)
  {
    if s.timers.AttemptExhausted(now.ticks)
    then (s.(inflight := None, timers := s.timers.NoteGaveUp()), Ok(HandshakeExpired))
    else AsSend(SendInitiation(s, now, outLen, rng, true), Retransmit)
  }

  predicate PersistentDue(s: State, t: Ticks)
    requires s.config.keepalive.Some? && s.current.Some?
  {
    var base := if s.timers.lastAnyTx.Some? then s.timers.lastAnyTx.value else s.current.value.created;
    Since(t, base) >= IntervalNanos(s.config.keepalive.value)
  }

  function PollPersistent(s: State, now: Now, outLen: nat, rng: Entropy): (r: (State, Result<PollOutput>)) {
    var t := now.ticks;
    if s.config.keepalive.None? then (s, Ok(Idle)) else
    if s.Usable(t) then
      if PersistentDue(s, t) then AsSend(SendKeepalive(s, t, outLen), PersistentSend) else (s, Ok(Idle))
    else if s.inflight.None? && s.timers.InitiationAllowed(t)
            && s.timers.PersistentReviveAllowed(t, IntervalNanos(s.config.keepalive.value)) then
      StartAttempt(s.(timers := s.timers.(gaveUp := false)), now, outLen, rng)
    else (s, Ok(Idle))
  }

  function PollPassive(s: State, now: Now, outLen: nat, rng: Entropy): (r: (State, Result<PollOutput>)) {
    if s.timers.PassiveKeepaliveDue(now.ticks) then
      if s.Usable(now.ticks) then AsSend(SendKeepalive(s, now.ticks, outLen), KeepaliveSend)
      else PollPersistent(s.(timers := s.timers.(lastDataRx := None)), now, outLen, rng)
    else PollPersistent(s, now, outLen, rng)
  }

  function PollConfirm(s: State, now: Now, outLen: nat, rng: Entropy): (r: (State, Result<PollOutput>)) {
    if s.timers.confirmKeepaliveDue then
      if s.Usable(now.ticks) then AsSend(SendKeepalive(s, now.ticks, outLen), KeepaliveSend)
      else PollPassive(s.(timers := s.timers.(confirmKeepaliveDue := false)), now, outLen, rng)
    else PollPassive(s, now, outLen, rng)
  }

  function PollDeadPeer(s: State, now: Now, outLen: nat, rng: Entropy): (r: (State, Result<PollOutput>)) {
    if s.inflight.None? && s.timers.DeadPeerDue(now.ticks) && s.timers.InitiationAllowed(now.ticks)
    then StartAttempt(s, now, outLen, rng)
    else PollConfirm(s, now, outLen, rng)
  }

  function PollRekey(s: State, now: Now, outLen: nat, rng: Entropy): (r: (State, Result<PollOutput>)) {
    if s.timers.rekeyDue && s.inflight.Some? then
      PollDeadPeer(s.(timers := s.timers.(rekeyDue := false)), now, outLen, rng)
    else if s.timers.rekeyDue && s.timers.InitiationAllowed(now.ticks) then StartAttempt(s, now, outLen, rng)
    else PollDeadPeer(s, now, outLen, rng)
  }

  function Poll(s0: State, now0: Now, outLen: nat, rng: Entropy): (r: (State, Result<PollOutput>)) {
    var now := Clamped(s0, now0);
    var s := DropStaleNext(AtClock(s0, now0), now.ticks);
    if DiscardDue(s, now.ticks) then (DiscardAll(s), Ok(SessionsExpired))
    else if RetransmitDue(s, now.ticks) then PollHandshake(s, now, outLen, rng)
    else PollRekey(s, now, outLen, rng)
  }

  // ----- next_wake -------------------------------------------------------------------

  function WakeImmediate(s: State): (r: Option<Ticks>) {
    if s.timers.rekeyDue && s.inflight.None? then Some(s.timers.PacingAt())
    else if s.timers.confirmKeepaliveDue then Some(0)
    else None
  }

  function WakeRetransmit(s: State): (r: Option<Ticks>) {
    if s.inflight.Some? then s.timers.retransmitAt else None
  }

  function WakeDeadPeer(s: State): (r: Option<Ticks>) {
    if s.inflight.None? && s.timers.DeadPeerAt().Some?
    then MaxTick(s.timers.DeadPeerAt(), Some(s.timers.PacingAt()))
    else None
  }

  function WakeDiscard(s: State): (r: Option<Ticks>) {
    if NewestCreated(s).Some? then Some(AddNanos(NewestCreated(s).value, SESSION_DISCARD_TIME)) else None
  }

  function WakeNextExpiry(s: State): (r: Option<Ticks>) {
    if s.next.Some? then Some(AddNanos(s.next.value.created, REJECT_AFTER_TIME)) else None
  }

  function WakePersistent(s: State): (r: Option<Ticks>) {
    if s.config.keepalive.None? then None else
    var interval := IntervalNanos(s.config.keepalive.value);
    if s.Usable(s.lastNow) then
      Some(AddNanos(if s.timers.lastAnyTx.Some? then s.timers.lastAnyTx.value else s.current.value.created, interval))
    else if s.inflight.None? then
      Some(if s.timers.gaveUp
           then (if s.timers.lastInitiationTx.Some? then AddNanos(s.timers.lastInitiationTx.value, interval) else 0)
           else s.timers.PacingAt())
    else None
  }

  function NextWake(s: State): (r: Option<Ticks>) {
    MinTick(MinTick(MinTick(MinTick(MinTick(MinTick(
      WakeImmediate(s), WakeRetransmit(s)), WakeDeadPeer(s)), s.timers.PassiveKeepaliveAt()),
      WakeDiscard(s)), WakeNextExpiry(s)), WakePersistent(s))
  }

  // ----- initiate_handshake, reset, set_mtu ------------------------------------------

  function InitiateHandshake(s0: State, now0: Now, outLen: nat, rng: Entropy): (r: (State, Result<Packet>)) {
    var s, now := AtClock(s0, now0), Clamped(s0, now0);
    if !s.timers.InitiationAllowed(now.ticks) then (s, Err(HandshakeRateLimited)) else
    SendInitiation(s.(timers := s.timers.(gaveUp := false, attemptStarted := None)), now, outLen, rng, false)
  }

  // ----- Runs --------------------------------------------------------------------------

  datatype Event =
    | DoEncapsulate(now: Now, payload: seq<u8>, outLen: nat, rng: Entropy)
    | DoDecapsulate(now: Now, remote: seq<u8>, underLoad: bool, datagram: Option<Packet>, outLen: nat, rng: Entropy)
    | DoPoll(now: Now, outLen: nat, rng: Entropy)
    | DoInitiate(now: Now, outLen: nat, rng: Entropy)
    | DoReset
    | DoSetMtu(mtu: Option<Interval>)

  datatype Outcome =
    | Encapsulation(e: Result<Encapsulated>)
    | Decapsulation(d: Result<Received>)
    | Polled(p: Result<PollOutput>)
    | Initiated(i: Result<Packet>)
    | Quiet

  function Step(s: State, e: Event): (r: (State, Outcome)) {
    match e
    case DoEncapsulate(now, payload, outLen, rng) =>
      var r := Encapsulate(s, now, payload, outLen, rng); (r.0, Encapsulation(r.1))
    case DoDecapsulate(now, remote, underLoad, datagram, outLen, rng) =>
      var r := Decapsulate(s, now, remote, underLoad, datagram, outLen, rng); (r.0, Decapsulation(r.1))
    case DoPoll(now, outLen, rng) =>
      var r := Poll(s, now, outLen, rng); (r.0, Polled(r.1))
    case DoInitiate(now, outLen, rng) =>
      var r := InitiateHandshake(s, now, outLen, rng); (r.0, Initiated(r.1))
    case DoReset => (DiscardAll(s), Quiet)
    case DoSetMtu(mtu) => (s.(config := s.config.(mtu := mtu)), Quiet)
  }

  /** Clock readings stay below the point where tick arithmetic saturates. */
  predicate ClockBelowSaturation(e: Event) {
    match e
    case DoReset => true
    case DoSetMtu(_) => true
    case _ => e.now.ticks < U64_MAX
  }

  predicate ClocksBelowSaturation(events: seq<Event>) {
    forall i :: 0 <= i < |events| ==> ClockBelowSaturation(events[i])
  }

  function Run(s: State, events: seq<Event>): (r: State) {
    if events == [] then s else Step(Run(s, events[..|events| - 1]), events[|events| - 1]).0
  }

  /** Some run from a new tunnel ends in `s`. */
  ghost predicate Reachable(s: State) {
    exists config: Config, events: seq<Event> ::
      NewTunnel(config).Ok? && ClocksBelowSaturation(events) && s == Run(NewTunnel(config).value, events)
  }
}
