/** The tunnel on terms and the endpoint on bytes take the same steps: whatever the model sends or
    accepts, the code sends or accepts, in the bytes that the terms stand for, and ends in the state
    that the model's state stands for. */
module Simulation {
  import opened Machine
  import opened Bytes
  import opened Time
  import opened Terms
  import opened Sessions
  import opened Rotation
  import opened Realization
  import Aead
  import Cookie
  import CookieBytes
  import E = Endpoint
  import Message
  import Model = TunnelModel
  import Noise
  import NB = NoiseBytes
  import OverTheWire
  import Replay
  import Timers
  import X25519

  // ----- States -----------------------------------------------------------------------------------------------

  ghost function SessionImage(w: World, x: Option<Model.Session>): (r: Option<E.ByteSession>) {
    if x.None? then None
    else Some(Session(KeysImage(w, x.value.keys), x.value.sendCounter, x.value.seen, x.value.created,
        x.value.confirmed))
  }

  ghost function MacImage(w: World, m: Option<Term>): (r: Option<CookieBytes.Mac16>) {
    if m.None? then None else Some(Fit16(Image(w, m.value)))
  }

  ghost function JarImage(w: World, j: Jar<Term>): (r: Jar<Bytes32>) {
    Jar(Fit(Image(w, j.secret)), Fit(Image(w, j.previous)), j.hasPrevious, j.rotatedAt, j.primed, j.nonce)
  }

  ghost function StateImage(w: World, s: Model.State): (r: E.State) {
    E.State(if s.inflight.None? then None else Some(FlightImage(w, s.inflight.value)), MacImage(w, s.lastInitMac1),
            MacImage(w, s.lastRespMac1), CookieImage(w, s.cookie), JarImage(w, s.jar), s.greatestTimestamp,
                s.lastSentTai,
            SessionImage(w, s.previous), SessionImage(w, s.current), SessionImage(w, s.next), s.timers, s.recvRekeyDone,
            s.lastNow)
  }

  /** The configuration of the endpoint that the state's tunnel stands for. */
  ghost function ConfigImage(w: World, s: Model.State, backend: Aead.Backend): (c: E.Config) {
    var l, p := Fit(Image(w, Pub(s.config.localStatic))), Fit(Image(w, s.config.peerPublic));
    E.Config(w(s.config.localStatic), l, p, Fit(Image(w, s.config.psk)), Fit(Image(w, s.ss)), Constants(w),
             CookieBytes.KeysOf(l, p), backend)
  }

  ghost function DrawImage(w: World, n: Option<Name>): (r: Option<Bytes32>) {
    if n.None? then None else Some(w(n.value))
  }

  ghost function EntropyImage(w: World, rng: Model.Entropy): (r: E.Entropy) {
    E.Entropy(rng.indices, DrawImage(w, rng.eph), rng.jitter, DrawImage(w, rng.jar.secret), rng.jar.seed)
  }

  /** A tunnel for the peer named `p` whose terms have the lengths of what they stand for. */
  predicate Typed(s: Model.State, p: Name) {
    && s.config.peerPublic == Pub(p) && s.ss == DhTerm(s.config.localStatic, p) && Len(s.config.psk) == 32
    && (s.inflight.Some? ==> Len(s.inflight.value.chain) == 32 && Len(s.inflight.value.hash) == 32)
    && (s.cookie.Some? ==> Len(s.cookie.value.value) == 16)
    && Len(s.jar.secret) == 32 && Len(s.jar.previous) == 32
  }

  ghost function WireImage(w: World, p: Model.Packet): (b: seq<u8>)
    requires p.Initiation? || p.Response?
  {
    if p.Initiation? then InitiationImage(w, p.init) + Image(w, p.mac1) + Image(w, p.mac2)
    else ResponseImage(w, p.resp) + Image(w, p.mac1) + Image(w, p.mac2)
  }

  /** A new tunnel stands for a new endpoint. */
  lemma NewRealized(w: World, config: Model.Config, p: Name)
    requires config.peerPublic == Pub(p) && Len(config.psk) == 32 && Model.NewTunnel(config).Ok?
    ensures Typed(Model.NewTunnel(config).value, p)
    ensures StateImage(w, Model.NewTunnel(config).value)
         == E.State(None, None, None, None, Unprimed(Zeros(32)), None, None, None, None, None, Timers.DEFAULT_TIMERS,
             false, 0)
  {
    hide Image;
    AtomBytes(w, Cookie.ZERO_SECRET.bytes);
    assert Cookie.ZERO_SECRET.bytes == Zeros(32);
  }

  lemma {:induction false} IndexImage(w: World, s: Model.State, draws: seq<Option<u32>>, from: nat)
    requires from <= Model.INDEX_DRAWS
    ensures E.FirstFree(StateImage(w, s), draws, from) == Model.FreshIndex(s, draws, from)
    decreases Model.INDEX_DRAWS - from
  {
    hide Image, Fit, Fit16, X25519.ClampScalar;
    if from < Model.INDEX_DRAWS {
      IndexImage(w, s, draws, from + 1);
    }
  }

  // ----- Sending ----------------------------------------------------------------------------------------------

  /** An initiation that the model sends, the endpoint writes, and the states still correspond. */
  lemma SendRealized(w: World, s: Model.State, p: Name, backend: Aead.Backend, now: Now, rng: Model.Entropy,
      timerDriven: bool, out: seq<u8>)
    requires Agreeing(w) && Typed(s, p) && Model.SendInitiation(s, now, |out|, rng, timerDriven).1.Ok?
    ensures var (s', r) := Model.SendInitiation(s, now, |out|, rng, timerDriven);
            && r.value.Initiation? && |out| >= HANDSHAKE_INITIATION_LEN && Typed(s', p)
            && E.Initiating(ConfigImage(w, s, backend), StateImage(w, s), now, EntropyImage(w, rng), timerDriven, out)
               == E.Outcome(StateImage(w, s'), Ok(HANDSHAKE_INITIATION_LEN),
                            WireImage(w, r.value) + out[HANDSHAKE_INITIATION_LEN..])
  {
    hide Image, Fit, E.FirstFree, Model.FreshIndex, E.InitiationOf, NB.Initiation, Noise.CreateInitiation,
      CookieBytes.Macced, CookieBytes.MacOf, CookieBytes.KeysOf, DhTerm, LexLessEq, Tick, Stamp,
      Cookie.InitiationAlpha, InitiationImage, X25519.ClampScalar, Constants;
    IndexImage(w, s, rng.indices, 0);
    var c, l := ConfigImage(w, s, backend), s.config.localStatic;
    var index, eph := Model.FreshIndex(s, rng.indices, 0).value, rng.eph.value;
    var stamp := Model.OutgoingStamp(s, now);
    InitiationRealized(w, l, p, index, eph, stamp);
    RoomForInitiation(Pub(l), Pub(p), s.ss, index, eph, stamp, |out|);
    var made := Noise.CreateInitiation(Pub(l), Pub(p), s.ss, index, eph, stamp, HANDSHAKE_INITIATION_LEN).value;
    E.InitiationOutcome(c, StateImage(w, s), now, index, w(eph), Model.Jitter(rng, timerDriven), out);
    AlphaBytes(w, made.1, Noise.ResponseBody(0, 0, EMPTY, EMPTY));
    FlightLengths(Pub(l), Pub(p), s.ss, index, eph, stamp);
    MacsRealized(w, l, p, s.cookie, now.ticks, Cookie.InitiationAlpha(made.1), InitiationImage(w, made.1));
    FirstMac(w, l, p, Cookie.InitiationAlpha(made.1), InitiationImage(w, made.1));
  }

  /** With room for the message the size of the buffer does not matter. */
  lemma RoomForInitiation(l: Term, p: Term, ss: Term, index: u32, eph: Name, stamp: Tai64N, outLen: nat)
    requires Noise.CreateInitiation(l, p, ss, index, eph, stamp, outLen).Ok?
    ensures outLen >= HANDSHAKE_INITIATION_LEN
    ensures Noise.CreateInitiation(l, p, ss, index, eph, stamp, outLen)
         == Noise.CreateInitiation(l, p, ss, index, eph, stamp, HANDSHAKE_INITIATION_LEN)
  {}

  lemma FlightLengths(l: Term, p: Term, ss: Term, index: u32, eph: Name, stamp: Tai64N)
    requires Noise.CreateInitiation(l, p, ss, index, eph, stamp, HANDSHAKE_INITIATION_LEN).Ok?
    ensures var f := Noise.CreateInitiation(l, p, ss, index, eph, stamp, HANDSHAKE_INITIATION_LEN).value.0;
            Len(f.chain) == 32 && Len(f.hash) == 32
  {}

  lemma FirstMac(w: World, l: Name, p: Name, alpha: Term, body: seq<u8>)
    requires Image(w, alpha) == body
    ensures var keys := CookieBytes.KeysOf(Fit(Image(w, Pub(l))), Fit(Image(w, Pub(p))));
            Fit16(Image(w, Mac(Cookie.NewMacKeys(Pub(l), Pub(p)).mac1Send, alpha)))
                == CookieBytes.MacOf(keys.mac1Send, body)
  {
    hide Image, CookieBytes.MacOf, CookieBytes.KeysOf, Cookie.NewMacKeys, Fit;
    MacKeysRealized(w, l, p);
    MacBytes(w, Cookie.NewMacKeys(Pub(l), Pub(p)).mac1Send, alpha);
  }

  // ----- Receiving --------------------------------------------------------------------------------------------

  ghost function EnvImage(w: World, s: Model.State, backend: Aead.Backend, now: Ticks, remote: seq<u8>, underLoad: bool,
      rng: Model.Entropy): (e: E.Env)
  {
    E.Env(ConfigImage(w, s, backend), now, remote, underLoad, EntropyImage(w, rng))
  }

  /** The MACs of a message that the model lets pass, pass in bytes. */
  lemma GateRealized(w: World, l: Name, p: Name, jar: Jar<Term>, remote: seq<u8>, underLoad: bool, alpha: Term,
      mac1: Term, mac2: Term, body: seq<u8>)
    requires Image(w, alpha) == body && Cookie.VerifyMac1(Cookie.NewMacKeys(Pub(l), Pub(p)), alpha, mac1)
    requires underLoad ==> Cookie.VerifyMac2(jar, remote, Pair(alpha, mac1), mac2)
    requires Len(mac2) == 16 && Len(jar.secret) == 32 && Len(jar.previous) == 32
    ensures |Image(w, mac1)| == 16 && |Image(w, mac2)| == 16
    ensures var keys := CookieBytes.KeysOf(Fit(Image(w, Pub(l))), Fit(Image(w, Pub(p))));
            && Image(w, mac1) == CookieBytes.MacOf(keys.mac1Recv, body)
            && (underLoad ==>
               CookieBytes.Proves(JarImage(w, jar), remote, body + Image(w, mac1), Fit16(Image(w, mac2))))
  {
    hide Image, CookieBytes.MacOf, CookieBytes.KeysOf, Cookie.NewMacKeys, Fit, CookieBytes.Proves, Cookie.VerifyMac2,
      JarImage;
    MacKeysRealized(w, l, p);
    MacBytes(w, Cookie.NewMacKeys(Pub(l), Pub(p)).mac1Recv, alpha);
    ImageLength(w, mac2);
    if underLoad {
      PairBytes(w, alpha, mac1);
      AddressRealized(w, jar, remote, Pair(alpha, mac1), mac2);
    }
  }

  lemma AddressRealized(w: World, j: Jar<Term>, remote: seq<u8>, beta: Term, mac2: Term)
    requires Len(j.secret) == 32 && Len(j.previous) == 32 && Cookie.VerifyMac2(j, remote, beta, mac2)
    ensures CookieBytes.Proves(JarImage(w, j), remote, Image(w, beta), Fit16(Image(w, mac2)))
  {
    hide Image, CookieBytes.MacOf, Fit;
    Fits(w, j.secret);
    Fits(w, j.previous);
    ProofBytes(w, j.secret, remote, beta);
    ProofBytes(w, j.previous, remote, beta);
  }

  lemma ProofBytes(w: World, secret: Term, remote: seq<u8>, beta: Term)
    ensures Image(w, Mac(Cookie.CookieFor(secret, remote), beta))
         == CookieBytes.MacOf(CookieBytes.MacOf(Image(w, secret), remote), Image(w, beta))
  {
    hide Image, CookieBytes.MacOf;
    MacBytes(w, Cookie.CookieFor(secret, remote), beta);
    MacBytes(w, secret, Atom(remote));
    AtomBytes(w, remote);
  }

  /** An initiation with MACs on the wire parses to what its fields stand for. */
  lemma InitiationPacket(w: World, b: Noise.InitiationBody, mac1: Term, mac2: Term)
    requires Len(b.ephemeral) == 32 && Len(b.encStatic) == 48 && Len(b.encTimestamp) == 28
    requires Len(mac1) == 16 && Len(mac2) == 16
    ensures var wire := InitiationImage(w, b) + Image(w, mac1) + Image(w, mac2);
            && Message.Parse(wire).Ok?
            && var q := Message.Parse(wire).value;
               && q.HandshakeInitiation? && Message.WellFormed(q) && q.sender == b.sender
               && q.ephemeral == Image(w, b.ephemeral) && q.encryptedStatic == Image(w, b.encStatic)
               && q.encryptedTimestamp == Image(w, b.encTimestamp) && q.mac1 == Image(w, mac1)
               && q.mac2 == Image(w, mac2)
               && q.alpha == InitiationImage(w, b) && q.beta == InitiationImage(w, b) + Image(w, mac1)
  {
    hide Image, Message.Parse, Message.WellFormed, Message.InitiationBody;
    ImageLength(w, b.ephemeral);
    ImageLength(w, b.encStatic);
    ImageLength(w, b.encTimestamp);
    ImageLength(w, mac1);
    ImageLength(w, mac2);
    Message.InitiationRoundTrip(b.sender, Image(w, b.ephemeral), Image(w, b.encStatic), Image(w, b.encTimestamp),
      Image(w, mac1), Image(w, mac2));
    var wire := InitiationImage(w, b) + Image(w, mac1) + Image(w, mac2);
    Message.ParseIffEncode(wire, Message.Parse(wire).value);
  }

  lemma ResponsePacket(w: World, b: Noise.ResponseBody, mac1: Term, mac2: Term)
    requires Len(b.ephemeral) == 32 && Len(b.encNothing) == 16 && Len(mac1) == 16 && Len(mac2) == 16
    ensures var wire := ResponseImage(w, b) + Image(w, mac1) + Image(w, mac2);
            && Message.Parse(wire).Ok?
            && var q := Message.Parse(wire).value;
               && q.HandshakeResponse? && Message.WellFormed(q) && q.sender == b.sender && q.receiver == b.receiver
               && q.ephemeral == Image(w, b.ephemeral) && q.encryptedNothing == Image(w, b.encNothing)
               && q.mac1 == Image(w, mac1) && q.mac2 == Image(w, mac2)
               && q.alpha == ResponseImage(w, b) && q.beta == ResponseImage(w, b) + Image(w, mac1)
  {
    hide Image, Message.Parse, Message.WellFormed, Message.ResponseBody;
    ImageLength(w, b.ephemeral);
    ImageLength(w, b.encNothing);
    ImageLength(w, mac1);
    ImageLength(w, mac2);
    Message.ResponseRoundTrip(b.sender, b.receiver, Image(w, b.ephemeral), Image(w, b.encNothing), Image(w, mac1),
      Image(w, mac2));
    var wire := ResponseImage(w, b) + Image(w, mac1) + Image(w, mac2);
    Message.ParseIffEncode(wire, Message.Parse(wire).value);
  }

  /** What acceptance says about the shape of an initiation. */
  lemma AcceptedShape(l: Name, p: Name, ss: Term, msg: Noise.InitiationBody, e: Name)
    requires msg.ephemeral == Pub(e) && Noise.ConsumeInitiation(l, Pub(l), Pub(p), ss, msg).Ok?
    ensures Len(msg.encStatic) == 48 && Len(msg.encTimestamp) == 28
    ensures var c := Noise.ConsumeInitiation(l, Pub(l), Pub(p), ss, msg).value;
            c.staticPublic == Pub(p) && c.ephemeral == Pub(e) && Len(c.chain) == 32 && Len(c.hash) == 32
  {
    hide DhTerm;
    assert Len(msg.encStatic.plain) == 32 && Len(msg.encTimestamp.plain) == 12;
  }

  /** The response to an initiation, once it is accepted. */
  lemma AnswerRealized(w: World, s: Model.State, p: Name, e: E.Env, c: Noise.Consumed, x: Name, index: u32, eph: Name,
      out: seq<u8>)
    requires Agreeing(w) && Typed(s, p) && e.config == ConfigImage(w, s, e.config.backend)
      && |out| >= HANDSHAKE_RESPONSE_LEN
    requires c.ephemeral == Pub(x) && c.staticPublic == Pub(p) && Len(c.chain) == 32 && Len(c.hash) == 32
    ensures var made := Noise.CreateResponse(c, s.config.psk, index, eph, HANDSHAKE_RESPONSE_LEN);
            && made.Ok?
            && var macs := Cookie.ApplyMacs(s.Keys(), s.cookie, e.now, Cookie.ResponseAlpha(made.value.1));
               E.ResponseOf(e, StateImage(w, s), ConsumedImage(w, c), index, w(eph), out)
               == E.Outcome(StateImage(w, s.(lastRespMac1 := Some(macs.0), greatestTimestamp := Some(c.timestamp),
                                             next := Some(NewSession(made.value.0, e.now)))),
                            Ok(E.Reply(HANDSHAKE_RESPONSE_LEN)),
                            WireImage(w, Model.Response(made.value.1, macs.0, macs.1)) + out[HANDSHAKE_RESPONSE_LEN..])
  {
    hide Image, Fit, E.ResponseOf, NB.Response, Noise.CreateResponse, CookieBytes.Macced, CookieBytes.MacOf,
      CookieBytes.KeysOf, DhTerm, Cookie.ResponseAlpha, ResponseImage, X25519.ClampScalar, Constants;
    ResponseRealized(w, c, x, p, s.config.psk, index, eph);
    var made := Noise.CreateResponse(c, s.config.psk, index, eph, HANDSHAKE_RESPONSE_LEN).value;
    var l := s.config.localStatic;
    E.ResponseOutcome(e, StateImage(w, s), ConsumedImage(w, c), index, w(eph), out);
    AlphaBytes(w, Noise.InitiationBody(0, EMPTY, EMPTY, EMPTY), made.1);
    MacsRealized(w, l, p, s.cookie, e.now, Cookie.ResponseAlpha(made.1), ResponseImage(w, made.1));
    FirstMac(w, l, p, Cookie.ResponseAlpha(made.1), ResponseImage(w, made.1));
  }

  /** What an answer says about an initiation. */
  lemma AnsweredShape(s: Model.State, now: Ticks, remote: seq<u8>, underLoad: bool, pkt: Model.Packet, outLen: nat,
      rng: Model.Entropy)
    returns (c: Noise.Consumed, index: u32, eph: Name)
    requires pkt.Initiation? && Model.ReceiveInitiation(s, now, remote, underLoad, pkt, outLen, rng).1.Ok?
    requires underLoad ==>
               Cookie.VerifyMac2(s.jar, remote, Pair(Cookie.InitiationAlpha(pkt.init), pkt.mac1), pkt.mac2)
    ensures Cookie.VerifyMac1(s.Keys(), Cookie.InitiationAlpha(pkt.init), pkt.mac1)
    ensures Noise.ConsumeInitiation(s.config.localStatic, s.LocalPublic(), s.config.peerPublic, s.ss, pkt.init) == Ok(c)
    ensures s.greatestTimestamp.Some? ==> !LexLessEq(c.timestamp, s.greatestTimestamp.value)
    ensures Model.FreshIndex(s, rng.indices, 0) == Ok(index) && rng.eph == Some(eph)
    ensures outLen >= HANDSHAKE_RESPONSE_LEN
    ensures var made := Noise.CreateResponse(c, s.config.psk, index, eph, HANDSHAKE_RESPONSE_LEN);
            && made.Ok?
            && var macs := Cookie.ApplyMacs(s.Keys(), s.cookie, now, Cookie.ResponseAlpha(made.value.1));
               Model.ReceiveInitiation(s, now, remote, underLoad, pkt, outLen, rng)
               == (s.(lastRespMac1 := Some(macs.0), greatestTimestamp := Some(c.timestamp),
                      next := Some(NewSession(made.value.0, now))),
                   Ok(Model.Reply(Model.Response(made.value.1, macs.0, macs.1))))
  {
    hide Noise.ConsumeInitiation, Noise.CreateResponse, Cookie.ApplyMacs, LexLessEq, Model.FreshIndex,
      Cookie.ResponseAlpha, Cookie.InitiationAlpha, Cookie.VerifyMac2, Cookie.NewMacKeys, Model.RespondWithCookie;
    c := Noise.ConsumeInitiation(s.config.localStatic, s.LocalPublic(), s.config.peerPublic, s.ss, pkt.init).value;
    index, eph := Model.FreshIndex(s, rng.indices, 0).value, rng.eph.value;
    RoomForResponse(c, s.config.psk, index, eph, outLen);
  }

  /** An initiation that the model answers, the endpoint answers: the same response goes into the
      buffer and the states still correspond. */
  lemma InitiationAnswered(w: World, s: Model.State, p: Name, backend: Aead.Backend, now: Ticks, remote: seq<u8>,
      underLoad: bool, pkt: Model.Packet, x: Name, rng: Model.Entropy, out: seq<u8>)
    requires Agreeing(w) && Typed(s, p) && pkt.Initiation? && pkt.init.ephemeral == Pub(x) && Len(pkt.mac2) == 16
    requires Model.ReceiveInitiation(s, now, remote, underLoad, pkt, |out|, rng).1.Ok?
    requires underLoad ==>
               Cookie.VerifyMac2(s.jar, remote, Pair(Cookie.InitiationAlpha(pkt.init), pkt.mac1), pkt.mac2)
    ensures |out| >= HANDSHAKE_RESPONSE_LEN
      && Typed(Model.ReceiveInitiation(s, now, remote, underLoad, pkt, |out|, rng).0, p)
    ensures var o := E.Decapsulated(EnvImage(w, s, backend, now, remote, underLoad, rng), StateImage(w, s),
                                    WireImage(w, pkt), out);
            && o.state == StateImage(w, Model.ReceiveInitiation(s, now, remote, underLoad, pkt, |out|, rng).0)
            && o.result == Ok(E.Reply(HANDSHAKE_RESPONSE_LEN))
            && match Model.ReceiveInitiation(s, now, remote, underLoad, pkt, |out|, rng).1
               case Ok(Reply(Response(b, m1, m2))) =>
                 o.buffer == WireImage(w, Model.Response(b, m1, m2)) + out[HANDSHAKE_RESPONSE_LEN..]
               case _ => false
  {
    hide Image, Fit, E.ResponseOf, E.Decapsulated, Noise.ConsumeInitiation, Noise.CreateResponse, Cookie.VerifyMac2,
      DhTerm, Cookie.InitiationAlpha, Cookie.ResponseAlpha, InitiationImage, ResponseImage, Constants, StateImage,
      ConsumedImage, Model.ReceiveInitiation, Model.FreshIndex, LexLessEq, Cookie.ApplyMacs, CookieBytes.KeysOf;
    var l := s.config.localStatic;
    var e := EnvImage(w, s, backend, now, remote, underLoad, rng);
    var c, index, eph := AnsweredShape(s, now, remote, underLoad, pkt, |out|, rng);
    AcceptedShape(l, p, s.ss, pkt.init, x);
    InitiationVetted(w, s, p, e, pkt, x, c, index, out);
    AnswerRealized(w, s, p, e, c, x, index, eph, out);
  }

  /** An initiation that the model accepts passes the MACs and decrypts in bytes, and gets the same index. */
  lemma InitiationVetted(w: World, s: Model.State, p: Name, e: E.Env, pkt: Model.Packet, x: Name, c: Noise.Consumed,
      index: u32, out: seq<u8>)
    requires Agreeing(w) && Typed(s, p) && pkt.Initiation? && pkt.init.ephemeral == Pub(x) && Len(pkt.mac2) == 16
    requires e.config == ConfigImage(w, s, e.config.backend)
    requires Cookie.VerifyMac1(s.Keys(), Cookie.InitiationAlpha(pkt.init), pkt.mac1)
    requires e.underLoad ==>
               Cookie.VerifyMac2(s.jar, e.remote, Pair(Cookie.InitiationAlpha(pkt.init), pkt.mac1), pkt.mac2)
    requires Noise.ConsumeInitiation(s.config.localStatic, s.LocalPublic(), s.config.peerPublic, s.ss, pkt.init)
      == Ok(c)
    requires s.greatestTimestamp.Some? ==> !LexLessEq(c.timestamp, s.greatestTimestamp.value)
    requires Model.FreshIndex(s, e.rng.indices, 0) == Ok(index) && e.rng.eph.Some?
    ensures E.Decapsulated(e, StateImage(w, s), WireImage(w, pkt), out)
         == E.ResponseOf(e, StateImage(w, s), ConsumedImage(w, c), index, e.rng.eph.value, out)
  {
    hide Image, Fit, E.FirstFree, Model.FreshIndex, E.ResponseOf, E.Decapsulated, NB.ConsumedInitiation,
      Noise.ConsumeInitiation, CookieBytes.MacOf, CookieBytes.KeysOf, CookieBytes.Proves, Cookie.VerifyMac2, DhTerm,
      LexLessEq, Cookie.InitiationAlpha, InitiationImage, Constants, JarImage, Message.Parse, Message.WellFormed,
      Cookie.NewMacKeys, ConsumedImage, StateImage;
    var l := s.config.localStatic;
    AcceptedShape(l, p, s.ss, pkt.init, x);
    AlphaBytes(w, pkt.init, Noise.ResponseBody(0, 0, EMPTY, EMPTY));
    InitiationPacket(w, pkt.init, pkt.mac1, pkt.mac2);
    GateRealized(w, l, p, s.jar, e.remote, e.underLoad, Cookie.InitiationAlpha(pkt.init), pkt.mac1, pkt.mac2,
      InitiationImage(w, pkt.init));
    ConsumedRealized(w, l, p, x, pkt.init, Message.Parse(WireImage(w, pkt)).value);
    IndexImage(w, s, e.rng.indices, 0);
    StateFields(w, s);
    StampImage(w, c);
    OverTheWire.Responds(e, StateImage(w, s), WireImage(w, pkt), ConsumedImage(w, c), out);
  }

  lemma StateFields(w: World, s: Model.State)
    ensures StateImage(w, s).greatestTimestamp == s.greatestTimestamp && StateImage(w, s).jar == JarImage(w, s.jar)
  {
    hide JarImage, SessionImage, CookieImage, MacImage, FlightImage;
  }

  lemma StampImage(w: World, c: Noise.Consumed)
    ensures ConsumedImage(w, c).timestamp == c.timestamp
  {
    hide Image, Fit;
  }

  lemma RoomForResponse(c: Noise.Consumed, psk: Term, index: u32, eph: Name, outLen: nat)
    requires Noise.CreateResponse(c, psk, index, eph, outLen).Ok?
    ensures outLen >= HANDSHAKE_RESPONSE_LEN
    ensures Noise.CreateResponse(c, psk, index, eph, outLen)
         == Noise.CreateResponse(c, psk, index, eph, HANDSHAKE_RESPONSE_LEN)
  {}

  /** A reply to the last initiation that the model reads, the endpoint reads: it stores the bytes
      of the same cookie. */
  lemma CookieTaken(w: World, s: Model.State, p: Name, backend: Aead.Backend, now: Ticks, remote: seq<u8>,
      underLoad: bool,
      msg: Cookie.CookieReply, rng: Model.Entropy, out: seq<u8>)
    requires Typed(s, p) && |msg.nonce| == 3 && Len(msg.encrypted) == 32 && Model.Clashes(s, msg.receiver)
    requires s.lastInitMac1.Some? && Len(s.lastInitMac1.value) == 16
    requires Model.TryCookie(s, s.lastInitMac1, msg, now).Some?
    ensures var s' := Model.ReceiveCookie(s, now, msg).0;
            var wire := Message.Encode(Message.CookieReply(msg.receiver, CookieBytes.NonceBytes(msg.nonce),
                                                           Image(w, msg.encrypted)));
            && Model.ReceiveCookie(s, now, msg).1 == Ok(Model.CookieStored) && Typed(s', p)
            && E.Decapsulated(EnvImage(w, s, backend, now, remote, underLoad, rng), StateImage(w, s), wire, out)
               == E.Outcome(StateImage(w, s'), Ok(E.CookieStored), out)
  {
    hide Image, DhTerm, Message.Parse, Message.Encode, CookieBytes.NonceBytes, CookieBytes.KeysOf, Cookie.NewMacKeys,
      Aead.XSealed, Aead.XOpened, X25519.ClampScalar, Constants, JarImage, SessionImage;
    var mac1, plain := s.lastInitMac1.value, msg.encrypted.plain;
    MacKeysRealized(w, s.config.localStatic, p);
    ImageLength(w, mac1);
    ImageLength(w, plain);
    ImageLength(w, msg.encrypted);
    ReplyBytes(w, s.Keys().cookieRecv, msg.nonce, mac1, plain);
    SlotImage(w, s, msg.receiver);
    var q := Message.CookieReply(msg.receiver, CookieBytes.NonceBytes(msg.nonce), Image(w, msg.encrypted));
    Message.ParseIffEncode(Message.Encode(q), q);
  }

  lemma ReplyBytes(w: World, key: Term, nonce: NonceWords, aad: Term, plain: Term)
    ensures Aead.XOpened(Fit(Image(w, key)), CookieBytes.NonceBytes(nonce), Image(w, aad),
                         Image(w, XSeal(key, nonce, aad, plain))) == Some(Image(w, plain))
  {
    hide Image, Fit, Aead.XSealed, Aead.XOpened, CookieBytes.NonceBytes;
    XSealedBytes(w, key, nonce, aad, plain);
    var sealed := Image(w, XSeal(key, nonce, aad, plain));
    Aead.XOpensIffSealed(Fit(Image(w, key)), CookieBytes.NonceBytes(nonce), Image(w, aad), sealed, Image(w, plain));
  }

  lemma CompletedShape(f: Noise.InFlight, l: Name, psk: Term, msg: Noise.ResponseBody)
    requires Noise.ConsumeResponse(f, l, psk, msg).Ok?
    ensures Len(msg.encNothing) == 16
  {
    assert msg.encNothing.Seal? && msg.encNothing.plain == EMPTY && Len(EMPTY) == 0;
  }

  /** A response that completes the model's handshake, completes the endpoint's. */
  lemma ResponseCompleted(w: World, s: Model.State, p: Name, backend: Aead.Backend, now: Ticks, remote: seq<u8>,
      underLoad: bool, pkt: Model.Packet, x: Name, rng: Model.Entropy, out: seq<u8>)
    requires Agreeing(w) && Typed(s, p) && pkt.Response? && pkt.resp.ephemeral == Pub(x) && Len(pkt.mac2) == 16
    requires Model.ReceiveResponse(s, now, remote, underLoad, pkt, |out|, rng).1.Ok?
    requires underLoad ==> Cookie.VerifyMac2(s.jar, remote, Pair(Cookie.ResponseAlpha(pkt.resp), pkt.mac1), pkt.mac2)
    ensures var (s', r) := Model.ReceiveResponse(s, now, remote, underLoad, pkt, |out|, rng);
            && r == Ok(Model.HandshakeComplete) && Typed(s', p)
            && E.Decapsulated(EnvImage(w, s, backend, now, remote, underLoad, rng), StateImage(w, s),
               WireImage(w, pkt), out)
               == E.Outcome(StateImage(w, s'), Ok(E.HandshakeComplete), out)
  {
    hide Image, Fit, E.Decapsulated, NB.ConsumedResponse, Noise.ConsumeResponse, CookieBytes.MacOf,
      CookieBytes.KeysOf, CookieBytes.Proves, Cookie.VerifyMac2, DhTerm, Cookie.ResponseAlpha, ResponseImage,
      X25519.ClampScalar, Constants, JarImage, Message.Parse, Message.WellFormed;
    var l := s.config.localStatic;
    var e := EnvImage(w, s, backend, now, remote, underLoad, rng);
    var f := s.inflight.value;
    var keys := Noise.ConsumeResponse(f, l, s.config.psk, pkt.resp).value;
    CompletedShape(f, l, s.config.psk, pkt.resp);
    AlphaBytes(w, Noise.InitiationBody(0, EMPTY, EMPTY, EMPTY), pkt.resp);
    ResponsePacket(w, pkt.resp, pkt.mac1, pkt.mac2);
    GateRealized(w, l, p, s.jar, remote, underLoad, Cookie.ResponseAlpha(pkt.resp), pkt.mac1, pkt.mac2,
        ResponseImage(w, pkt.resp));
    FinalKeysRealized(w, f, l, s.config.psk, x, pkt.resp, Message.Parse(WireImage(w, pkt)).value);
    OverTheWire.Completes(e, StateImage(w, s), WireImage(w, pkt), KeysImage(w, keys), out);
  }

  /** What delivery says about a transport message. */
  lemma DeliveredShape(s: Model.State, now: Ticks, pkt: Model.Packet, room: nat)
    returns (slot: Model.Slot, plain: seq<u8>)
    requires pkt.Transport? && Model.ReceiveTransport(s, now, pkt, room).1.Ok?
    ensures Model.SlotOf(s, pkt.receiver) == Some(slot) && Model.InSlot(s, slot).Some? && |plain| <= room
    ensures var x := Model.InSlot(s, slot).value;
            && pkt.counter < REJECT_AFTER_MESSAGES && x.Age(now) < REJECT_AFTER_TIME
            && Replay.Fresh(x.seen, pkt.counter)
            && pkt.ciphertext == Seal(x.keys.recv, pkt.counter, EMPTY, Atom(plain))
    ensures Model.ReceiveTransport(s, now, pkt, room)
         == (Model.Deliver(s, now, slot, pkt.counter, plain == []),
             Ok(if plain == [] then Model.Keepalive else Model.Data(plain)))
  {
    hide Replay.Fresh, Model.Deliver, BodyLen;
    slot := Model.SlotOf(s, pkt.receiver).value;
    plain := Open(Model.InSlot(s, slot).value.keys.recv, pkt.counter, EMPTY, pkt.ciphertext).value.bytes;
    BodyOf(pkt.ciphertext, plain);
  }

  /** A transport message that the model delivers, the endpoint delivers, with the same plaintext. */
  lemma TransportDelivered(w: World, s: Model.State, backend: Aead.Backend, now: Ticks, remote: seq<u8>,
      underLoad: bool,
      pkt: Model.Packet, rng: Model.Entropy, out: seq<u8>)
    requires pkt.Transport? && Model.ReceiveTransport(s, now, pkt, |out|).1.Ok?
    ensures var wire := Message.Encode(Message.TransportData(pkt.receiver, pkt.counter, Image(w, pkt.ciphertext)));
            var o := E.Decapsulated(EnvImage(w, s, backend, now, remote, underLoad, rng), StateImage(w, s), wire, out);
            match Model.ReceiveTransport(s, now, pkt, |out|).1
            case Ok(Keepalive) => o.result == Ok(E.Keepalive) && o.buffer == out
            case Ok(Data(plain)) => |plain| <= |out| && o.result == Ok(E.Data(|plain|))
                && o.buffer == plain + out[|plain|..]
            case _ => false
    ensures var wire := Message.Encode(Message.TransportData(pkt.receiver, pkt.counter, Image(w, pkt.ciphertext)));
            E.Decapsulated(EnvImage(w, s, backend, now, remote, underLoad, rng), StateImage(w, s), wire, out).state
            == StateImage(w, Model.ReceiveTransport(s, now, pkt, |out|).0)
    ensures forall p: Name :: Typed(s, p) ==> Typed(Model.ReceiveTransport(s, now, pkt, |out|).0, p)
  {
    hide Image, Fit, E.Decapsulated, Replay.Fresh, Message.Encode, Aead.Sealed, Aead.Opened, Aead.NonceFromCounter,
      Model.Deliver, Model.ReceiveTransport, Model.SlotOf, StateImage, ConfigImage, EntropyImage;
    var slot, plain := DeliveredShape(s, now, pkt, |out|);
    var x := Model.InSlot(s, slot).value;
    var q := Message.TransportData(pkt.receiver, pkt.counter, Image(w, pkt.ciphertext));
    CiphertextBytes(w, x.keys.recv, pkt.counter, plain);
    SlotImage(w, s, pkt.receiver);
    OpensAt(EnvImage(w, s, backend, now, remote, underLoad, rng), StateImage(w, s), slot, q, plain, out);
    DeliverImage(w, s, now, slot, pkt.counter, plain == []);
    DeliverTyped(s, now, slot, pkt.counter, plain == []);
    assert [] + out[0..] == out;
  }

  lemma DeliverTyped(s: Model.State, now: Ticks, slot: Model.Slot, counter: u64, isKeepalive: bool)
    requires Model.InSlot(s, slot).Some?
    ensures forall p: Name :: Typed(s, p) ==> Typed(Model.Deliver(s, now, slot, counter, isKeepalive), p)
  {
    hide Replay.Accepted, DhTerm, Len;
  }

  lemma SlotImage(w: World, s: Model.State, index: u32)
    ensures StateImage(w, s).SlotOf(index) == Model.SlotOf(s, index)
    ensures forall slot: Model.Slot :: StateImage(w, s).InSlot(slot) == SessionImage(w, Model.InSlot(s, slot))
  {
    hide Image, Fit, Fit16, FlightImage, CookieImage, MacImage, JarImage;
  }

  lemma BodyOf(ciphertext: Term, plain: seq<u8>)
    requires ciphertext.Seal? && ciphertext.plain == Atom(plain)
    ensures BodyLen(ciphertext) == |plain|
  {
    assert Len(Atom(plain)) == |plain|;
  }

  lemma CiphertextBytes(w: World, key: Term, counter: u64, plain: seq<u8>)
    ensures Image(w, Seal(key, counter, EMPTY, Atom(plain)))
         == Aead.Sealed(Fit(Image(w, key)), Aead.NonceFromCounter(counter), [], plain)
    ensures Aead.Opened(Fit(Image(w, key)), Aead.NonceFromCounter(counter), [],
      Image(w, Seal(key, counter, EMPTY, Atom(plain))))
         == Some(plain)
  {
    hide Image, Fit, Aead.Sealed, Aead.Opened, Aead.NonceFromCounter;
    AtomBytes(w, []);
    AtomBytes(w, plain);
    SealedBytes(w, key, counter, EMPTY, Atom(plain));
    Aead.OpensIffSealed(Fit(Image(w, key)), Aead.NonceFromCounter(counter), [],
      Image(w, Seal(key, counter, EMPTY, Atom(plain))), plain);
  }

  /** A message that parses, finds its session and opens is delivered. */
  lemma OpensAt(e: E.Env, s: E.State, slot: Model.Slot, q: Message.Packet, plain: seq<u8>, out: seq<u8>)
    requires q.TransportData? && s.SlotOf(q.receiver) == Some(slot) && q.counter < REJECT_AFTER_MESSAGES
    requires var x := s.InSlot(slot).value;
             && x.Age(e.now) < REJECT_AFTER_TIME && Replay.Fresh(x.seen, q.counter)
             && Aead.Opened(x.keys.recv, Aead.NonceFromCounter(q.counter), [], q.ciphertext) == Some(plain)
    requires |plain| <= |out|
    ensures E.Decapsulated(e, s, Message.Encode(q), out)
         == E.Outcome(s.Delivered(slot, q.counter, plain == [], e.now),
                      Ok(if plain == [] then E.Keepalive else E.Data(|plain|)), plain + out[|plain|..])
  {
    hide Replay.Fresh, Message.Parse, Aead.Opened, Aead.NonceFromCounter;
    Message.ParseIffEncode(Message.Encode(q), q);
  }

  lemma AdmitImage(w: World, s: Model.State, slot: Model.Slot, counter: u64)
    requires Model.InSlot(s, slot).Some?
    ensures StateImage(w, s).InSlot(slot).Some?
    ensures StateImage(w, s).InSlot(slot).value.confirmed == Model.InSlot(s, slot).value.confirmed
    ensures StateImage(w, Model.Admit(s, slot, counter)) == StateImage(w, s).Admitted(slot, counter)
  {
    hide Image, Fit, Fit16, X25519.ClampScalar, Replay.Accepted, FlightImage, CookieImage, MacImage, JarImage,
      KeysImage;
  }

  lemma PlaceImage(w: World, s: Model.State, now: Ticks)
    ensures StateImage(w, Model.Promote(s)) == StateImage(w, s).Promoted()
    ensures StateImage(w, Model.RekeyOnReceive(s, now)) == StateImage(w, s).Rekeyed(now)
  {
    hide Image, Fit, Fit16, X25519.ClampScalar, FlightImage, CookieImage, MacImage, JarImage;
  }

  lemma DeliverImage(w: World, s: Model.State, now: Ticks, slot: Model.Slot, counter: u64, isKeepalive: bool)
    requires Model.InSlot(s, slot).Some?
    ensures StateImage(w, s).InSlot(slot).Some?
    ensures StateImage(w, Model.Deliver(s, now, slot, counter, isKeepalive))
         == StateImage(w, s).Delivered(slot, counter, isKeepalive, now)
  {
    hide Image, Model.Admit, Model.Promote, Model.RekeyOnReceive, FlightImage, CookieImage, MacImage, JarImage,
      SessionImage;
    var admitted := Model.Admit(s, slot, counter);
    AdmitImage(w, s, slot, counter);
    PlaceImage(w, admitted, now);
    PlaceImage(w, Model.Promote(admitted), now);
  }
}
