/** Every step of the two-party system keeps its invariant. */
module NetworkProof {
  import opened Machine
  import opened Time
  import opened Terms
  import opened Noise
  import opened Sessions
  import opened TunnelModel
  import opened TunnelRuns
  import opened TunnelEffects
  import opened Adversary
  import opened Network
  import Replay

  // ----- One party's slots --------------------------------------------------------------------

  /** Which slot each slot's session came from; `None` is a new session. */
  datatype Move = Move(previous: Option<Slot>, current: Option<Slot>, next: Option<Slot>)
  {
    function Source(sl: Slot): (r: Option<Slot>) {
      match sl
      case Previous => previous
      case Current => current
      case Next => next
    }
  }

  predicate Carried(x: Session, before: Session) {
    x.keys == before.keys && x.sendCounter >= before.sendCounter && x.seen >= before.seen
  }

  /** Sessions only move, grow or go; at most one is new, on a name never used before. */
  ghost predicate Follows(p: Party, s: State, after: State, m: Move, born: set<Name>, more: set<Name>) {
    && (forall sl: Slot :: InSlot(after, sl).Some? ==>
          match m.Source(sl)
          case Some(o) => InSlot(s, o).Some? && Carried(InSlot(after, sl).value, InSlot(s, o).value)
          case None => GenuineKeys(p, InSlot(after, sl).value.keys) && Own(InSlot(after, sl).value.keys) !in born
                       && Own(InSlot(after, sl).value.keys) in more)
    && (forall a: Slot, b: Slot :: a != b && InSlot(after, a).Some? && InSlot(after, b).Some? ==>
       m.Source(a) != m.Source(b))
  }

  lemma KeepSlots(p: Party, s: State, after: State, m: Move, born: set<Name>, more: set<Name>)
    requires SlotsOk(p, s, born) && born <= more && Follows(p, s, after, m, born, more)
    ensures SlotsOk(p, after, more)
  {
    hide GenuineKeys;
    forall a: Slot, b: Slot | a != b && InSlot(after, a).Some? && InSlot(after, b).Some?
      ensures Own(InSlot(after, a).value.keys) != Own(InSlot(after, b).value.keys)
    {
      assert m.Source(a) != m.Source(b);
    }
  }

  lemma KeepSent(p: Party, s: State, after: State, m: Move, born: set<Name>, more: set<Name>, sent: seq<SentRecord>)
    requires SlotsOk(p, s, born) && SentOk(p, s, born, sent) && born <= more && Follows(p, s, after, m, born, more)
    ensures SentOk(p, after, more, sent)
  {
    hide GenuineKeys, GenuineKey, SealerOf;
    forall i, sl: Slot | 0 <= i < |sent| && sent[i].sender == p
                         && InSlot(after, sl).Some? && Own(InSlot(after, sl).value.keys) == SealerOf(sent[i].key)
      ensures InSlot(after, sl).value.keys.send == sent[i].key && sent[i].counter < InSlot(after, sl).value.sendCounter
    {
      assert m.Source(sl).Some?;
      assert InSlot(s, m.Source(sl).value).Some?;
    }
  }

  lemma KeepDelivered(p: Party, s: State, after: State, m: Move, born: set<Name>, more: set<Name>,
      delivered: seq<Delivery>)
    requires SlotsOk(p, s, born) && DeliveredOk(p, s, born, delivered) && born <= more
      && Follows(p, s, after, m, born, more)
    ensures DeliveredOk(p, after, more, delivered)
  {
    hide GenuineKeys, GenuineKey, OpenerOf;
    forall i, sl: Slot | 0 <= i < |delivered| && delivered[i].receiver == p
                         && InSlot(after, sl).Some? && Own(InSlot(after, sl).value.keys) == OpenerOf(delivered[i].key)
      ensures InSlot(after, sl).value.keys.recv == delivered[i].key
        && delivered[i].counter in InSlot(after, sl).value.seen
    {
      assert m.Source(sl).Some?;
      assert InSlot(s, m.Source(sl).value).Some?;
    }
  }

  lemma KeepParty(p: Party, s: State, after: State, m: Move, draws: nat, draws2: nat, born: set<Name>, more: set<Name>,
                  sent: seq<SentRecord>, delivered: seq<Delivery>)
    requires PartyOk(p, s, draws, born, sent, delivered) && born <= more && Follows(p, s, after, m, born, more)
    requires IdentityOk(p, after) && InFlightOk(p, after, draws2, more)
    ensures PartyOk(p, after, draws2, more, sent, delivered)
  {
    KeepSlots(p, s, after, m, born, more);
    KeepSent(p, s, after, m, born, more, sent);
    KeepDelivered(p, s, after, m, born, more, delivered);
  }

  /** The other party does not notice: the names that are born are not its own. */
  lemma KeepOther(q: Party, s: State, draws: nat, born: set<Name>, more: set<Name>, sent: seq<SentRecord>,
      delivered: seq<Delivery>,
                  moreSent: seq<SentRecord>, moreDelivered: seq<Delivery>)
    requires PartyOk(q, s, draws, born, sent, delivered) && born <= more
    requires forall x :: x in more && x !in born ==> x.Draw? && x.owner != q
    requires forall i :: 0 <= i < |moreSent| ==> moreSent[i].sender != q
    requires forall i :: 0 <= i < |moreDelivered| ==> moreDelivered[i].receiver != q
    ensures PartyOk(q, s, draws, more, sent + moreSent, delivered + moreDelivered)
  {
    hide GenuineKeys, GenuineKey, SealerOf, OpenerOf, Own;
    var all := sent + moreSent;
    assert forall i :: 0 <= i < |all| && all[i].sender == q ==> i < |sent| && all[i] == sent[i];
    var every := delivered + moreDelivered;
    assert forall i :: 0 <= i < |every| && every[i].receiver == q ==> i < |delivered| && every[i] == delivered[i];
  }

  // ----- Putting a step together ------------------------------------------------------------------

  /** A step of `p` as the rest of the system sees it. */
  predicate StepOf(n: Net, p: Party, after: State, log: set<Term>, sent: seq<SentRecord>, delivered: seq<Delivery>,
      n2: Net) {
    && n2.At(p) == after && n2.At(Other(p)) == n.At(Other(p))
    && n2.Draws(p) == n.Draws(p) + 1 && n2.Draws(Other(p)) == n.Draws(Other(p))
    && n2.log == n.log + log
    && n2.born == n.born + OwnNames(after)
    && n2.sent == n.sent + sent
    && n2.delivered == n.delivered + delivered
  }

  lemma NewNamesAreOwn(p: Party, after: State, born: set<Name>)
    requires SlotsOk(p, after, born)
    ensures forall x :: x in OwnNames(after) ==> x.Draw? && x.owner == p && x in born
  {
    hide TransportKey;
    forall sl: Slot | InSlot(after, sl).Some?
      ensures var x := Own(InSlot(after, sl).value.keys); x.Draw? && x.owner == p && x in born
    {
      assert GenuineKeys(p, InSlot(after, sl).value.keys);
    }
    assert after.previous == InSlot(after, Previous) && after.current == InSlot(after, Current)
        && after.next == InSlot(after, Next);
  }

  lemma PartySlots(p: Party, s: State, draws: nat, born: set<Name>, sent: seq<SentRecord>, delivered: seq<Delivery>)
    requires PartyOk(p, s, draws, born, sent, delivered)
    ensures SlotsOk(p, s, born)
  {}

  lemma Assemble(n: Net, p: Party, after: State, log: set<Term>, sent: seq<SentRecord>, delivered: seq<Delivery>,
      n2: Net)
    requires NetInv(n) && StepOf(n, p, after, log, sent, delivered, n2)
    requires PartyOk(p, after, n.Draws(p) + 1, n2.born, n2.sent, n2.delivered)
    requires BornOk(n2)
    requires forall i :: 0 <= i < |sent| ==> sent[i].sender == p && SentBySealer(sent[i])
    requires forall i :: 0 <= i < |delivered| ==> delivered[i].receiver == p
    requires LogOk(log) && LogRecorded(log, n2.sent)
    requires NoCounterReused(n2.sent) && NoReplay(n2.delivered) && AllFromPeer(n2.delivered, n2.sent)
    ensures NetInv(n2)
  {
    var q := Other(p);
    NetParts(n, q);
    hide PartyOk, GenuineKey, TermOf, SentBySealer, NoCounterReused, NoReplay, AllFromPeer, Own;
    assert SlotsOk(p, after, n2.born) by { PartySlots(p, after, n.Draws(p) + 1, n2.born, n2.sent, n2.delivered); }
    NewNamesAreOwn(p, after, n2.born);
    KeepOther(q, n.At(q), n.Draws(q), n.born, n2.born, n.sent, n.delivered, sent, delivered);
    assert n2.At(q) == n.At(q) && n2.Draws(q) == n.Draws(q) && n2.At(p) == after && n2.Draws(p) == n.Draws(p) + 1;
    KeepLogRecorded(n.log, n.sent, sent);
  }

  lemma KeepLogRecorded(log: set<Term>, sent: seq<SentRecord>, more: seq<SentRecord>)
    requires LogRecorded(log, sent)
    ensures LogRecorded(log, sent + more)
  {
    hide GenuineKey, TermOf, SentBySealer;
    forall t | t in log && t.Seal? && GenuineKey(t.key)
      ensures exists i :: 0 <= i < |sent + more| && t == TermOf((sent + more)[i]) && SentBySealer((sent + more)[i])
    {
      var i :| 0 <= i < |sent| && t == TermOf(sent[i]) && SentBySealer(sent[i]);
      assert (sent + more)[i] == sent[i];
    }
  }

  lemma NetParts(n: Net, p: Party)
    requires NetInv(n)
    ensures PartyOk(p, n.At(p), n.Draws(p), n.born, n.sent, n.delivered)
    ensures BornOk(n) && LogOk(n.log) && LogRecorded(n.log, n.sent)
    ensures forall i :: 0 <= i < |n.sent| ==> SentBySealer(n.sent[i])
    ensures NoCounterReused(n.sent) && NoReplay(n.delivered) && AllFromPeer(n.delivered, n.sent)
  {
    hide PartyOk, BornOk, LogOk, LogRecorded, NoCounterReused, NoReplay, AllFromPeer;
  }

  // ----- The kinds of step ------------------------------------------------------------------------

  const STAY: Move := Move(Some(Previous), Some(Current), Some(Next))

  lemma StayFollows(p: Party, s: State, after: State, born: set<Name>, more: set<Name>)
    requires SameOrGone(s.previous, after.previous) && SameOrGone(s.current, after.current)
      && SameOrGone(s.next, after.next)
    ensures Follows(p, s, after, STAY, born, more)
    ensures OwnNames(after) <= OwnNames(s)
  {
    hide GenuineKeys, Own;
  }

  lemma OwnNamesBorn(p: Party, s: State, born: set<Name>)
    requires SlotsOk(p, s, born)
    ensures OwnNames(s) <= born
  {
    hide GenuineKeys, Own;
    assert s.previous == InSlot(s, Previous) && s.current == InSlot(s, Current) && s.next == InSlot(s, Next);
  }

  lemma BornStays(n: Net, p: Party, after: State, log: set<Term>, sent: seq<SentRecord>, delivered: seq<Delivery>,
      n2: Net)
    requires NetInv(n) && StepOf(n, p, after, log, sent, delivered, n2)
    requires OwnNames(after) <= n.born + {Draw(p, n.Draws(p))}
    ensures BornOk(n2)
  {
    hide PartyOk, LogOk, LogRecorded, AllFromPeer, NoReplay, NoCounterReused, Own, GenuineKey;
    forall x | x in n2.born
      ensures x.Draw? && x.n < n2.Draws(x.owner)
    {
      assert n2.Draws(p) == n.Draws(p) + 1 && n2.Draws(Other(p)) == n.Draws(Other(p));
      assert x.Draw? ==> x.owner == p || x.owner == Other(p);
    }
  }

  lemma HandshakeSealsUnrecorded(e: Name, r: Name, stamp: Tai64N, psk: Term)
    requires e.Draw?
    ensures !GenuineKey(StaticSeal(e).key) && !GenuineKey(StampSeal(e, stamp).key) && !GenuineKey(NothingSeal(e, r,
        stamp, psk).key)
  {
    assert SS.Dh? && Es(e).Dh?;
    hide DhTerm, SS;
    hide ChainSe, ChainEs, ChainE, Es;
  }

  lemma InitiationTerms(p: Party, s: State, f: InFlight, e: Name, stamp: Tai64N, body: InitiationBody)
    requires IdentityOk(p, s) && e.Draw? && e.owner == p
    requires CreateInitiation(s.LocalPublic(), s.config.peerPublic, s.ss, f.localIndex, e, stamp,
        HANDSHAKE_INITIATION_LEN) == Ok((f, body))
    ensures f.eph == e && f.chain == ChainSs(e)
    ensures body.encStatic == StaticSeal(e) && body.encTimestamp == StampSeal(e, stamp)
  {
    hide DhTerm;
  }

  lemma InitiationLog(e: Name, stamp: Tai64N, sent: seq<SentRecord>)
    requires e.Draw?
    ensures LogOk({StaticSeal(e), StampSeal(e, stamp)}) && LogRecorded({StaticSeal(e), StampSeal(e, stamp)}, sent)
  {
    HandshakeSealsUnrecorded(e, e, stamp, EMPTY);
    assert SealOf(FromStatic(e)) == StaticSeal(e) && SealOf(FromStamp(e, stamp)) == StampSeal(e, stamp);
    hide GenuineKey, StaticSeal, StampSeal, SealOf;
  }

  /** The party's side of a step that adds no session and records nothing. */
  lemma StayParty(n: Net, p: Party, after: State)
    requires NetInv(n) && SameIdentity(n.At(p), after)
    requires SameOrGone(n.At(p).previous, after.previous) && SameOrGone(n.At(p).current, after.current)
        && SameOrGone(n.At(p).next, after.next)
    requires InFlightOk(p, after, n.Draws(p) + 1, n.born)
    ensures PartyOk(p, after, n.Draws(p) + 1, n.born, n.sent, n.delivered)
    ensures OwnNames(after) <= n.born
  {
    var s := n.At(p);
    assert PartyOk(p, s, n.Draws(p), n.born, n.sent, n.delivered);
    StayFollows(p, s, after, n.born, n.born);
    OwnNamesBorn(p, s, n.born);
    KeepParty(p, s, after, STAY, n.Draws(p), n.Draws(p) + 1, n.born, n.born, n.sent, n.delivered);
  }

  lemma QuietStep(n: Net, p: Party, after: State, n2: Net)
    requires NetInv(n) && Shrinks(n.At(p), after) && SameIdentity(n.At(p), after)
    requires StepOf(n, p, after, {}, [], [], n2)
    ensures NetInv(n2)
  {
    hide NetInv, BornOk, LogOk, LogRecorded, NoCounterReused, NoReplay, AllFromPeer, OwnNames;
    NetParts(n, p);
    assert InFlightOk(p, after, n.Draws(p) + 1, n.born);
    hide PartyOk;
    StayParty(n, p, after);
    NothingLogged(n.sent);
    assert n2.born == n.born && n2.sent == n.sent && n2.delivered == n.delivered;
    BornStays(n, p, after, {}, [], [], n2);
    Assemble(n, p, after, {}, [], [], n2);
  }

  lemma NothingLogged(sent: seq<SentRecord>)
    ensures LogOk({}) && LogRecorded({}, sent)
  {}

  lemma InFlightFresh(n: Net, p: Party, after: State, rng: Entropy, pkt: Packet)
    requires NetInv(n) && Initiates(n.At(p), after, rng, pkt)
    requires rng.eph == Some(Draw(p, n.Draws(p)))
    ensures InFlightOk(p, after, n.Draws(p) + 1, n.born)
    ensures pkt.init.encStatic == StaticSeal(Draw(p, n.Draws(p)))
    ensures pkt.init.encTimestamp == StampSeal(Draw(p, n.Draws(p)), after.lastSentTai.value)
  {
    assert PartyOk(p, n.At(p), n.Draws(p), n.born, n.sent, n.delivered);
    InitiationTerms(p, n.At(p), after.inflight.value, Draw(p, n.Draws(p)), after.lastSentTai.value, pkt.init);
    hide PartyOk, LogOk, LogRecorded, CreateInitiation, StaticSeal, StampSeal, ChainSs;
    assert Draw(p, n.Draws(p)) !in n.born;
  }

  lemma InitiateStep(n: Net, p: Party, after: State, rng: Entropy, pkt: Packet, n2: Net)
    requires NetInv(n) && Initiates(n.At(p), after, rng, pkt) && SameIdentity(n.At(p), after)
    requires rng.eph == Some(Draw(p, n.Draws(p)))
    requires StepOf(n, p, after, {pkt.init.encStatic, pkt.init.encTimestamp}, [], [], n2)
    ensures NetInv(n2)
  {
    hide CreateInitiation, StaticSeal, StampSeal, NetInv, PartyOk, BornOk, InFlightOk, LogOk, LogRecorded,
      NoCounterReused, NoReplay, AllFromPeer, OwnNames;
    NetParts(n, p);
    var e, stamp := Draw(p, n.Draws(p)), after.lastSentTai.value;
    var log := {pkt.init.encStatic, pkt.init.encTimestamp};
    InFlightFresh(n, p, after, rng, pkt);
    StayParty(n, p, after);
    assert n2.born == n.born && n2.sent == n.sent && n2.delivered == n.delivered;
    BornStays(n, p, after, log, [], [], n2);
    InitiationLog(e, stamp, n2.sent);
    Assemble(n, p, after, log, [], [], n2);
  }

  // ----- Sealing -------------------------------------------------------------------------------------

  lemma CounterIsNew(p: Party, s: State, born: set<Name>, sent: seq<SentRecord>, rec: SentRecord)
    requires SlotsOk(p, s, born) && SentOk(p, s, born, sent) && s.current.Some?
    requires rec.key == s.current.value.keys.send && rec.counter == s.current.value.sendCounter
    requires forall i :: 0 <= i < |sent| ==> SentBySealer(sent[i])
    ensures GenuineKey(rec.key) && SealerOf(rec.key).owner == p
    ensures forall i :: 0 <= i < |sent| ==> sent[i].key != rec.key || sent[i].counter != rec.counter
  {
    assert InSlot(s, Current) == s.current;
    hide TransportKey;
    assert Own(s.current.value.keys) == SealerOf(rec.key);
  }

  /** The current session sealed the record and moved past it. */
  predicate SealsRecord(p: Party, s: State, after: State, rec: SentRecord) {
    && s.current.Some? && s.current.value.sendCounter < REJECT_AFTER_MESSAGES
    && rec.sender == p && rec.key == s.current.value.keys.send && rec.counter == s.current.value.sendCounter
    && after.current == Some(s.current.value.(sendCounter := s.current.value.sendCounter + 1))
    && after.previous == s.previous && SameOrGone(s.next, after.next) && after.inflight == s.inflight
  }

  lemma SealedParty(n: Net, p: Party, after: State, rec: SentRecord)
    requires NetInv(n) && SealsRecord(p, n.At(p), after, rec) && SameIdentity(n.At(p), after)
    ensures PartyOk(p, after, n.Draws(p) + 1, n.born, n.sent + [rec], n.delivered)
    ensures SentBySealer(rec)
    ensures forall i :: 0 <= i < |n.sent| ==> n.sent[i].key != rec.key || n.sent[i].counter != rec.counter
    ensures OwnNames(after) <= n.born
  {
    var s := n.At(p);
    NetParts(n, p);
    hide NetInv, GenuineKey, SealerOf, SlotsOk, SentOk, DeliveredOk, LogOk, LogRecorded, AllFromPeer, NoReplay,
      NoCounterReused, OwnNames;
    CounterIsNew(p, s, n.born, n.sent, rec);
    SealedFollows(p, s, after, n.born);
    OwnNamesBorn(p, s, n.born);
    KeepParty(p, s, after, STAY, n.Draws(p), n.Draws(p) + 1, n.born, n.born, n.sent, n.delivered);
    SentGrows(p, after, n.born, n.sent, rec);
  }

  lemma SealedFollows(p: Party, s: State, after: State, born: set<Name>)
    requires s.current.Some? && s.current.value.sendCounter < REJECT_AFTER_MESSAGES
    requires after.current == Some(s.current.value.(sendCounter := s.current.value.sendCounter + 1))
    requires after.previous == s.previous && SameOrGone(s.next, after.next)
    ensures Follows(p, s, after, STAY, born, born)
    ensures OwnNames(after) <= OwnNames(s)
  {
    hide GenuineKeys, Own;
  }

  lemma SentGrows(p: Party, s: State, born: set<Name>, sent: seq<SentRecord>, rec: SentRecord)
    requires SlotsOk(p, s, born) && SentOk(p, s, born, sent)
    requires rec.sender == p && s.current.Some? && rec.key == s.current.value.keys.send
        && rec.counter < s.current.value.sendCounter
    ensures SentOk(p, s, born, sent + [rec])
  {
    assert InSlot(s, Current) == s.current;
    assert GenuineKeys(p, s.current.value.keys);
    hide TransportKey;
    forall sl: Slot | InSlot(s, sl).Some? && Own(InSlot(s, sl).value.keys) == SealerOf(rec.key)
      ensures sl == Current
    {
      assert Own(s.current.value.keys) == SealerOf(rec.key);
    }
  }

  lemma TransportLog(rec: SentRecord, sent: seq<SentRecord>)
    requires SentBySealer(rec) && sent != [] && sent[|sent| - 1] == rec
    ensures LogOk({TermOf(rec)}) && LogRecorded({TermOf(rec)}, sent)
  {
    var k := rec.key;
    var o := FromTransport(DirectionOf(k), EphOf(k), RespOf(k), PskOf(k), rec.counter, Pad(rec.payload, rec.mtu));
    assert OriginOk(o) && SealOf(o) == TermOf(rec);
    assert sent[|sent| - 1] == rec;
    hide SealOf, TermOf, GenuineKey, SentBySealer;
  }

  lemma MatchSurvives(d: Delivery, sent: seq<SentRecord>, more: seq<SentRecord>)
    requires FromPeer(d, sent)
    ensures FromPeer(d, sent + more)
  {
    var j :| 0 <= j < |sent| && Matches(d, sent[j]);
    assert (sent + more)[j] == sent[j];
  }

  lemma MatchesSurvive(delivered: seq<Delivery>, sent: seq<SentRecord>, more: seq<SentRecord>)
    requires AllFromPeer(delivered, sent)
    ensures AllFromPeer(delivered, sent + more)
  {
    forall i | 0 <= i < |delivered|
      ensures FromPeer(delivered[i], sent + more)
    {
      MatchSurvives(delivered[i], sent, more);
    }
  }

  lemma CountersStayDistinct(sent: seq<SentRecord>, rec: SentRecord)
    requires NoCounterReused(sent)
    requires forall i :: 0 <= i < |sent| ==> sent[i].key != rec.key || sent[i].counter != rec.counter
    ensures NoCounterReused(sent + [rec])
  {}

  lemma SealStep(n: Net, p: Party, after: State, rec: SentRecord, n2: Net)
    requires NetInv(n) && SealsRecord(p, n.At(p), after, rec) && SameIdentity(n.At(p), after)
    requires StepOf(n, p, after, {TermOf(rec)}, [rec], [], n2)
    ensures NetInv(n2)
  {
    hide NetInv, PartyOk, BornOk, LogOk, LogRecorded, NoCounterReused, NoReplay, AllFromPeer, OwnNames, SentBySealer,
      TermOf, SameIdentity;
    SealedParty(n, p, after, rec);
    NetParts(n, p);
    assert n2.born == n.born && n2.sent == n.sent + [rec] && n2.delivered == n.delivered;
    BornStays(n, p, after, {TermOf(rec)}, [rec], [], n2);
    TransportLog(rec, n2.sent);
    MatchesSurvive(n.delivered, n.sent, [rec]);
    CountersStayDistinct(n.sent, rec);
    hide SealsRecord;
    Assemble(n, p, after, {TermOf(rec)}, [rec], [], n2);
  }

  // ----- New sessions ----------------------------------------------------------------------------------

  /** A responder session from an authenticated initiation. */
  lemma ResponseTerms(p: Party, c: Consumed, psk: Term, index: u32, e: Name, r: Name, keys: SessionKeys,
      body: ResponseBody)
    requires Opposite(e, r) && r.owner == p
    requires c.ephemeral == Pub(e) && c.chain == ChainSs(e) && c.hash == HashSs(e, c.timestamp)
        && c.staticPublic == Pub(Static(e.owner))
    requires CreateResponse(c, psk, index, r, HANDSHAKE_RESPONSE_LEN) == Ok((keys, body))
    ensures GenuineKeys(p, keys) && Own(keys) == r && !keys.isInitiator
    ensures body.encNothing == NothingSeal(e, r, c.timestamp, psk)
  {
    hide DhTerm;
    assert keys.send == TransportKey(2, e, r, psk) && keys.recv == TransportKey(1, e, r, psk);
    KeysFromNames(p, keys, e, r, psk);
    hide GenuineKeys;
  }

  lemma NothingLog(e: Name, r: Name, stamp: Tai64N, psk: Term, sent: seq<SentRecord>)
    requires Opposite(e, r)
    ensures LogOk({NothingSeal(e, r, stamp, psk)}) && LogRecorded({NothingSeal(e, r, stamp, psk)}, sent)
  {
    HandshakeSealsUnrecorded(e, r, stamp, psk);
    assert SealOf(FromNothing(e, r, stamp, psk)) == NothingSeal(e, r, stamp, psk);
    hide GenuineKey, NothingSeal, SealOf;
  }

  lemma NewNextFollows(p: Party, s: State, after: State, born: set<Name>, more: set<Name>)
    requires after.previous == s.previous && after.current == s.current && after.next.Some?
    requires GenuineKeys(p, after.next.value.keys) && Own(after.next.value.keys) !in born
        && Own(after.next.value.keys) in more
    ensures Follows(p, s, after, STAY.(next := None), born, more)
    ensures OwnNames(after) <= OwnNames(s) + {Own(after.next.value.keys)}
  {
    hide GenuineKeys, Own;
  }

  /** The authentic terms of a response step. */
  lemma RespondTerms(n: Net, p: Party, now: Ticks, after: State, rng: Entropy, init: InitiationBody, pkt: Packet)
    returns (e: Name, stamp: Tai64N)
    requires NetInv(n) && Responds(n.At(p), after, now, rng, init, pkt)
    requires rng.eph == Some(Draw(p, n.Draws(p))) && Derivable(init.encTimestamp, n.log)
    ensures Opposite(e, Draw(p, n.Draws(p)))
    ensures GenuineKeys(p, after.next.value.keys) && Own(after.next.value.keys) == Draw(p, n.Draws(p))
    ensures pkt.resp.encNothing == NothingSeal(e, Draw(p, n.Draws(p)), stamp, n.At(p).config.psk)
  {
    var s, r := n.At(p), Draw(p, n.Draws(p));
    assert PartyOk(p, s, n.Draws(p), n.born, n.sent, n.delivered);
    assert s.LocalPublic() == Pub(Static(p));
    hide PartyOk, LogRecorded, AllFromPeer, NoReplay, NoCounterReused, NothingSeal, GenuineKeys;
    e := InitiationAuthentic(p, init, n.log);
    var c := ConsumeInitiation(Static(p), Pub(Static(p)), Pub(Static(Other(p))), SS, init).value;
    stamp := c.timestamp;
    hide ConsumeInitiation, CreateResponse, LogOk;
    ResponseTerms(p, c, s.config.psk, after.next.value.keys.localIndex, e, r, after.next.value.keys, pkt.resp);
  }

  lemma RespondParty(n: Net, p: Party, now: Ticks, after: State, rng: Entropy, init: InitiationBody, pkt: Packet)
    requires NetInv(n) && Responds(n.At(p), after, now, rng, init, pkt) && SameIdentity(n.At(p), after)
    requires GenuineKeys(p, after.next.value.keys) && Own(after.next.value.keys) == Draw(p, n.Draws(p))
    ensures n.born + OwnNames(after) == n.born + {Draw(p, n.Draws(p))}
    ensures PartyOk(p, after, n.Draws(p) + 1, n.born + OwnNames(after), n.sent, n.delivered)
  {
    var s, r := n.At(p), Draw(p, n.Draws(p));
    NetParts(n, p);
    hide NetInv, ConsumeInitiation, CreateResponse, LogOk, LogRecorded, AllFromPeer, NoReplay, NoCounterReused,
      GenuineKeys, Own, SlotsOk, SentOk, DeliveredOk;
    assert r !in n.born;
    NewNextFollows(p, s, after, n.born, n.born + {r});
    OwnNamesBorn(p, s, n.born);
    assert n.born + OwnNames(after) == n.born + {r};
    KeepParty(p, s, after, STAY.(next := None), n.Draws(p), n.Draws(p) + 1, n.born, n.born + {r}, n.sent, n.delivered);
  }

  lemma RespondStep(n: Net, p: Party, now: Ticks, after: State, rng: Entropy, init: InitiationBody, pkt: Packet,
      n2: Net)
    requires NetInv(n) && Responds(n.At(p), after, now, rng, init, pkt) && SameIdentity(n.At(p), after)
    requires rng.eph == Some(Draw(p, n.Draws(p))) && Derivable(init.encTimestamp, n.log)
    requires StepOf(n, p, after, {pkt.resp.encNothing}, [], [], n2)
    ensures NetInv(n2)
  {
    var e, stamp := RespondTerms(n, p, now, after, rng, init, pkt);
    RespondParty(n, p, now, after, rng, init, pkt);
    NetParts(n, p);
    hide NetInv, PartyOk, BornOk, LogOk, LogRecorded, NoCounterReused, NoReplay, AllFromPeer, OwnNames, Responds,
      NothingSeal, GenuineKeys, Own, SameIdentity;
    assert n2.sent == n.sent && n2.delivered == n.delivered;
    BornStays(n, p, after, {pkt.resp.encNothing}, [], [], n2);
    NothingLog(e, Draw(p, n.Draws(p)), stamp, n.At(p).config.psk, n2.sent);
    Assemble(n, p, after, {pkt.resp.encNothing}, [], [], n2);
  }

  /** An initiator session from an authenticated response. */
  lemma CompleteTerms(n: Net, p: Party, now: Ticks, after: State, resp: ResponseBody)
    requires NetInv(n) && Completes(n.At(p), after, now, resp) && Derivable(resp.encNothing, n.log)
    ensures GenuineKeys(p, after.current.value.keys) && Own(after.current.value.keys) == n.At(p).inflight.value.eph
  {
    var s := n.At(p);
    assert PartyOk(p, s, n.Draws(p), n.born, n.sent, n.delivered);
    var f := s.inflight.value;
    assert after.current.value.keys.isInitiator;
    hide PartyOk, LogRecorded, AllFromPeer, NoReplay, NoCounterReused;
    var r := ResponseAuthentic(f, s.config.psk, resp, n.log);
    hide ConsumeResponse, LogOk;
    KeysFromNames(p, after.current.value.keys, f.eph, r, s.config.psk);
  }

  const SHIFT: Move := Move(Some(Current), None, Some(Next))

  lemma NewCurrentFollows(p: Party, s: State, after: State, born: set<Name>, more: set<Name>)
    requires after.previous == s.current && after.next == s.next && after.current.Some?
    requires GenuineKeys(p, after.current.value.keys) && Own(after.current.value.keys) !in born
        && Own(after.current.value.keys) in more
    ensures Follows(p, s, after, SHIFT, born, more)
    ensures OwnNames(after) <= OwnNames(s) + {Own(after.current.value.keys)}
  {
    hide GenuineKeys, Own;
  }

  lemma CompleteParty(n: Net, p: Party, now: Ticks, after: State, resp: ResponseBody)
    requires NetInv(n) && Completes(n.At(p), after, now, resp) && SameIdentity(n.At(p), after)
    requires GenuineKeys(p, after.current.value.keys) && Own(after.current.value.keys) == n.At(p).inflight.value.eph
    ensures n.born + OwnNames(after) == n.born + {n.At(p).inflight.value.eph}
    ensures PartyOk(p, after, n.Draws(p) + 1, n.born + OwnNames(after), n.sent, n.delivered)
    ensures var e := n.At(p).inflight.value.eph; e.Draw? && e.owner == p && e.n < n.Draws(p)
  {
    hide NetInv, ConsumeResponse, LogOk, LogRecorded, AllFromPeer, NoReplay, NoCounterReused, BornOk, GenuineKeys,
      Own, SlotsOk, SentOk, DeliveredOk;
    var s, e := n.At(p), n.At(p).inflight.value.eph;
    NetParts(n, p);
    NewCurrentFollows(p, s, after, n.born, n.born + {e});
    CurrentIsOwn(after);
    OwnNamesBorn(p, s, n.born);
    assert IdentityOk(p, after) && InFlightOk(p, after, n.Draws(p) + 1, n.born + {e});
    hide OwnNames, Follows, Completes, InFlightOk, IdentityOk;
    assert n.born + OwnNames(after) == n.born + {e};
    KeepParty(p, s, after, SHIFT, n.Draws(p), n.Draws(p) + 1, n.born, n.born + {e}, n.sent, n.delivered);
  }

  lemma CurrentIsOwn(s: State)
    requires s.current.Some?
    ensures Own(s.current.value.keys) in OwnNames(s)
  {
    hide Own;
  }

  lemma CompleteStep(n: Net, p: Party, now: Ticks, after: State, resp: ResponseBody, n2: Net)
    requires NetInv(n) && Completes(n.At(p), after, now, resp) && SameIdentity(n.At(p), after)
    requires Derivable(resp.encNothing, n.log)
    requires StepOf(n, p, after, {}, [], [], n2)
    ensures NetInv(n2)
  {
    CompleteTerms(n, p, now, after, resp);
    CompleteParty(n, p, now, after, resp);
    NetParts(n, p);
    hide NetInv, PartyOk, BornOk, LogOk, LogRecorded, NoCounterReused, NoReplay, AllFromPeer, OwnNames, Completes,
      GenuineKeys, Own, SameIdentity;
    assert n2.sent == n.sent && n2.delivered == n.delivered;
    NothingLogged(n2.sent);
    assert BornOk(n2) by { NamesBelow(n, p, n.At(p).inflight.value.eph, n2); }
    Assemble(n, p, after, {}, [], [], n2);
  }

  lemma NamesBelow(n: Net, p: Party, e: Name, n2: Net)
    requires BornOk(n) && n2.born == n.born + {e}
    requires e.Draw? && e.n < n.Draws(e.owner)
    requires n2.drawsA >= n.drawsA && n2.drawsB >= n.drawsB
    ensures BornOk(n2)
  {}

  // ----- Delivery ----------------------------------------------------------------------------------------

  /** What opens under a genuine receiving key is on the peer's record. */
  lemma DeliveryIsFromPeer(p: Party, keys: SessionKeys, counter: u64, ciphertext: Term, plain: seq<u8>,
      log: set<Term>, sent: seq<SentRecord>)
    requires LogOk(log) && LogRecorded(log, sent) && Derivable(ciphertext, log)
    requires GenuineKeys(p, keys)
    requires Open(keys.recv, counter, EMPTY, ciphertext) == Some(Atom(plain))
    ensures FromPeer(Delivery(p, keys.recv, counter, plain), sent)
  {
    var k := keys.recv;
    hide TransportKey, LogOk;
    var again := TransportAuthentic(DirectionOf(k), EphOf(k), RespOf(k), PskOf(k), counter, ciphertext, log);
    assert ciphertext in log && ciphertext.Seal? && ciphertext.key == k && GenuineKey(k);
    var i :| 0 <= i < |sent| && ciphertext == TermOf(sent[i]) && SentBySealer(sent[i]);
    assert SealerOf(k).owner == Other(OpenerOf(k).owner);
    hide Pad;
    assert Matches(Delivery(p, k, counter, plain), sent[i]);
  }

  const PROMOTED: Move := Move(Some(Current), Some(Next), None)

  lemma AdmitFollows(p: Party, s: State, after: State, slot: Slot, counter: u64, born: set<Name>)
    requires InSlot(s, slot).Some? && SameSlots(Admit(s, slot, counter), after)
    ensures Follows(p, s, after, STAY, born, born)
    ensures OwnNames(after) <= OwnNames(s)
  {
    hide GenuineKeys, Own;
  }

  lemma PromoteFollows(p: Party, s: State, after: State, counter: u64, born: set<Name>)
    requires s.next.Some? && SameSlots(Promote(Admit(s, Next, counter)), after)
    ensures Follows(p, s, after, PROMOTED, born, born)
    ensures OwnNames(after) <= OwnNames(s)
  {
    hide GenuineKeys, Own;
  }

  /** The session that accepted the counter, wherever it went, now has it in its window. */
  lemma AcceptedHolds(p: Party, s: State, after: State, slot: Slot, pkt: Packet, plain: seq<u8>, born: set<Name>)
    requires SlotsOk(p, s, born) && Delivers(s, after, slot, pkt, plain)
    ensures forall sl: Slot :: InSlot(after, sl).Some? && Own(InSlot(after, sl).value.keys) == Own(InSlot(s,
        slot).value.keys)
              ==> InSlot(after, sl).value.keys == InSlot(s, slot).value.keys
                  && pkt.counter in InSlot(after, sl).value.seen
  {
    hide GenuineKeys, Own;
    var x := InSlot(s, slot).value;
    forall sl: Slot | InSlot(after, sl).Some? && Own(InSlot(after, sl).value.keys) == Own(x.keys)
      ensures InSlot(after, sl).value.keys == x.keys && pkt.counter in InSlot(after, sl).value.seen
    {
      var m := if !x.confirmed && slot == Next then PROMOTED else STAY;
      assert m.Source(sl).Some?;
      var o := m.Source(sl).value;
      assert InSlot(s, o).Some? && InSlot(after, sl).value.keys == InSlot(s, o).value.keys;
      assert o == slot;
    }
  }

  lemma DeliveredGrows(p: Party, s: State, born: set<Name>, delivered: seq<Delivery>, d: Delivery, keys: SessionKeys)
    requires DeliveredOk(p, s, born, delivered)
    requires d.receiver == p && d.key == keys.recv && GenuineKeys(p, keys) && Own(keys) in born
    requires forall sl: Slot :: InSlot(s, sl).Some? && Own(InSlot(s, sl).value.keys) == Own(keys)
               ==> InSlot(s, sl).value.keys == keys && d.counter in InSlot(s, sl).value.seen
    ensures DeliveredOk(p, s, born, delivered + [d])
  {
    hide TransportKey;
    assert OpenerOf(keys.recv) == Own(keys);
  }

  lemma DeliverParty(n: Net, p: Party, after: State, slot: Slot, pkt: Packet, plain: seq<u8>)
    requires NetInv(n) && Delivers(n.At(p), after, slot, pkt, plain) && SameIdentity(n.At(p), after)
    ensures var d := Delivery(p, InSlot(n.At(p), slot).value.keys.recv, pkt.counter, plain);
            PartyOk(p, after, n.Draws(p) + 1, n.born, n.sent, n.delivered + [d])
    ensures OwnNames(after) <= n.born
  {
    var s := n.At(p);
    assert PartyOk(p, s, n.Draws(p), n.born, n.sent, n.delivered);
    var x := InSlot(s, slot).value;
    var m := if !x.confirmed && slot == Next then PROMOTED else STAY;
    assert InFlightOk(p, after, n.Draws(p) + 1, n.born);
    assert GenuineKeys(p, x.keys) && Own(x.keys) in n.born;
    AcceptedHolds(p, s, after, slot, pkt, plain, n.born);
    OwnNamesBorn(p, s, n.born);
    hide LogOk, LogRecorded, AllFromPeer, NoReplay, NoCounterReused, GenuineKeys, Own, SlotsOk, SentOk, DeliveredOk,
      OwnNames;
    if !x.confirmed && slot == Next {
      PromoteFollows(p, s, after, pkt.counter, n.born);
    } else {
      AdmitFollows(p, s, after, slot, pkt.counter, n.born);
    }
    hide Admit, Promote, Follows;
    KeepParty(p, s, after, m, n.Draws(p), n.Draws(p) + 1, n.born, n.born, n.sent, n.delivered);
    DeliveredGrows(p, after, n.born, n.delivered, Delivery(p, x.keys.recv, pkt.counter, plain), x.keys);
  }

  lemma DeliveryIsNew(n: Net, p: Party, slot: Slot, counter: u64, i: nat)
    requires NetInv(n) && InSlot(n.At(p), slot).Some? && Replay.Fresh(InSlot(n.At(p), slot).value.seen, counter)
    requires i < |n.delivered|
    ensures n.delivered[i].key != InSlot(n.At(p), slot).value.keys.recv || n.delivered[i].counter != counter
  {
    var d, x := n.delivered[i], InSlot(n.At(p), slot).value;
    assert PartyOk(p, n.At(p), n.Draws(p), n.born, n.sent, n.delivered);
    assert PartyOk(d.receiver, n.At(d.receiver), n.Draws(d.receiver), n.born, n.sent, n.delivered);
    hide TransportKey, LogOk, LogRecorded, AllFromPeer, NoReplay, NoCounterReused, SentOk, InFlightOk;
    if d.key == x.keys.recv {
      assert OpenerOf(d.key) == Own(x.keys);
    }
  }

  lemma DeliverStep(n: Net, p: Party, after: State, slot: Slot, pkt: Packet, plain: seq<u8>, n2: Net)
    requires NetInv(n) && Delivers(n.At(p), after, slot, pkt, plain) && SameIdentity(n.At(p), after)
    requires Derivable(pkt.ciphertext, n.log)
    requires StepOf(n, p, after, {}, [], [Delivery(p, InSlot(n.At(p), slot).value.keys.recv, pkt.counter, plain)], n2)
    ensures NetInv(n2)
  {
    hide NetInv, PartyOk, BornOk, LogOk, LogRecorded, NoCounterReused, NoReplay, AllFromPeer, OwnNames, SameIdentity,
      GenuineKeys, FromPeer, Delivers, Derivable;
    DeliversShape(n.At(p), after, slot, pkt, plain);
    DeliverParty(n, p, after, slot, pkt, plain);
    var d := Delivery(p, InSlot(n.At(p), slot).value.keys.recv, pkt.counter, plain);
    DeliveryRecorded(n, p, after, slot, pkt, plain);
    NetParts(n, p);
    assert n2.born == n.born && n2.sent == n.sent && n2.delivered == n.delivered + [d];
    NothingLogged(n2.sent);
    BornStays(n, p, after, {}, [], [d], n2);
    Assemble(n, p, after, {}, [], [d], n2);
  }

  lemma DeliveryRecorded(n: Net, p: Party, after: State, slot: Slot, pkt: Packet, plain: seq<u8>)
    requires NetInv(n) && Delivers(n.At(p), after, slot, pkt, plain) && Derivable(pkt.ciphertext, n.log)
    ensures var d := Delivery(p, InSlot(n.At(p), slot).value.keys.recv, pkt.counter, plain);
            NoReplay(n.delivered + [d]) && AllFromPeer(n.delivered + [d], n.sent)
  {
    hide NetInv, PartyOk, BornOk, LogOk, LogRecorded, NoCounterReused, NoReplay, AllFromPeer, GenuineKeys, FromPeer,
      Admit, Promote;
    var keys := InSlot(n.At(p), slot).value.keys;
    var d := Delivery(p, keys.recv, pkt.counter, plain);
    NetParts(n, p);
    SessionGenuine(n, p, slot);
    DeliveryIsFromPeer(p, keys, pkt.counter, pkt.ciphertext, plain, n.log, n.sent);
    DeliveriesStayDistinct(n, p, slot, d);
    DeliveriesGrow(n.delivered, d, n.sent);
  }

  lemma SessionGenuine(n: Net, p: Party, slot: Slot)
    requires NetInv(n) && InSlot(n.At(p), slot).Some?
    ensures GenuineKeys(p, InSlot(n.At(p), slot).value.keys)
  {
    NetParts(n, p);
    hide GenuineKeys, NetInv;
  }

  lemma DeliveriesStayDistinct(n: Net, p: Party, slot: Slot, d: Delivery)
    requires NetInv(n) && InSlot(n.At(p), slot).Some? && Replay.Fresh(InSlot(n.At(p), slot).value.seen, d.counter)
    requires d.key == InSlot(n.At(p), slot).value.keys.recv
    ensures NoReplay(n.delivered + [d])
  {
    NetParts(n, p);
    hide NetInv, PartyOk, LogOk, LogRecorded, AllFromPeer;
    forall i | 0 <= i < |n.delivered|
      ensures n.delivered[i].key != d.key || n.delivered[i].counter != d.counter
    {
      DeliveryIsNew(n, p, slot, d.counter, i);
    }
  }

  lemma DeliveriesGrow(delivered: seq<Delivery>, d: Delivery, sent: seq<SentRecord>)
    requires AllFromPeer(delivered, sent) && FromPeer(d, sent)
    ensures AllFromPeer(delivered + [d], sent)
  {
    hide FromPeer;
  }

  // ----- Every step ----------------------------------------------------------------------------------------

  lemma NetStepIs(n: Net, p: Party, e: Event, after: State, o: Outcome)
    requires Step(n.At(p), e) == (after, o)
    ensures StepOf(n, p, after, SealsIn(Wire(o)), SentIn(p, n.At(p), e, o), DeliveredIn(p, e, o), NetStep(n, p, e))
  {
    hide Step, OwnNames, SealsIn, SentIn, DeliveredIn;
  }

  lemma SealsShape(p: Party, s: State, after: State, t: Ticks, payload: seq<u8>, pkt: Packet) returns (rec: SentRecord)
    requires Seals(s, after, t, Pad(payload, s.config.mtu), pkt)
    ensures pkt.Transport? && pkt.ciphertext.Seal? && rec == SentRecord(p, pkt.ciphertext.key, pkt.counter, payload,
        s.config.mtu)
    ensures pkt.ciphertext == TermOf(rec) && SealsRecord(p, s, after, rec)
  {
    hide Pad;
    rec := SentRecord(p, pkt.ciphertext.key, pkt.counter, payload, s.config.mtu);
  }

  lemma InitiatesShape(s: State, after: State, rng: Entropy, pkt: Packet)
    requires Initiates(s, after, rng, pkt)
    ensures pkt.Initiation? && rng.eph.Some?
  {}

  lemma EncapsulateStep(n: Net, p: Party, e: Event)
    requires NetInv(n) && Admissible(n, p, e) && e.DoEncapsulate?
    ensures NetInv(NetStep(n, p, e))
  {
    hide NetInv, Initiates, Seals, SealsRecord, OwnNames, Pad, SameIdentity, TermOf, NetStep, StepOf;
    var s := n.At(p);
    var (after, r) := Encapsulate(s, e.now, e.payload, e.outLen, e.rng);
    EncapsulateEffects(s, e.now, e.payload, e.outLen, e.rng);
    NetStepIs(n, p, e, after, Encapsulation(r));
    hide Encapsulate;
    match r
    case Ok(Sealed(pkt)) =>
      var rec := SealsShape(p, s, after, ClampTicks(s, e.now), e.payload, pkt);
      SealStep(n, p, after, rec, NetStep(n, p, e));
    case Ok(NeedsHandshake(pkt)) =>
      InitiatesShape(s, after, e.rng, pkt);
      InitiateStep(n, p, after, e.rng, pkt, NetStep(n, p, e));
    case Err(_) =>
      QuietStep(n, p, after, NetStep(n, p, e));
  }

  lemma PadNothing(mtu: Option<Interval>)
    ensures Pad([], mtu) == []
  {}

  lemma PollStep(n: Net, p: Party, e: Event)
    requires NetInv(n) && Admissible(n, p, e) && e.DoPoll?
    ensures NetInv(NetStep(n, p, e))
  {
    hide NetInv, Initiates, Seals, SealsRecord, OwnNames, Pad, SameIdentity, TermOf, NetStep, StepOf;
    var s := n.At(p);
    var (after, r) := Poll(s, e.now, e.outLen, e.rng);
    PollEffects(s, e.now, e.outLen, e.rng);
    NetStepIs(n, p, e, after, Polled(r));
    hide Poll;
    PadNothing(s.config.mtu);
    match r
    case Ok(Send(pkt, reason)) =>
      if reason == FreshInitiation || reason == Retransmit {
        InitiatesShape(s, after, e.rng, pkt);
        InitiateStep(n, p, after, e.rng, pkt, NetStep(n, p, e));
      } else {
        var rec := SealsShape(p, s, after, ClampTicks(s, e.now), [], pkt);
        SealStep(n, p, after, rec, NetStep(n, p, e));
      }
    case _ =>
      QuietStep(n, p, after, NetStep(n, p, e));
  }

  lemma InitiateCallStep(n: Net, p: Party, e: Event)
    requires NetInv(n) && Admissible(n, p, e) && e.DoInitiate?
    ensures NetInv(NetStep(n, p, e))
  {
    hide NetInv, Initiates, OwnNames, SameIdentity, NetStep, StepOf;
    var s := n.At(p);
    var (after, r) := InitiateHandshake(s, e.now, e.outLen, e.rng);
    InitiateEffects(s, e.now, e.outLen, e.rng);
    NetStepIs(n, p, e, after, Initiated(r));
    hide InitiateHandshake;
    if r.Ok? {
      InitiatesShape(s, after, e.rng, r.value);
      InitiateStep(n, p, after, e.rng, r.value, NetStep(n, p, e));
    } else {
      QuietStep(n, p, after, NetStep(n, p, e));
    }
  }

  lemma RespondsShape(s: State, after: State, now: Ticks, rng: Entropy, init: InitiationBody, pkt: Packet)
    requires Responds(s, after, now, rng, init, pkt)
    ensures pkt.Response? && rng.eph.Some?
  {}

  lemma DeliversShape(s: State, after: State, slot: Slot, pkt: Packet, plain: seq<u8>)
    requires Delivers(s, after, slot, pkt, plain)
    ensures pkt.Transport? && pkt.ciphertext.Seal? && InSlot(s, slot).Some?
    ensures pkt.ciphertext.key == InSlot(s, slot).value.keys.recv
  {
    hide Admit, Promote, Replay.Fresh;
  }

  lemma DecapsulateStep(n: Net, p: Party, e: Event)
    requires NetInv(n) && Admissible(n, p, e) && e.DoDecapsulate?
    ensures NetInv(NetStep(n, p, e))
  {
    hide NetInv, Responds, Completes, Delivers, OwnNames, SameIdentity, NetStep, StepOf;
    var s, t := n.At(p), ClampTicks(n.At(p), e.now);
    var (after, r) := Decapsulate(s, e.now, e.remote, e.underLoad, e.datagram, e.outLen, e.rng);
    DecapsulateEffects(s, e.now, e.remote, e.underLoad, e.datagram, e.outLen, e.rng);
    NetStepIs(n, p, e, after, Decapsulation(r));
    hide Decapsulate;
    match r
    case Ok(Reply(Response(body, mac1, mac2))) =>
      RespondsShape(s, after, t, e.rng, e.datagram.value.init, r.value.wire);
      RespondStep(n, p, t, after, e.rng, e.datagram.value.init, r.value.wire, NetStep(n, p, e));
    case Ok(HandshakeComplete) =>
      CompleteStep(n, p, t, after, e.datagram.value.resp, NetStep(n, p, e));
    case Ok(Data(plain)) =>
      var slot := SlotOf(s, e.datagram.value.receiver).value;
      DeliversShape(s, after, slot, e.datagram.value, plain);
      DeliverStep(n, p, after, slot, e.datagram.value, plain, NetStep(n, p, e));
    case Ok(Keepalive) =>
      var slot := SlotOf(s, e.datagram.value.receiver).value;
      DeliversShape(s, after, slot, e.datagram.value, []);
      DeliverStep(n, p, after, slot, e.datagram.value, [], NetStep(n, p, e));
    case _ =>
      QuietStep(n, p, after, NetStep(n, p, e));
  }

  lemma NetStepKeeps(n: Net, p: Party, e: Event)
    requires NetInv(n) && Admissible(n, p, e)
    ensures NetInv(NetStep(n, p, e))
  {
    hide NetInv, NetStep, StepOf, Admissible;
    match e
    case DoEncapsulate(_, _, _, _) => EncapsulateStep(n, p, e);
    case DoDecapsulate(_, _, _, _, _, _) => DecapsulateStep(n, p, e);
    case DoPoll(_, _, _) => PollStep(n, p, e);
    case DoInitiate(_, _, _) => InitiateCallStep(n, p, e);
    case DoReset =>
      NetStepIs(n, p, e, DiscardAll(n.At(p)), Quiet);
      QuietStep(n, p, DiscardAll(n.At(p)), NetStep(n, p, e));
    case DoSetMtu(mtu) =>
      var s := n.At(p);
      NetStepIs(n, p, e, s.(config := s.config.(mtu := mtu)), Quiet);
      QuietStep(n, p, s.(config := s.config.(mtu := mtu)), NetStep(n, p, e));
  }

  // ----- Every run --------------------------------------------------------------------------------------------

  datatype NetEvent = NetEvent(who: Party, what: Event)

  function NetRun(n: Net, events: seq<NetEvent>): (r: Net) {
    if events == [] then n
    else NetStep(NetRun(n, events[..|events| - 1]), events[|events| - 1].who, events[|events| - 1].what)
  }

  /** Every step draws fresh entropy and feeds in only what the adversary can build. */
  predicate RunAdmissible(n: Net, events: seq<NetEvent>) {
    events == []
    || (&& RunAdmissible(n, events[..|events| - 1])
        && Admissible(NetRun(n, events[..|events| - 1]), events[|events| - 1].who, events[|events| - 1].what))
  }

  lemma {:induction false} NetRunKeeps(n: Net, events: seq<NetEvent>)
    requires NetInv(n) && RunAdmissible(n, events)
    ensures NetInv(NetRun(n, events))
  {
    hide NetInv, NetStep, Admissible;
    if events != [] {
      NetRunKeeps(n, events[..|events| - 1]);
      NetStepKeeps(NetRun(n, events[..|events| - 1]), events[|events| - 1].who, events[|events| - 1].what);
    }
  }

  lemma NewNetOk(pskA: Term, pskB: Term, keepA: Option<Interval>, keepB: Option<Interval>, mtuA: Option<Interval>,
      mtuB: Option<Interval>)
    ensures NetInv(NewNet(pskA, pskB, keepA, keepB, mtuA, mtuB))
  {}

  /** Two tunnels, any pre-shared keys, keepalives and MTUs, any interleaving of their
      operations, any clocks, and a network that drops, duplicates, reorders and forges.
      Every delivered message is the padded form of a payload that the peer sealed under
      that key and counter; no sealed message is delivered twice, however sessions move
      between slots; and no key and counter are ever used for two messages. */
  lemma DeliveredOnceFromPeer(pskA: Term, pskB: Term, keepA: Option<Interval>, keepB: Option<Interval>,
                              mtuA: Option<Interval>, mtuB: Option<Interval>, events: seq<NetEvent>)
    requires RunAdmissible(NewNet(pskA, pskB, keepA, keepB, mtuA, mtuB), events)
    ensures var n := NetRun(NewNet(pskA, pskB, keepA, keepB, mtuA, mtuB), events);
            AllFromPeer(n.delivered, n.sent) && NoReplay(n.delivered) && NoCounterReused(n.sent)
  {
    hide NetInv;
    NewNetOk(pskA, pskB, keepA, keepB, mtuA, mtuB);
    NetRunKeeps(NewNet(pskA, pskB, keepA, keepB, mtuA, mtuB), events);
    NetParts(NetRun(NewNet(pskA, pskB, keepA, keepB, mtuA, mtuB), events), Alice);
  }
}
