/** Two honest tunnels joined by a network that drops, duplicates, reorders and forges:
    every run delivers only what the peer sealed, and each sealed message at most once. */
module Network {
  import opened Machine
  import opened Time
  import opened Terms
  import opened Noise
  import opened Sessions
  import opened TunnelModel
  import opened TunnelRuns
  import opened TunnelEffects
  import opened Adversary
  import Replay

  // ----- Reading names back from a transport key ---------------------------------------------

  function Under(t: Term): (r: Term) { if t.Kdf? then t.key else t }

  function NameIn(t: Term): (n: Name) { if t.Kdf? && t.input.Pub? then t.input.name else Adversarial(0) }

  /** The initiator's and the responder's ephemeral name, and the pre-shared key. */
  function RespOf(key: Term): (n: Name) { NameIn(Under(Under(Under(Under(key))))) }

  function EphOf(key: Term): (n: Name) { NameIn(Under(Under(Under(Under(Under(Under(Under(key)))))))) }

  function PskOf(key: Term): (t: Term) { if Under(key).Kdf? then Under(key).input else EMPTY }

  function DirectionOf(key: Term): (d: nat) { if key.Kdf? then key.index else 0 }

  lemma NamesReadBack(d: nat, e: Name, r: Name, psk: Term)
    requires e.Draw?
    ensures var k := TransportKey(d, e, r, psk);
            EphOf(k) == e && RespOf(k) == r && PskOf(k) == psk && DirectionOf(k) == d
  {
    hide DhTerm;
  }

  /** A key that two opposite honest parties derived. */
  predicate GenuineKey(k: Term) {
    && Opposite(EphOf(k), RespOf(k))
    && (DirectionOf(k) == 1 || DirectionOf(k) == 2)
    && k == TransportKey(DirectionOf(k), EphOf(k), RespOf(k), PskOf(k))
  }

  /** The ephemeral name of the party that seals under `k`, and of the party that opens. */
  function SealerOf(k: Term): (n: Name) { if DirectionOf(k) == 1 then EphOf(k) else RespOf(k) }

  function OpenerOf(k: Term): (n: Name) { if DirectionOf(k) == 1 then RespOf(k) else EphOf(k) }

  /** Session keys of party `p`: it seals in one direction and opens in the other. */
  predicate GenuineKeys(p: Party, k: SessionKeys) {
    && GenuineKey(k.send) && GenuineKey(k.recv)
    && DirectionOf(k.send) == (if k.isInitiator then 1 else 2)
    && DirectionOf(k.recv) == (if k.isInitiator then 2 else 1)
    && EphOf(k.send) == EphOf(k.recv) && RespOf(k.send) == RespOf(k.recv) && PskOf(k.send) == PskOf(k.recv)
    && SealerOf(k.send).owner == p
  }

  /** The party's own ephemeral name in a session. */
  function Own(k: SessionKeys): (n: Name) { SealerOf(k.send) }

  lemma KeysFromNames(p: Party, k: SessionKeys, e: Name, r: Name, psk: Term)
    requires Opposite(e, r) && p == (if k.isInitiator then e else r).owner
    requires k.send == TransportKey(if k.isInitiator then 1 else 2, e, r, psk)
    requires k.recv == TransportKey(if k.isInitiator then 2 else 1, e, r, psk)
    ensures GenuineKeys(p, k) && Own(k) == (if k.isInitiator then e else r)
  {
    NamesReadBack(1, e, r, psk);
    NamesReadBack(2, e, r, psk);
  }

  // ----- The system ---------------------------------------------------------------------------

  /** A payload as it was sealed. */
  datatype SentRecord = SentRecord(sender: Party, key: Term, counter: u64, payload: seq<u8>, mtu: Option<Interval>)

  /** A transport message as it was accepted. */
  datatype Delivery = Delivery(receiver: Party, key: Term, counter: u64, plain: seq<u8>)

  datatype Net = Net(alice: State, bob: State, drawsA: nat, drawsB: nat, log: set<Term>, born: set<Name>,
                     sent: seq<SentRecord>, delivered: seq<Delivery>)
  {
    function At(p: Party): (s: State) { if p == Alice then alice else bob }
    function Draws(p: Party): (n: nat) { if p == Alice then drawsA else drawsB }
    function WithParty(p: Party, s: State): (r: Net) {
      if p == Alice then this.(alice := s, drawsA := drawsA + 1) else this.(bob := s, drawsB := drawsB + 1)
    }
  }

  function SealsIn(p: Option<Packet>): (r: set<Term>) {
    match p
    case Some(Initiation(b, _, _)) => {b.encStatic, b.encTimestamp}
    case Some(Response(b, _, _)) => {b.encNothing}
    case Some(Transport(_, _, ciphertext)) => {ciphertext}
    case _ => {}
  }

  function SentIn(p: Party, s: State, e: Event, o: Outcome): (r: seq<SentRecord>) {
    match Wire(o)
    case Some(Transport(_, counter, Seal(key, _, _, _))) =>
      [SentRecord(p, key, counter, if e.DoEncapsulate? then e.payload else [], s.config.mtu)]
    case _ => []
  }

  function DeliveredIn(p: Party, e: Event, o: Outcome): (r: seq<Delivery>) {
    if e.DoDecapsulate? && e.datagram.Some? && e.datagram.value.Transport? && e.datagram.value.ciphertext.Seal? then
      match o
      case Decapsulation(Ok(Data(plain))) => [Delivery(p, e.datagram.value.ciphertext.key, e.datagram.value.counter,
          plain)]
      case Decapsulation(Ok(Keepalive)) => [Delivery(p, e.datagram.value.ciphertext.key, e.datagram.value.counter, [])]
      case _ => []
    else []
  }

  function OwnIn(x: Option<Session>): (r: set<Name>) { if x.Some? then {Own(x.value.keys)} else {} }

  function OwnNames(s: State): (r: set<Name>) { OwnIn(s.previous) + OwnIn(s.current) + OwnIn(s.next) }

  function NetStep(n: Net, p: Party, e: Event): (r: Net) {
    var (after, o) := Step(n.At(p), e);
    n.WithParty(p, after).(
      log := n.log + SealsIn(Wire(o)),
      born := n.born + OwnNames(after),
      sent := n.sent + SentIn(p, n.At(p), e, o),
      delivered := n.delivered + DeliveredIn(p, e, o))
  }

  /** Entropy is fresh, and every datagram is something the adversary can build from what
      it has and what it has seen. */
  predicate Admissible(n: Net, p: Party, e: Event) {
    && (e.DoEncapsulate? || e.DoDecapsulate? || e.DoPoll? || e.DoInitiate? ==>
          e.rng.eph.Some? ==> e.rng.eph.value == Draw(p, n.Draws(p)))
    && (e.DoDecapsulate? && e.datagram.Some? ==> PacketDerivable(e.datagram.value, n.log))
  }

  function NewNet(pskA: Term, pskB: Term, keepA: Option<Interval>, keepB: Option<Interval>, mtuA: Option<Interval>,
      mtuB: Option<Interval>): (r: Net) {
    Net(NewTunnel(Config(Static(Alice), Pub(Static(Bob)), pskA, keepA, mtuA)).value,
        NewTunnel(Config(Static(Bob), Pub(Static(Alice)), pskB, keepB, mtuB)).value,
        0, 0, {}, {}, [], [])
  }

  // ----- The invariant ------------------------------------------------------------------------

  predicate IdentityOk(p: Party, s: State) {
    s.config.localStatic == Static(p) && s.config.peerPublic == Pub(Static(Other(p))) && s.ss == SS
  }

  /** The in-flight handshake runs on a drawn name that no session has used. */
  predicate InFlightOk(p: Party, s: State, draws: nat, born: set<Name>) {
    s.inflight.Some? ==>
      var f := s.inflight.value;
      f.eph.Draw? && f.eph.owner == p && f.eph.n < draws && f.chain == ChainSs(f.eph) && f.eph !in born
  }

  ghost predicate SlotsOk(p: Party, s: State, born: set<Name>) {
    && (forall sl: Slot :: InSlot(s, sl).Some? ==>
          GenuineKeys(p, InSlot(s, sl).value.keys) && Own(InSlot(s, sl).value.keys) in born)
    && (forall a: Slot, b: Slot :: a != b && InSlot(s, a).Some? && InSlot(s, b).Some?
          ==> Own(InSlot(s, a).value.keys) != Own(InSlot(s, b).value.keys))
  }

  /** Everything `p` ever sealed is behind the counter of the session that sealed it. */
  ghost predicate SentOk(p: Party, s: State, born: set<Name>, sent: seq<SentRecord>) {
    forall i :: 0 <= i < |sent| && sent[i].sender == p ==>
      && GenuineKey(sent[i].key) && SealerOf(sent[i].key).owner == p && SealerOf(sent[i].key) in born
      && forall sl: Slot :: InSlot(s, sl).Some? && Own(InSlot(s, sl).value.keys) == SealerOf(sent[i].key)
           ==> InSlot(s, sl).value.keys.send == sent[i].key && sent[i].counter < InSlot(s, sl).value.sendCounter
  }

  /** Everything `p` ever accepted is in the window of the session that accepted it. */
  ghost predicate DeliveredOk(p: Party, s: State, born: set<Name>, delivered: seq<Delivery>) {
    forall i :: 0 <= i < |delivered| && delivered[i].receiver == p ==>
      && GenuineKey(delivered[i].key) && OpenerOf(delivered[i].key).owner == p && OpenerOf(delivered[i].key) in born
      && forall sl: Slot :: InSlot(s, sl).Some? && Own(InSlot(s, sl).value.keys) == OpenerOf(delivered[i].key)
           ==> InSlot(s, sl).value.keys.recv == delivered[i].key && delivered[i].counter in InSlot(s, sl).value.seen
  }

  ghost predicate PartyOk(p: Party, s: State, draws: nat, born: set<Name>, sent: seq<SentRecord>,
      delivered: seq<Delivery>) {
    && IdentityOk(p, s)
    && InFlightOk(p, s, draws, born)
    && SlotsOk(p, s, born)
    && SentOk(p, s, born, sent)
    && DeliveredOk(p, s, born, delivered)
  }

  ghost predicate BornOk(n: Net) {
    forall x :: x in n.born ==> x.Draw? && x.n < n.Draws(x.owner)
  }

  function TermOf(r: SentRecord): (t: Term) { Seal(r.key, r.counter, EMPTY, Atom(Pad(r.payload, r.mtu))) }

  predicate SentBySealer(r: SentRecord) { GenuineKey(r.key) && SealerOf(r.key).owner == r.sender }

  /** Every transport ciphertext in the log is on the record of its sealer. */
  ghost predicate LogRecorded(log: set<Term>, sent: seq<SentRecord>) {
    forall t {:trigger t in log} :: t in log && t.Seal? && GenuineKey(t.key) ==>
      exists i :: 0 <= i < |sent| && t == TermOf(sent[i]) && SentBySealer(sent[i])
  }

  ghost predicate NoCounterReused(sent: seq<SentRecord>) {
    forall i, j :: 0 <= i < j < |sent| ==> sent[i].key != sent[j].key || sent[i].counter != sent[j].counter
  }

  ghost predicate NoReplay(delivered: seq<Delivery>) {
    forall i, j :: 0 <= i < j < |delivered| ==>
      delivered[i].key != delivered[j].key || delivered[i].counter != delivered[j].counter
  }

  predicate Matches(d: Delivery, r: SentRecord) {
    && r.sender == Other(d.receiver) && r.key == d.key && r.counter == d.counter
    && d.plain == Pad(r.payload, r.mtu)
  }

  ghost predicate FromPeer(d: Delivery, sent: seq<SentRecord>) {
    exists j :: 0 <= j < |sent| && Matches(d, sent[j])
  }

  /** Every delivery is a payload that the peer sealed, padded and nothing else. */
  ghost predicate AllFromPeer(delivered: seq<Delivery>, sent: seq<SentRecord>) {
    forall i :: 0 <= i < |delivered| ==> FromPeer(delivered[i], sent)
  }

  ghost predicate NetInv(n: Net) {
    && (forall p: Party :: PartyOk(p, n.At(p), n.Draws(p), n.born, n.sent, n.delivered))
    && BornOk(n)
    && (forall i :: 0 <= i < |n.sent| ==> SentBySealer(n.sent[i]))
    && LogOk(n.log)
    && LogRecorded(n.log, n.sent)
    && NoCounterReused(n.sent)
    && NoReplay(n.delivered)
    && AllFromPeer(n.delivered, n.sent)
  }
}
