/** The four handshake functions fit together: an honest exchange agrees, and acceptance
    implies agreement. */
module KeyAgreement {
  import opened Machine
  import opened Time
  import opened Terms
  import opened Noise
  import opened Sessions

  /** Everything the two ends of one exchange compute. */
  datatype Exchange = Exchange(inflight: InFlight, initiation: InitiationBody, consumed: Consumed,
                               responder: SessionKeys, response: ResponseBody, initiator: SessionKeys)

  /** Run the four functions in order; `None` as soon as one of them refuses. */
  function RunExchange(si: Name, sr: Name, ei: Name, er: Name, pskI: Term, pskR: Term, stamp: Tai64N, indexI: u32,
      indexR: u32)
    : (r: Option<Exchange>)
  {
    var ssI := SharedSecret(si, Pub(sr));
    var ssR := SharedSecret(sr, Pub(si));
    if ssI.Err? || ssR.Err? then None else
    var first := CreateInitiation(Pub(si), Pub(sr), ssI.value, indexI, ei, stamp, HANDSHAKE_INITIATION_LEN);
    if first.Err? then None else
    var consumed := ConsumeInitiation(sr, Pub(sr), Pub(si), ssR.value, first.value.1);
    if consumed.Err? then None else
    var second := CreateResponse(consumed.value, pskR, indexR, er, HANDSHAKE_RESPONSE_LEN);
    if second.Err? then None else
    var final := ConsumeResponse(first.value.0, si, pskI, second.value.1);
    if final.Err? then None else
    Some(Exchange(first.value.0, first.value.1, consumed.value, second.value.0, second.value.1, final.value))
  }

  lemma InitiationIsConsumed(si: Name, sr: Name, ss: Term, ei: Name, stamp: Tai64N, index: u32)
    ensures var first := CreateInitiation(Pub(si), Pub(sr), ss, index, ei, stamp, HANDSHAKE_INITIATION_LEN);
            && first.Ok? && first.value.0.eph == ei && first.value.0.localIndex == index
            && ConsumeInitiation(sr, Pub(sr), Pub(si), ss, first.value.1)
               == Ok(Consumed(index, Pub(si), stamp, Pub(ei), first.value.0.chain, first.value.0.hash))
  {
    DhCommutes(ei, sr);
    hide DhTerm;
  }

  lemma ResponseIsConsumed(f: InFlight, c: Consumed, si: Name, er: Name, pskI: Term, pskR: Term, indexR: u32)
    requires c.chain == f.chain && c.hash == f.hash && c.ephemeral == Pub(f.eph) && c.staticPublic == Pub(si)
    ensures var second := CreateResponse(c, pskR, indexR, er, HANDSHAKE_RESPONSE_LEN);
            && second.Ok? && second.value.1.ephemeral == Pub(er)
            && var final := ConsumeResponse(f, si, pskI, second.value.1);
               && (final.Ok? <==> pskI == pskR)
               && (final.Ok? ==>
                     && final.value == SessionKeys(second.value.0.recv, second.value.0.send, f.localIndex, indexR, true)
                     && second.value.0.recv != second.value.0.send
                     && second.value.0.localIndex == indexR && second.value.0.peerIndex == c.peerIndex
                     && !second.value.0.isInitiator)
  {
    DhCommutes(er, f.eph);
    DhCommutes(er, si);
    hide DhTerm;
  }

  /** For all static keys, ephemerals, pre-shared keys, stamps and indices: the exchange
      goes through exactly when the pre-shared keys agree, and then the transcripts are
      equal, each side's sending key is the other's receiving key, the two directions
      differ, and the indices cross. */
  lemma ExchangeAgrees(si: Name, sr: Name, ei: Name, er: Name, pskI: Term, pskR: Term, stamp: Tai64N, indexI: u32,
      indexR: u32)
    ensures RunExchange(si, sr, ei, er, pskI, pskR, stamp, indexI, indexR).Some? <==> pskI == pskR
    ensures pskI == pskR ==>
              var x := RunExchange(si, sr, ei, er, pskI, pskR, stamp, indexI, indexR).value;
              && x.consumed.timestamp == stamp && x.consumed.staticPublic == Pub(si)
              && x.consumed.chain == x.inflight.chain && x.consumed.hash == x.inflight.hash
              && x.initiator.send == x.responder.recv && x.initiator.recv == x.responder.send
              && x.initiator.send != x.initiator.recv
              && x.initiator.localIndex == x.responder.peerIndex == indexI
              && x.responder.localIndex == x.initiator.peerIndex == indexR
              && x.initiator.isInitiator && !x.responder.isInitiator
  {
    hide CreateInitiation, ConsumeInitiation, CreateResponse, ConsumeResponse, SharedSecret, DhTerm;
    StaticSecret(si, sr);
    var ss := SharedSecret(si, Pub(sr)).value;
    InitiationIsConsumed(si, sr, ss, ei, stamp, indexI);
    var first := CreateInitiation(Pub(si), Pub(sr), ss, indexI, ei, stamp, HANDSHAKE_INITIATION_LEN).value;
    var consumed := ConsumeInitiation(sr, Pub(sr), Pub(si), ss, first.1).value;
    ResponseIsConsumed(first.0, consumed, si, er, pskI, pskR, indexR);
  }

  lemma StaticSecret(si: Name, sr: Name)
    ensures SharedSecret(si, Pub(sr)).Ok? && SharedSecret(si, Pub(sr)) == SharedSecret(sr, Pub(si))
  {
    DhCommutes(si, sr);
  }

  /** If the initiator accepts a response that any responder state produced, then that
      responder had the same chain, the same transcript hash and the same pre-shared key,
      and the two ends hold the same keys. */
  lemma AcceptanceImpliesAgreement(inflight: InFlight, si: Name, pskI: Term, consumed: Consumed, pskR: Term,
                                   indexR: u32, er: Name, msg: ResponseBody)
    requires CreateResponse(consumed, pskR, indexR, er, HANDSHAKE_RESPONSE_LEN).Ok?
    requires msg.encNothing == CreateResponse(consumed, pskR, indexR, er, HANDSHAKE_RESPONSE_LEN).value.1.encNothing
    requires ConsumeResponse(inflight, si, pskI, msg).Ok?
    ensures inflight.chain == consumed.chain && inflight.hash == consumed.hash && pskI == pskR
    ensures msg.ephemeral == Pub(er)
    ensures var mine := ConsumeResponse(inflight, si, pskI, msg).value;
            var theirs := CreateResponse(consumed, pskR, indexR, er, HANDSHAKE_RESPONSE_LEN).value.0;
            mine.send == theirs.recv && mine.recv == theirs.send
  {}

  /** If the responder accepts a stamp ciphertext that any initiator produced, then that
      initiator used the same ephemeral key and static secrets, addressed this responder,
      and holds the same chain and hash. */
  lemma AcceptedInitiationIsGenuine(si: Name, sr: Name, peerI: Term, ssI: Term, ssR: Term, ei: Name, stamp: Tai64N,
      index: u32,
                                    peerR: Term, msg: InitiationBody)
    requires CreateInitiation(Pub(si), peerI, ssI, index, ei, stamp, HANDSHAKE_INITIATION_LEN).Ok?
    requires msg.encTimestamp
             == CreateInitiation(Pub(si), peerI, ssI, index, ei, stamp, HANDSHAKE_INITIATION_LEN).value.1.encTimestamp
    requires ConsumeInitiation(sr, Pub(sr), peerR, ssR, msg).Ok?
    ensures var c := ConsumeInitiation(sr, Pub(sr), peerR, ssR, msg).value;
            var f := CreateInitiation(Pub(si), peerI, ssI, index, ei, stamp, HANDSHAKE_INITIATION_LEN).value.0;
            && peerI == Pub(sr) && peerR == Pub(si) && ssI == ssR
            && c.ephemeral == Pub(ei) && c.timestamp == stamp
            && c.chain == f.chain && c.hash == f.hash
  {}
}
