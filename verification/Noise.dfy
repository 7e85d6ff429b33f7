/** `src/noise.rs`: the four functions of the Noise IKpsk2 handshake, as key schedules
    over symbolic terms. */
module Noise {
  import opened Machine
  import opened Time
  import opened Sessions
  import opened Terms
  import Labels

  const CONSTRUCTION: Term := Atom(Labels.Ascii(Labels.CONSTRUCTION))
  const IDENTIFIER: Term := Atom(Labels.Ascii(Labels.IDENTIFIER))
  const CK0: Term := Hash(CONSTRUCTION, EMPTY)
  const H0: Term := Hash(CK0, IDENTIFIER)

  datatype InFlight = InFlight(localIndex: u32, eph: Name, chain: Term, hash: Term)

  /** An initiation without its two MACs. */
  datatype InitiationBody = InitiationBody(sender: u32, ephemeral: Term, encStatic: Term, encTimestamp: Term)

  datatype ResponseBody = ResponseBody(sender: u32, receiver: u32, ephemeral: Term, encNothing: Term)

  datatype Consumed = Consumed(
    peerIndex: u32, staticPublic: Term, timestamp: Tai64N, ephemeral: Term, chain: Term, hash: Term)

  type SessionKeys = KeyPair<Term>

  function CreateInitiation(localPublic: Term, peerPublic: Term, ss: Term, localIndex: u32, eph: Name,
                            timestamp: Tai64N, outLen: nat): (r: Result<(InFlight, InitiationBody)>)
    ensures r.Err? ==> r.error == BufferTooSmall || r.error == InvalidPublicKey
  {
    if outLen < HANDSHAKE_INITIATION_LEN then Err(BufferTooSmall) else
    var ephPublic := Pub(eph);
    var ck := Kdf(1, CK0, ephPublic);
    var h := Hash(Hash(H0, peerPublic), ephPublic);
    var es := SharedSecret(eph, peerPublic);
    if es.Err? then Err(es.error) else
    var encStatic := Seal(Kdf(2, ck, es.value), 0, h, localPublic);
    var ck := Kdf(1, ck, es.value);
    var h := Hash(h, encStatic);
    var encTimestamp := Seal(Kdf(2, ck, ss), 0, h, Atom(timestamp));
    var ck := Kdf(1, ck, ss);
    var h := Hash(h, encTimestamp);
    Ok((InFlight(localIndex, eph, ck, h), InitiationBody(localIndex, ephPublic, encStatic, encTimestamp)))
  }

  function ConsumeInitiation(localStatic: Name, localPublic: Term, peerPublic: Term, ss: Term,
                             msg: InitiationBody): (r: Result<Consumed>)
    ensures r.Err? ==> r.error == InvalidPublicKey || r.error == AuthFailure || r.error == UnknownPeer
  {
    var ck := Kdf(1, CK0, msg.ephemeral);
    var h := Hash(Hash(H0, localPublic), msg.ephemeral);
    var es := SharedSecret(localStatic, msg.ephemeral);
    if es.Err? then Err(es.error) else
    var staticPublic := Open(Kdf(2, ck, es.value), 0, h, msg.encStatic);
    if staticPublic.None? then Err(AuthFailure) else
    if staticPublic.value != peerPublic then Err(UnknownPeer) else
    var ck := Kdf(1, ck, es.value);
    var h := Hash(h, msg.encStatic);
    var timestamp := Open(Kdf(2, ck, ss), 0, h, msg.encTimestamp);
    if timestamp.None? || !timestamp.value.Atom? || |timestamp.value.bytes| != 12 then Err(AuthFailure) else
    Ok(Consumed(msg.sender, staticPublic.value, timestamp.value.bytes, msg.ephemeral,
                Kdf(1, ck, ss), Hash(h, msg.encTimestamp)))
  }

  function CreateResponse(consumed: Consumed, psk: Term, localIndex: u32, eph: Name, outLen: nat)
    : (r: Result<(SessionKeys, ResponseBody)>)
    ensures r.Err? ==> r.error == BufferTooSmall || r.error == InvalidPublicKey
  {
    if outLen < HANDSHAKE_RESPONSE_LEN then Err(BufferTooSmall) else
    var ephPublic := Pub(eph);
    var ck := Kdf(1, consumed.chain, ephPublic);
    var h := Hash(consumed.hash, ephPublic);
    var ee := SharedSecret(eph, consumed.ephemeral);
    if ee.Err? then Err(ee.error) else
    var ck := Kdf(1, ck, ee.value);
    var se := SharedSecret(eph, consumed.staticPublic);
    if se.Err? then Err(se.error) else
    var ck := Kdf(1, ck, se.value);
    var h := Hash(h, Kdf(2, ck, psk));
    var encNothing := Seal(Kdf(3, ck, psk), 0, h, EMPTY);
    var ck := Kdf(1, ck, psk);
    Ok((SessionKeys(Kdf(2, ck, EMPTY), Kdf(1, ck, EMPTY), localIndex, consumed.peerIndex, false),
        ResponseBody(localIndex, consumed.peerIndex, ephPublic, encNothing)))
  }

  function ConsumeResponse(inflight: InFlight, localStatic: Name, psk: Term, msg: ResponseBody)
    : (r: Result<SessionKeys>)
    ensures r.Err? ==> r.error == InvalidPublicKey || r.error == AuthFailure
  {
    var ck := Kdf(1, inflight.chain, msg.ephemeral);
    var h := Hash(inflight.hash, msg.ephemeral);
    var ee := SharedSecret(inflight.eph, msg.ephemeral);
    if ee.Err? then Err(ee.error) else
    var ck := Kdf(1, ck, ee.value);
    var se := SharedSecret(localStatic, msg.ephemeral);
    if se.Err? then Err(se.error) else
    var ck := Kdf(1, ck, se.value);
    var h := Hash(h, Kdf(2, ck, psk));
    var nothing := Open(Kdf(3, ck, psk), 0, h, msg.encNothing);
    if nothing != Some(EMPTY) then Err(AuthFailure) else
    var ck := Kdf(1, ck, psk);
    Ok(SessionKeys(Kdf(1, ck, EMPTY), Kdf(2, ck, EMPTY), inflight.localIndex, msg.sender, true))
  }
}
