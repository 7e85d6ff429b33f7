# Verified model of wireguard-sans-io

A model, in Dafny, of a sans-I/O WireGuard implementation: the tunnel state machine that an
embedder drives with `encapsulate`, `decapsulate`, `poll` and `next_wake`, the handshake and
cookie protocols under it, and the byte-level cryptography and wire formats under those.

`dafny verify dfyconfig.toml` checks the whole project.

## How it is laid out

- **Foundations**: `Machine` (integer widths, errors, results), `Arith`, `Bytes`, `Time`, `Labels`.
- **Protocol model**: `Terms` is a free term algebra for the primitives, with Diffie-Hellman
  commuting as its one equation. `Noise`, `Cookie`, `Rotation`, `Sessions`, `Timers`, `Replay` and
  `TunnelModel` give every operation as a step on values. `Tunnel` holds the objects that run:
  sessions with their replay windows, timers, the cookie jar and the caller's buffer. Its methods
  write in the order of the source and contain the branches that report internal errors; each is
  proved to perform the model's step, in which there are none. `Driver` runs the polling loop.
- **What every run keeps**: `TunnelInvariant`, `Polling`, `TunnelRuns`, `TunnelAttempts`,
  `TunnelEffects`, `KeyAgreement`, `FirstFlight`.
- **Two parties and an adversary**: `Adversary`, `Network`, `NetworkProof`, `NetworkReach`.
- **Bytes**: `Poly1305`, `Field25519`, `X25519`, `Blake2s`, `Kdf`, `ChaCha20`, `ChaChaSimd`, `Aead`,
  `Message`, `Transport`; `NoiseBytes` and `CookieBytes` are the handshake and the cookies on real
  bytes, `Endpoint` is `decapsulate` and `send_initiation` on byte strings and arrays, and
  `OverTheWire` lets two endpoints talk.
- **Terms and bytes**: `Realization` and `Simulation`: whatever the protocol model sends or accepts,
  the endpoint sends or accepts in the bytes the terms stand for.

Integers are unbounded in Dafny, so every wrapping, saturating or truncating operation of the
source is written out and shown to be exact where the source relies on it. Time, entropy and the
size of the output buffer are arguments; a failed entropy draw is a `None`. A datagram that does
not parse is a `None` in the protocol model.

## Where code and comments differ

- `next_wake` is documented as the earliest instant at which `poll` may have work. It can be later:
  when persistent keepalive outlives the current session, `poll` revives the tunnel as soon as the
  session dies, while the advertised deadline still counts on it. `Polling.NoEarlyAction` gives the
  exact condition and `FirstFlight.EarlyRevivalHappens` a reachable example.
- The comment on `Now::unix_secs` says that a wall clock stepping back makes the peer reject our
  initiations. The ratchet in `send_initiation` prevents that for stamps of one tunnel:
  `TunnelRuns.InitiationDiscipline`.
- The comment on `Fe::mul` bounds the accumulators by 2^109 for limbs below 2^52.6. For limbs up to B
  they stay below 2^109 if and only if 77 B^2 does (`Field25519.AccumulatorsBelowIff`), and at the
  limbs of the ladder the first one passes 2^111 (`Field25519.LadderAccumulators`). The bound on the
  fold, 2^62, holds (`Field25519.CarryFold`), and nothing wraps (`Field25519.MulExact`).
- The comments in Poly1305's `process_block` say that the limbs stay below 2^27 after adding a block, the
  second one with its extra carry included. The second limb does so for every block if and only if
  it was at most 2^26 (`Poly1305.SecondLimbBelowIff`), and a key and two blocks take it past 2^27
  (`Poly1305.SecondLimbReaches27`). Nothing wraps: `Poly1305.MulRowsExact`.
- `padded_len` is documented never to return less than the payload length. It does so for lengths
  within fifteen of `usize::MAX` when no MTU is set, and only then (`Transport.PaddedLenExact`,
  `Transport.LongestIsCut`); no datagram is cut, because the buffer check fails first
  (`Transport.CutNeverSent`).

## Model

| member | source | states |
|---|---|---|
| `NetworkProof.DeliveredOnceFromPeer` | src/tunnel.rs:1180-1277 | Two tunnels, any keys, keepalives, MTUs, clocks and interleaving, over a network that drops, duplicates, reorders and forges: in every run each delivery is the padded form of a payload the peer sealed under that key and counter, no sealed message is delivered twice however sessions move between slots, and no key and counter seal two messages |
| `NetworkProof.NetRunKeeps` | src/tunnel.rs:558-715 | The system invariant (genuine keys in every slot, records behind counters and windows, log explained by records) survives every admissible run |
| `NetworkProof.NetStepKeeps` | src/tunnel.rs:451-949 | One step of either party, whatever the operation and the adversary's datagram, keeps the system invariant |
| `NetworkReach.HonestPacketsDeliverable` | src/tunnel.rs:451-949 | Whatever an honest step puts on the wire is a datagram the network may carry from then on, so honest schedules are among the runs of the safety theorem |
| `Adversary.InitiationAuthentic` | src/noise.rs:253-325 | An initiation that the responder accepts from a Dolev-Yao adversary was sealed by the peer with a drawn ephemeral, and the chain, hash and stamp are that peer's |
| `Adversary.ResponseAuthentic` | src/noise.rs:408-464 | A response that the initiator accepts answers this very handshake: it comes from the other party's ephemeral and yields the two transport keys of the pair |
| `Adversary.TransportAuthentic` | src/crypto/aead.rs:143-169 | A derivable ciphertext that opens under a genuine transport key is one that the other end sealed |
| `Adversary.DecryptionGainsNothing` | src/crypto/aead.rs:143-169 | The derivability relation is closed under decryption with keys the adversary holds |
| `Adversary.HonestKeysAreSecret` | src/noise.rs:134-464 | No key under which an honest party seals is derivable, whatever has been logged |
| `Adversary.TransportKeyInjective` | src/noise.rs:332-464 | A transport key determines its direction, both ephemerals and the pre-shared key |
| `FirstFlight.FirstPayloadArrives` | src/tunnel.rs:451-715 | End to end, for every non-empty payload, pre-shared key, MTU and pair of clocks within 180 s: initiation, response, payload; the other side delivers exactly the padded payload, promotes its session and holds mirrored keys |
| `Polling.NoBusyLoop` | src/tunnel.rs:725-927 | After an idle poll the next wake-up is absent or strictly later than the clock if and only if the clock is below the saturation point or nothing is armed |
| `Polling.ReachableNoBusyLoop` | src/tunnel.rs:725-927 | The same for every reachable state and every clock below `u64::MAX` |
| `Polling.NoEarlyAction` | src/tunnel.rs:725-927 | Before the advertised wake-up `poll` is idle if and only if the early-revival guard is false: persistent keepalive on, current usable at the last call and dead now, nothing in flight, pacing and back-off elapsed |
| `Polling.ReachableNoEarlyAction` | src/tunnel.rs:850-927 | Without persistent keepalive, or while the usability of current is what it was, no reachable state acts before its wake-up |
| `FirstFlight.EarlyRevivalHappens` | src/tunnel.rs:850-927 | A reachable state that advertises 300 s and starts a handshake when polled at 200 s: the wake-up is not always the earliest instant with work |
| `Polling.PollIdleIff` | src/tunnel.rs:725-844 | `poll` returns Idle exactly when no obligation is due, whatever entropy and buffer it is given, and then changes only what it disarms |
| `Polling.PollDecreases` | src/tunnel.rs:725-844 | Every successful non-idle poll at a fixed clock lowers a measure over the handshake slot and the keepalives |
| `Polling.PollDrains` | src/tunnel.rs:715-844 | At one clock reading at most three polls in a row do something, from every reachable state |
| `Polling.IdleIsStable` | src/tunnel.rs:725-844 | After an idle poll every further poll at the same reading is idle and changes nothing |
| `TunnelInvariant.ReachableInv` | src/tunnel.rs:451-999 | In every reachable state: current and previous are confirmed, next is an unconfirmed responder session that has sent nothing, all live indices including the in-flight one differ, nothing on record is in the future, and the pacing facts between calls hold |
| `TunnelInvariant.StepKeeps` | src/tunnel.rs:451-999 | Each operation, on any arguments, keeps that invariant |
| `TunnelEffects.RejectionIsAtomic` | src/tunnel.rs:558-715 | In the specification every error of `decapsulate` leaves everything but the clamped clock unchanged; `Tunnel.Tunnel.Decapsulate` and `Endpoint.Endpoint.Decapsulate` carry this over to the code with its write order and its internal-error branches |
| `TunnelEffects.SealsOnlyOnUsableSession` | src/tunnel.rs:484-532 | Any step that emits a transport message does so on the confirmed current session, younger than 180 s, with a counter below the limit, and moves the counter past it |
| `TunnelEffects.DecapsulateEffects` | src/tunnel.rs:558-715 | Every outcome of `decapsulate` classified: rejected, answered, completed, cookie stored, or delivered, with what each leaves in the slots |
| `TunnelEffects.EncapsulateEffects` | src/tunnel.rs:451-532 | Every outcome of `encapsulate` classified: refused, initiation sent, or payload sealed on current |
| `TunnelEffects.PollEffects` | src/tunnel.rs:725-844 | Every outcome of `poll` classified by what it does to slots, in-flight handshake and counters |
| `TunnelRuns.InitiationDiscipline` | src/tunnel.rs:1096-1149 | Over every run, whatever sends them and across resets: the n-th later initiation leaves at least n times 5 s later on the clamped clock, and stamps strictly increase until all ones, whatever the wall clock does |
| `TunnelRuns.StepRecords` | src/tunnel.rs:451-999 | A step that sends an initiation leaves its instant and stamp on record, advanced past the previous ones; no other step touches the record |
| `TunnelRuns.NoInitiationAcceptedTwice` | src/tunnel.rs:610-631 | Over every run, resets included: stamps of accepted initiations strictly increase, so no initiation is accepted twice |
| `TunnelRuns.StepAccepts` | src/tunnel.rs:610-631 | A step that answers an initiation records its stamp strictly above the previous one; no other step, `reset` included, changes the record |
| `TunnelAttempts.AtMostEighteen` | src/timers.rs:73-112 | One attempt driven only by polls sends at most 18 initiations, from every reachable start |
| `TunnelAttempts.EighteenIsReached` | src/tunnel.rs:754-766 | The bound is tight: from a state that a run reaches, 18 initiations are sent and the next poll abandons the attempt |
| `Tunnel.Tunnel.New` | src/tunnel.rs:393-440 | A new tunnel, or the error for a peer key equal to our own or of low order |
| `Tunnel.Tunnel.Encapsulate` | src/tunnel.rs:451-532 | The object performs the step of the model on its whole state; the buffer holds the datagram on success and is untouched on error; no branch that reports `Internal` is taken |
| `Tunnel.Tunnel.Decapsulate` | src/tunnel.rs:558-715 | For every datagram the object performs the model's step; on every error the buffer and everything but the clamped clock are as before, and the error is never `Internal`, although the buffer is written before the MACs are filled in and before the window accepts; new objects are fresh |
| `Tunnel.Tunnel.ReceiveInitiation` | src/tunnel.rs:569-631 | The initiation branch: MAC, cookie gate, handshake, stamp check, response with zero MACs in the buffer, MACs, commit of three fields; nothing fails from the first write on |
| `Tunnel.Tunnel.ReceiveResponse` | src/tunnel.rs:632-678 | The response branch: MAC, index, cookie gate, keys, rotation of current into previous |
| `Tunnel.Tunnel.ReceiveCookie` | src/tunnel.rs:679-711 | The cookie branch: known index, then the last initiation's MAC, then the last response's |
| `Tunnel.Tunnel.ReceiveTransport` | src/tunnel.rs:1180-1277 | The transport branch on live session objects: the plaintext is in the buffer before `accept`, whose refusal would wipe it and report `Internal`; that never happens |
| `Tunnel.Tunnel.Admit` | src/tunnel.rs:1224-1238 | `accept` refuses exactly a counter that is not fresh, reports that as `Internal` and then changes nothing; else the counter enters the window and the session is confirmed |
| `Tunnel.Tunnel.Poll` | src/tunnel.rs:725-844 | The object performs the model's poll; the buffer changes only when a datagram is sent; no error is `Internal` |
| `Tunnel.Tunnel.NextWake` | src/tunnel.rs:850-927 | The loop over seven candidates returns the model's next wake-up |
| `Tunnel.Tunnel.InitiateHandshake` | src/tunnel.rs:935-949 | The explicit handshake, rate limit included, is the model's step; no error is `Internal` |
| `Tunnel.Tunnel.SendInitiation` | src/tunnel.rs:1096-1149 | Draws and handshake first, then the message with zero MACs into the buffer, then the MACs, then four records: every error comes before the first write and leaves tunnel and buffer as they were |
| `Tunnel.Tunnel.SendKeepalive` | src/tunnel.rs:1152-1178 | An empty payload sealed on current, with its timers and rekey flag |
| `Tunnel.Tunnel.FreshIndex` | src/tunnel.rs:1077-1093 | The loop of at most 32 draws returns the first index that clashes with nothing live, or an entropy failure |
| `Tunnel.Tunnel.Reset` | src/tunnel.rs:997-1041 | All sessions, handshake, cookie and MAC records dropped; pacing and timestamp protection kept |
| `Tunnel.Tunnel.ClampNow` | src/tunnel.rs:1005-1015 | The clock never runs backwards from the tunnel's point of view |
| `Tunnel.Tunnel.SetMtu` | src/tunnel.rs:976-978 | Only the configured MTU changes |
| `Sessions.LiveSession.NextCounter` | src/session.rs:52-59 | Each counter below the limit is handed out once; at the limit nothing is; the checked addition never overflows |
| `Sessions.LiveSession.constructor` | src/session.rs:26-35 | A new session has an empty window, counter zero, and is confirmed exactly on the initiator's side |
| `TunnelModel.FreshIndex` | src/tunnel.rs:1077-1093 | A returned index clashes with no session and no in-flight handshake; the only error is an entropy failure |
| `Timers.DeadlinesMatchPredicates` | src/timers.rs:109-167 | Each deadline accessor names exactly the first instant at which its predicate holds, below clock saturation |
| `Timers.TimerSet.NoteInitiationTx` | src/timers.rs:73-83 | Attempt start kept, pacing and retransmission instants set with clamped jitter, rekey flag cleared |
| `Timers.TimerSet.NoteDataTx` | src/timers.rs:48-53 | Data sent: both transmit instants, confirmation and give-up cleared |
| `Timers.TimerSet.NoteKeepaliveTx` | src/timers.rs:56-59 | Keepalive sent: the any-transmit instant only |
| `Timers.TimerSet.NoteRx` | src/timers.rs:62-68 | Anything received revives; only data arms the passive keepalive |
| `Timers.TimerSet.NoteHandshakeComplete` | src/timers.rs:86-91 | Attempt over: no retransmission, no rekey due, not given up |
| `Timers.TimerSet.NoteGaveUp` | src/timers.rs:94-99 | Attempt abandoned: as complete, but given up |
| `Time.TickIsSuccessor` | src/time.rs:153-163 | `tick` is the 96-bit successor in byte order, the least stamp above its argument, and stays put at all ones |
| `Time.TickInPlace` | src/time.rs:153-163 | The carry loop over a copy of the bytes computes it |
| `Time.LexIsNumeric` | src/time.rs:103-111 | Comparing the bytes lexicographically is comparing the big-endian numbers |
| `Time.StampsAreChronological` | src/time.rs:122-132 | Stamps of two wall-clock readings compare as the readings do: by second, saturated, then by the nanoseconds whitening keeps |
| `Time.StampOrder` | src/time.rs:110-111 | Less-than on stamps is a strict total order |
| `Time.DeadlineAheadIff` | src/time.rs:44-53 | A deadline is ahead exactly while less than its delay has elapsed, below clock saturation |
| `Replay.ReplayWindow.Check` | src/replay.rs:66-77 | `check` holds exactly when the counter is below the limit, never accepted, and no accepted counter is 8128 or more ahead |
| `Replay.ReplayWindow.Accept` | src/replay.rs:83-119 | Returns the same verdict and adds the counter to the accepted set; the bitmap keeps agreeing with the set |
| `Replay.ReplayWindow.ClearSkipped` | src/replay.rs:97-114 | The loop clears exactly the words the jump enters |
| `Replay.ReplayWindow.GetBit` | src/replay.rs:127-131 | The bit of a counter in the circular bitmap |
| `Replay.ReplayWindow.SetBit` | src/replay.rs:133-139 | That bit set and no other |
| `Replay.SlideKeeps` | src/replay.rs:92-118 | Sliding loses no in-window word and leaves no stale bit |
| `Replay.SetBitEffect` | src/replay.rs:127-139 | Counters within one turn of the ring never share a bit |
| `Replay.NeverFreshAgain` | src/replay.rs:66-119 | After any later schedule of arrivals a counter once refused stays refused |
| `Cookie.CookieOutlivesRotation` | src/cookie.rs:115-197 | A cookie minted at T verifies for its remote under any schedule of further replies none of which reads past T + 120 s, monotone or not |
| `Cookie.CookieIsForgotten` | src/cookie.rs:115-197 | One nanosecond more is too much: minted at T just before a rotation, the cookie fails after two replies at T + 1 ns and T + 120 s + 1 ns |
| `Cookie.SecretServesIff` | src/cookie.rs:115-197 | Over all schedules that never read past a bound, the secret of a jar keeps verifying if and only if the bound stays short of 240 s after the rotation |
| `Cookie.ZeroSecretNeverServes` | src/cookie.rs:104-197 | Whatever verifies was made with a secret drawn from entropy, never with the all-zero one |
| `Cookie.NoncesNeverRepeat` | src/cookie.rs:157-169 | Two replies of one run carry different nonces while fewer than 2^192 replies lie between them |
| `Rotation.NonceAdvances` | src/cookie.rs:157-169 | The three-word increment is the 192-bit successor with wrap-around |
| `Rotation.CookieJar.RotateIfNeeded` | src/cookie.rs:115-154 | Rotation in place; all entropy is drawn first, and a failed draw changes nothing |
| `Rotation.CookieJar.TakeNonce` | src/cookie.rs:157-169 | The nonce counter advanced by one, carries included |
| `Cookie.Reply` | src/cookie.rs:248-279 | Mint, nonce, seal, length check: the check after the nonce is taken never fails, so on any error the jar is as it was, and no error is `Internal` |
| `Cookie.Verify` | src/cookie.rs:186-197 | Accepts exactly a MAC under the current or the real previous secret, and nothing while unprimed |
| `KeyAgreement.ExchangeAgrees` | src/noise.rs:134-464 | For all keys, ephemerals, stamps and indices the exchange goes through exactly when the pre-shared keys agree; then transcripts are equal, sending and receiving keys mirror each other, the directions differ and indices cross |
| `KeyAgreement.AcceptanceImpliesAgreement` | src/noise.rs:332-464 | If the initiator accepts, the responder had the same chain, hash, pre-shared key and keys |
| `KeyAgreement.AcceptedInitiationIsGenuine` | src/noise.rs:134-325 | If the responder accepts a stamp ciphertext, its maker used the same ephemeral and statics, addressed this responder, and holds the same chain and hash |
| `KeyAgreement.InitiationIsConsumed` | src/noise.rs:134-325 | `consume_initiation` inverts `create_initiation` |
| `KeyAgreement.ResponseIsConsumed` | src/noise.rs:332-464 | `consume_response` inverts `create_response` exactly when the pre-shared keys are equal |
| `Poly1305.MacOfParts` | src/crypto/poly1305.rs:154-293 | For every key and every split of the message into updates the tag is the polynomial of section 2.5 of RFC 8439 modulo 2^130 - 5, plus s modulo 2^128 |
| `Poly1305.Authenticator.ProcessBlock` | src/crypto/poly1305.rs:80-150 | No operation wraps, the limbs stay within the documented bound, and the value becomes (h + block + hibit) r modulo 2^130 - 5 |
| `Poly1305.Authenticator.Update` | src/crypto/poly1305.rs:154-190 | However the buffer is filled, everything absorbed so far grows by exactly `data` |
| `Poly1305.Authenticator.UpdatePadded` | src/crypto/poly1305.rs:193-202 | `data` and zeros up to a block boundary are absorbed |
| `Poly1305.Authenticator.Finalize` | src/crypto/poly1305.rs:209-293 | The tag of everything absorbed, for an empty, partial or full last block |
| `Poly1305.Authenticator.constructor` | src/crypto/poly1305.rs:52-75 | Clamped key limbs, pad words, an empty state |
| `Poly1305.SecondLimbBelowIff` | src/crypto/poly1305.rs:81-90 | With a block added the second limb stays below 2^27 for every block if and only if it was at most 2^26; the other four always do |
| `Poly1305.SecondLimbReaches27` | src/crypto/poly1305.rs:81-150 | Under the key of all ones one block takes the second limb to 2^26 + 3 and the next block takes it past 2^27 |
| `Poly1305.MulRowsExact` | src/crypto/poly1305.rs:92-128 | The five product rows never exceed a `u64` and are congruent to the product |
| `Poly1305.CarryChainReduces` | src/crypto/poly1305.rs:130-149 | The carry chain is the identity modulo 2^130 - 5 and restores the limb bounds |
| `Poly1305.KeyLimbsValue` | src/crypto/poly1305.rs:52-62 | The masked limbs are the clamped r |
| `Poly1305.SubtractOnceReduces` | src/crypto/poly1305.rs:240-262 | The masked conditional subtraction leaves the unique representative below 2^130 - 5 |
| `Poly1305.FinishIsTag` | src/crypto/poly1305.rs:222-293 | Carry, subtraction, packing and the 128-bit addition produce the tag bytes |
| `X25519.ScalarMult` | src/crypto/x25519.rs:321-361 | For every scalar and every u-coordinate the 255-step limb ladder with delayed swaps returns the bytes of section 5 of RFC 7748, computed on integers by doubling and differential addition |
| `X25519.StepTracks` | src/crypto/x25519.rs:340-353 | One iteration keeps the limb bounds and performs the reference step for its bit |
| `X25519.SwapTracks` | src/crypto/x25519.rs:335-338 | Settling the pending swap against the next bit leaves that bit pending: the delayed swaps are the plain branch |
| `X25519.Invert` | src/crypto/x25519.rs:271-291 | The addition chain reaches exactly the power 2^255 - 21 |
| `X25519.NSquare` | src/crypto/x25519.rs:272-277 | n squarings raise to the power 2^n |
| `X25519.ClampScalarValue` | src/crypto/x25519.rs:307-316 | Clamping the bytes clears bits 0 to 2 and 255 and sets bit 254 of the integer |
| `X25519.BitOfBytes` | src/crypto/x25519.rs:331-334 | The byte-and-shift lookup reads bit t of the scalar |
| `X25519.MaskedExchange` | src/crypto/x25519.rs:295-302 | One limb of `cswap`: the masked exclusive-or of the difference exchanges two 64-bit words exactly when the bit is one |
| `X25519.CSwap` | src/crypto/x25519.rs:295-302 | The exchange the ladder runs, five masked limbs at a time: exactly when the bit is one |
| `X25519.Base` | src/crypto/x25519.rs:370-372 | The public key: the scalar multiple of u = 9 |
| `X25519.ClampedTwice` | src/crypto/x25519.rs:307-330 | A clamped scalar multiplies like the scalar it came from |
| `X25519.SharedSecret` | src/crypto/x25519.rs:380-387 | The scalar multiple, or an error exactly when that is all zero |
| `X25519.ZeroPointRejected` | src/crypto/x25519.rs:376-387 | Every encoding of u = 0, canonical or not, gives the all-zero result for every scalar |
| `Field25519.MulExact` | src/crypto/x25519.rs:167-208 | On limbs up to 3 * 2^51 + 2^13 nothing wraps, the result is the product modulo 2^255 - 19, and its limbs are weakly reduced |
| `Field25519.SquareIsMul` | src/crypto/x25519.rs:219-239 | The symmetric shortcut gives the same limbs as `mul` |
| `Field25519.MulSmallExact` | src/crypto/x25519.rs:264-268 | The same for a 32-bit factor |
| `Field25519.AccumulatorsBelowIff` | src/crypto/x25519.rs:160-208 | For limbs up to a bound B all accumulators stay below 2^109 if and only if 77 B^2 does |
| `Field25519.LadderAccumulators` | src/crypto/x25519.rs:160-208 | At the limbs that `add` and `sub` hand to `mul` the first accumulator passes 2^111 |
| `Field25519.CarryFold` | src/crypto/x25519.rs:243-260 | The carry out of the top limb times 19 stays below 2^62 and folds into the bottom two limbs without wrapping |
| `Field25519.CarryExact` | src/crypto/x25519.rs:243-260 | The carry chain is the identity modulo 2^255 - 19 and leaves weakly reduced limbs |
| `Field25519.AddExact` | src/crypto/x25519.rs:134-144 | The sum of weak operands is exact and acceptable to `mul` |
| `Field25519.SubExact` | src/crypto/x25519.rs:148-158 | The difference of weak operands never underflows a limb and is congruent |
| `Field25519.FromBytes` | src/crypto/x25519.rs:55-68 | Decoding keeps the low 255 bits of the integer |
| `Field25519.ToBytes` | src/crypto/x25519.rs:72-130 | Encoding gives the unique representative below 2^255 - 19 |
| `Blake2s.HashParts` | src/crypto/blake2s.rs:279-285 | Every split of the input gives the digest of section 3.3 of RFC 7693 of the concatenation, the empty message included |
| `Blake2s.MacParts` | src/crypto/blake2s.rs:289-295 | The same keyed, with keys over 32 bytes hashed first |
| `Blake2s.Core.Update` | src/crypto/blake2s.rs:133-151 | What has been absorbed grows by exactly `data`, with the last full block held back |
| `Blake2s.Core.Finalize` | src/crypto/blake2s.rs:153-165 | Byte count, zero padding and final flag give the reference digest |
| `Blake2s.Core.constructor` | src/crypto/blake2s.rs:110-131 | The parameter word, and a zero-padded key as first block |
| `Blake2s.Core.Flush` | src/crypto/blake2s.rs:135-142 | A held-back block is compressed with the running byte count |
| `Blake2s.CompressInPlace` | src/crypto/blake2s.rs:63-93 | The in-place rounds compute the compression function of section 3.2 |
| `Blake2s.G` | src/crypto/blake2s.rs:48-57 | The in-place mix of four words |
| `ChaChaSimd.Avx2Apply` | simd/src/avx2.rs:52-75 | For every key, nonce, counter and length the four-block backend leaves the same bytes as the scalar keystream, with its two kinds of tail |
| `ChaChaSimd.Avx2x8Apply` | simd/src/avx2.rs:230-258 | The same for the eight-block backend, with its three kinds of tail |
| `ChaChaSimd.ParallelBlocks` | simd/src/avx2.rs:84-432 | Splats, ten double rounds, feed-forward, transposes and stores produce the blocks of the lane counters in order |
| `ChaChaSimd.VQuarterLane` | simd/src/avx2.rs:107-118 | A vector quarter round is a scalar quarter round in every lane |
| `ChaChaSimd.VRotateLane` | simd/src/avx2.rs:88-106 | Byte shuffles and shift pairs rotate every lane |
| `ChaChaSimd.TransposeHalf` | simd/src/avx2.rs:175-190 | The unpack network transposes each 128-bit half |
| `ChaChaSimd.EmittedIsLane` | simd/src/avx2.rs:376-432 | After the transposes each block's four stores write the words of its lane |
| `ChaChaSimd.FourConsecutive` | simd/src/avx2.rs:132-137 | The four lane counters, wrapping at 2^32, are consecutive |
| `ChaChaSimd.EightConsecutive` | simd/src/avx2.rs:318-327 | The eight lane counters likewise |
| `ChaChaSimd.FourBlocks` | simd/src/avx2.rs:84-216 | Four consecutive keystream blocks |
| `ChaChaSimd.EightBlocks` | simd/src/avx2.rs:266-432 | Eight consecutive keystream blocks |
| `ChaCha20.ScalarApply` | src/crypto/chacha20.rs:102-111 | The chunk loop is the keystream of section 2.4 of RFC 8439, for every length, with the counter wrapping |
| `ChaCha20.ScalarBlock` | src/crypto/chacha20.rs:24-93 | The block function with its ten double rounds |
| `ChaCha20.XorInto` | simd/src/lib.rs:118-122 | Exclusive or of a stretch of the buffer; nothing else changes |
| `ChaCha20.QuarterVector` | src/crypto/chacha20.rs:44-55 | The quarter round reproduces the vector of section 2.2.1 of RFC 8439 |
| `ChaCha20.XorStreamTwice` | src/crypto/chacha20.rs:95-111 | Applying the keystream twice restores the data |
| `ChaCha20.Stride` | src/crypto/chacha20.rs:102-111 | A stride of any number of blocks, whole or cut short, followed by the rest from the advanced counter, is the whole stream |
| `Aead.OpensIffSealed` | src/crypto/aead.rs:92-169 | A message opens to a plaintext exactly when it is the sealing of that plaintext |
| `Aead.Open` | src/crypto/aead.rs:143-169 | The exact error for each failure; the output buffer is untouched on every error and holds the plaintext only after the tag verified |
| `Aead.SealInPlace` | src/crypto/aead.rs:193-210 | Ciphertext and tag where they belong, the rest of the buffer untouched; a short buffer untouched entirely, for every backend |
| `Aead.Seal` | src/crypto/aead.rs:92-116 | The same out of place |
| `Aead.ComputeTag` | src/crypto/aead.rs:52-59 | The streamed tag is the tag of padded aad, padded ciphertext and both lengths |
| `Aead.MacDataInjective` | src/crypto/aead.rs:49-59 | The authenticated string determines aad and ciphertext |
| `Aead.NonceInjective` | src/crypto/aead.rs:33-36 | Distinct counters give distinct nonces |
| `Aead.XSeal` | src/crypto/aead.rs:216-228 | The extended-nonce sealing under the derived subkey |
| `Aead.XOpen` | src/crypto/aead.rs:234-246 | The exact error for each failure; the buffer is untouched on every error |
| `Aead.XOpensIffSealed` | src/crypto/aead.rs:216-246 | `xopen` gives a plaintext exactly when it is given the sealing of that plaintext |
| `Aead.CopyExact` | src/crypto/aead.rs:41-47 | A copy into a slice of the same length, `Internal` and no change otherwise |
| `Aead.CtEq` | src/crypto/ct.rs:10-21 | The accumulated difference is zero exactly when the strings are equal |
| `Message.ParseIffEncode` | src/message.rs:119-214 | A datagram parses to a message exactly when it is the encoding of that well-formed message; everything else is `InvalidPacket` |
| `Message.InitiationRoundTrip` | src/message.rs:283-305 | A built initiation with any two MACs in its slots parses back to its fields; the MACs cover the body, and the body with the first MAC |
| `Message.ResponseRoundTrip` | src/message.rs:312-334 | The same for a response |
| `Message.WritePieces` | src/message.rs:271-305 | Chunk after chunk into the buffer; `Internal` exactly when they do not fit together |
| `Message.MacSlots` | src/message.rs:389-403 | The two slots at the tail, exactly for the two handshake lengths; no other check in it can fail |
| `Message.BuildInitiation` | src/message.rs:283-305 | The message with zero MACs and nothing beyond it; a short buffer untouched; the chunk checks never fail |
| `Message.BuildResponse` | src/message.rs:312-334 | The same for a response |
| `Message.BuildCookieReply` | src/message.rs:340-359 | The exact encoding of the reply |
| `Message.WriteTransportHeader` | src/message.rs:366-381 | The sixteen header bytes and nothing else |
| `Message.IpPacketLen` | src/message.rs:431-451 | A returned length is at least a header and within the payload |
| `Message.TrimsPadding` | src/message.rs:431-451 | A packet that states its own size is recovered from under any padding |
| `Transport.PacketSurvives` | src/tunnel.rs:484-512 | An IP packet that states its own size survives padding, sealing, framing, parsing, opening and trimming unchanged |
| `Transport.WriteTransport` | src/tunnel.rs:484-512 | The staged, sealed and framed datagram in the caller's buffer, for every backend; a short buffer untouched |
| `Transport.LongestIsCut` | src/tunnel.rs:341-354 | The longest length is cut to a multiple of sixteen |
| `Transport.CutNeverSent` | src/tunnel.rs:484-488 | No datagram is cut for all that: the total saturates and no buffer is that long |
| `Transport.PaddedLenExact` | src/tunnel.rs:341-354 | On 64-bit words a payload is cut short if and only if no MTU is set and its length is within fifteen of the largest word; otherwise the size is the lesser of the next multiple of sixteen and the MTU while the payload fits the MTU, else the payload size |
| `Kdf.HmacParts` | src/crypto/kdf.rs:18-56 | HMAC of RFC 2104 over BLAKE2s of the concatenation, however it is cut, keys over a block hashed first |
| `Kdf.Kdf1` | src/crypto/kdf.rs:61-66 | The first output of the chain of section 2.3 of RFC 5869 |
| `Kdf.Kdf2` | src/crypto/kdf.rs:70-76 | The first two outputs |
| `Kdf.Kdf3` | src/crypto/kdf.rs:80-87 | The first three outputs |
| `NoiseBytes.NewConstants` | src/noise.rs:59-63 | The two initial hashes of the protocol strings |
| `NoiseBytes.CreateInitiation` | src/noise.rs:134-204 | The exact message with zero MACs and the exact state kept, or `BufferTooSmall` or `InvalidPublicKey` with the buffer untouched; neither seal nor assembly can fail |
| `NoiseBytes.ConsumeInitiation` | src/noise.rs:253-325 | Identity, stamp and transcript, or the exact error of the first step that fails |
| `NoiseBytes.CreateResponse` | src/noise.rs:332-399 | The exact message and both transport keys, or an error with the buffer untouched |
| `NoiseBytes.ConsumeResponse` | src/noise.rs:408-464 | Both transport keys, or the exact error |
| `NoiseBytes.InitiationArrives` | src/noise.rs:134-325 | With any MACs filled in, the bytes of an initiation parse, and the responder recovers the initiator's key, stamp, index and transcript |
| `NoiseBytes.ResponseArrives` | src/noise.rs:332-464 | The bytes of a response parse, and the initiator derives the responder's keys exchanged, with the indices crossed |
| `CookieBytes.NewMacKeys` | src/cookie.rs:37-44 | The four keys hashed from labels and public keys |
| `CookieBytes.ApplyMacs` | src/cookie.rs:219-234 | Both MACs in the slots of a buffer, the second one zero unless a cookie is fresh; refused before any write exactly when the length is no handshake message's |
| `CookieBytes.VerifyMac1` | src/cookie.rs:237-240 | Accepts exactly the MAC under the receiving key |
| `CookieBytes.VerifyMac2` | src/cookie.rs:186-197 | Accepts exactly a MAC under a cookie of the current or the real previous secret |
| `CookieBytes.BuildCookieReply` | src/cookie.rs:248-276 | The exact reply and the jar rotated and advanced by one nonce; sealing 16 bytes into 32 and assembling never fail, so the advanced nonce is never lost and every error leaves jar and buffer untouched |
| `CookieBytes.ConsumeCookieReply` | src/cookie.rs:285-301 | Stores what opens and refuses everything else |
| `Endpoint.Endpoint.Decapsulate` | src/tunnel.rs:558-715 | For every byte string and every buffer: state, result and buffer are the function `Decapsulated` of the call; an error leaves every byte of the buffer and every field but the clamped clock as it was and is never `Internal`, with the source's order of writes and every branch that reports it in place |
| `Endpoint.RejectionIsAtomic` | src/tunnel.rs:558-715 | In that function a rejection changes neither state nor buffer and is never an internal error |
| `Endpoint.WriteInitiation` | src/tunnel.rs:1128-1141 | `create_initiation` then `apply_macs` in one array: from the first write on nothing fails, so an error leaves every byte as it was; else exactly the message with both MACs, and the bytes behind it untouched |
| `Endpoint.WriteResponse` | src/tunnel.rs:618-623 | The same for `create_response` then `apply_macs` |
| `Endpoint.Endpoint.SendInitiation` | src/tunnel.rs:1096-1149 | Index, entropy, stamp ratchet, message, four records, as one function of the call; an error changes nothing |
| `Endpoint.Endpoint.ReceiveInitiation` | src/tunnel.rs:569-631 | The initiation arm on bytes, cookie gate included |
| `Endpoint.Endpoint.ReceiveResponse` | src/tunnel.rs:632-678 | The response arm on bytes |
| `Endpoint.Endpoint.ReceiveCookie` | src/tunnel.rs:679-711 | The cookie arm on bytes |
| `Endpoint.Endpoint.ReceiveTransport` | src/tunnel.rs:1180-1277 | The transport arm on bytes, for every keystream backend: exactly the plaintext in the buffer, the counter in the window, the session promoted |
| `Endpoint.Endpoint.Conclude` | src/tunnel.rs:1224-1277 | The window accepts what it was asked about before decryption, so the plaintext is never wiped |
| `Endpoint.Endpoint.FreshIndex` | src/tunnel.rs:1077-1093 | The loop of at most 32 draws |
| `OverTheWire.HandshakeOverTheWire` | src/tunnel.rs:570-678 | For all keys, indices, clocks, cookies and buffers the initiation one endpoint writes is answered by the other and the answer completes the handshake: keys mirror each other, indices cross, the stamp is on record |
| `OverTheWire.PayloadOverTheWire` | src/tunnel.rs:1180-1277 | The datagram of any payload, MTU and fresh counter under the key of a live session is delivered with exactly the padded payload in the buffer |
| `OverTheWire.CookieOverTheWire` | src/tunnel.rs:574-588 | A responder under load answers an initiation without proof of address with a cookie reply, and the initiator stores the very cookie the jar makes for its address |
| `OverTheWire.CookieOpensTheGate` | src/tunnel.rs:574-631 | Any initiation written within 120 s of storing that cookie is answered under load, from the same address, as long as the jar holds the secret |
| `Realization.InitiationRealized` | src/noise.rs:134-204 | Under any assignment of bytes to names the initiation of the term model is, field by field, what the byte-level function makes, and so is the state kept |
| `Realization.ConsumedRealized` | src/noise.rs:253-325 | What the responder accepts on terms it accepts on bytes, with the same outcome |
| `Realization.ResponseRealized` | src/noise.rs:332-399 | The same for the response and the responder's keys |
| `Realization.FinalKeysRealized` | src/noise.rs:408-464 | What the initiator accepts on terms it accepts on bytes, with the same keys |
| `Realization.MacsRealized` | src/cookie.rs:219-234 | The MAC terms stand for the bytes that `apply_macs` writes |
| `Realization.ImageLength` | src/noise.rs:134-464 | The length of a term is the length of the bytes it stands for |
| `Realization.ConstantsAreReal` | src/noise.rs:59-63 | The initial hashes of the term model stand for the real ones |
| `Realization.DatagramRealized` | src/tunnel.rs:484-512 | A transport term stands for the framed and sealed datagram |
| `Simulation.SendRealized` | src/tunnel.rs:1096-1149 | An initiation the model sends, the byte-level endpoint writes, and the resulting states correspond |
| `Simulation.InitiationAnswered` | src/tunnel.rs:570-631 | An initiation the model answers, the endpoint answers with the bytes of the same response, and the states correspond |
| `Simulation.ResponseCompleted` | src/tunnel.rs:632-678 | A response that completes the model's handshake completes the endpoint's, and the states correspond |
| `Simulation.CookieTaken` | src/tunnel.rs:679-711 | A cookie reply to the last initiation that the model reads, the endpoint reads |
| `Simulation.TransportDelivered` | src/tunnel.rs:1180-1277 | A transport message the model delivers, the endpoint delivers with the same plaintext, and the states correspond |
| `Simulation.NewRealized` | src/tunnel.rs:393-440 | A new tunnel stands for a new endpoint |
| `Driver.Drain` | src/tunnel.rs:716-720 | The loop the documentation asks for, on the live object: unless a call fails the fourth poll at the latest is idle, and the wake-up then is absent or strictly later than the clock |
| `Driver.PollOnce` | src/tunnel.rs:725-927 | After an idle poll the object's own next wake-up is absent or strictly later; after any other successful poll less is left to do |

## Left out

- Sockets, drivers, operating-system randomness, clocks, examples, benchmarks and the `embed` crate: I/O plumbing.
- Secret wiping, `Debug` redaction and constant-time behaviour: not functional properties.
- Cryptographic hardness, the group law of Curve25519 and the primality of 2^255 - 19: the protocol theorems use symbolic terms; `X25519.Invert` is stated as a power, not as an inverse, and the reference ladder is that of RFC 7748, not curve arithmetic.
- `simd/src/neon.rs`: the same lane-parallel scheme with another transpose.
- `Stats`, key wrapper types, `CookieChecker`, `peek` and `is_established`: bookkeeping or thin wrappers.
- That Diffie-Hellman commutes on bytes is assumed where two ends meet (`NoiseBytes.Agree`, `Realization.Agreeing`): it is the group law again.
- `Simulation` goes from terms to bytes: what bytes accept beyond that is a forgery, which the term model excludes and bytes cannot. A cookie reply for want of a second MAC is therefore not carried over, and neither is a reply that only the last response explains.
- `encapsulate` and `poll` are modelled on the object in `Tunnel` and on bytes only in their message: `Endpoint.WriteInitiation` and `Transport.WriteTransport`. In `Tunnel` a datagram is a tuple of terms and the buffer holds a datagram or a plaintext as a value.
- Transport plaintexts are byte strings in the term algebra; a genuine key is never used for anything else, so a sealed term that is no byte string is an authentication failure.
- The entropy of one call is a record of the draws it may make, so draws that are skipped are not consumed.
- Bits: exclusive or and masks on limbs are modelled by their effect on integers (a shift or mask as a quotient or remainder, a masked select as a choice); `X25519.MaskedExchange` computes the exchange bit by bit on 64-bit words.
- Intrinsics of `simd/src/avx2.rs` are modelled by their documented effect on lanes; the sixteen registers are a sequence, and the stores are appended in order of their offsets.
- Slices handed to a keystream backend or to `seal_in_place` are modelled as a stretch of an array, copied out and back around the backend call.
- Polling.ReachableNoBusyLoop: assumes clock readings below `u64::MAX`, because at the saturation point no armed deadline can lie later; `Polling.NoBusyLoop` states both directions.
- `TunnelModel.PaddedLen` is the unbounded form of `padded_len`; `Transport.PaddedLen` is the one on machine words.
- A 64-bit `usize` is assumed in `Transport.PaddedLen`.
- NetworkProof.DeliveredOnceFromPeer: the network has one honest tunnel per party and names its entropy draws apart; compromise of a static key is not modelled.
