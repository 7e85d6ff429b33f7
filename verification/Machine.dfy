/** Machine integers, shared constants, the crate's error enumeration and the two result
    wrappers that every other module uses.  Integers are unbounded in Dafny, so each width is a
    subset type and each wrapping or saturating operation is written out. */
module Machine {

  const U32_LIMIT: int := 0x1_0000_0000
  const U64_LIMIT: int := 0x1_0000_0000_0000_0000
  const U64_MAX: int := 0xffff_ffff_ffff_ffff

  type u8 = x: int | 0 <= x < 0x100
  type u16 = x: int | 0 <= x < 0x1_0000
  type u32 = x: int | 0 <= x < 0x1_0000_0000
  type u64 = x: int | 0 <= x < 0x1_0000_0000_0000_0000

  // The sizes and limits of `src/consts.rs` that several modules share.
  const HANDSHAKE_INITIATION_LEN: nat := 148
  const HANDSHAKE_RESPONSE_LEN: nat := 92
  const COOKIE_REPLY_LEN: nat := 64
  const TRANSPORT_OVERHEAD: nat := 32
  const REJECT_AFTER_MESSAGES: u64 := 0xffff_ffff_ffff_ffff - 0x2000

  datatype Option<+T> = None | Some(value: T)

  datatype Error =
    | BufferTooSmall
    | NotEstablished
    | InvalidPacket
    | InvalidMac1
    | AuthFailure
    | UnknownPeer
    | ReplayedTimestamp
    | UnknownReceiverIndex
    | Replay
    | Expired
    | NoPendingHandshake
    | InvalidCookie
    | HandshakeRateLimited
    | EntropyFailure
    | InvalidPublicKey
    | Internal

  datatype Result<+T> = Ok(value: T) | Err(error: Error)

  /** The error that `?` hands on. */
  function ErrorOf<T>(r: Result<T>): (e: Error) {
    if r.Err? then r.error else Internal
  }
}
