/** The byte path of a transport message: pad, seal and frame in `encapsulate`
    (`src/tunnel.rs:484-512`), parse and open in `decapsulate`, trim at the receiver. */
module Transport {
  import opened Machine
  import opened Bytes
  import opened ChaCha20
  import opened Aead
  import opened Message
  import TunnelModel

  type Mtu = TunnelModel.Interval

  const USIZE_MAX: nat := U64_MAX

  /** `padded_len` as it computes on 64-bit machine words: the addition is checked, and where it
      would overflow the largest multiple of sixteen is taken instead. */
  function PaddedLen(len: u64, mtu: Option<Mtu>): (n: u64) {
    var aligned := if len <= USIZE_MAX - 15 then len + 15 - (len + 15) % 16 else USIZE_MAX - USIZE_MAX % 16;
    if mtu.Some? && aligned > mtu.value then (if mtu.value > len then mtu.value else len) else aligned
  }

  /** The size on the wire: the next multiple of sixteen, or the MTU if that is smaller and the
      payload fits it; a payload over the MTU is not padded at all.  A payload is cut short if and
      only if no MTU is set and its length is within fifteen of the largest machine word. */
  lemma PaddedLenExact(len: u64, mtu: Option<Mtu>)
    ensures PaddedLen(len, mtu) < len <==> mtu.None? && len > USIZE_MAX - 15
    ensures mtu.Some? || len <= USIZE_MAX - 15 ==> PaddedLen(len, mtu) == TunnelModel.PaddedLen(len, mtu)
    ensures var n, aligned := TunnelModel.PaddedLen(len, mtu), (len + 15) / 16 * 16;
            && len <= aligned < len + 16 && aligned % 16 == 0
            && (mtu.None? ==> n == aligned)
            && (mtu.Some? && len <= mtu.value ==> n == if aligned < mtu.value then aligned else mtu.value)
            && (mtu.Some? && len > mtu.value ==> n == len)
  {
    var q, r := (len + 15) / 16, (len + 15) % 16;
    assert len + 15 == 16 * q + r;
  }

  /** The largest length is cut to a multiple of sixteen. */
  lemma LongestIsCut()
    ensures PaddedLen(USIZE_MAX, None) == USIZE_MAX - 15
  {}

  /** No datagram is cut for all that: the total saturates, and no buffer is that long. */
  lemma CutNeverSent(len: u64, outLen: nat)
    requires len > USIZE_MAX - 15 && outLen < USIZE_MAX
    ensures var total := if PaddedLen(len, None) + TRANSPORT_OVERHEAD > USIZE_MAX then USIZE_MAX
                         else PaddedLen(len, None) + TRANSPORT_OVERHEAD;
            outLen < total
  {
    LongestIsCut();
  }

  /** The datagram that carries `payload`. */
  function Datagram(key: Key, receiver: u32, counter: u64, payload: seq<u8>, mtu: Option<Mtu>): (d: seq<u8>) {
    Encode(TransportData(receiver, counter, Sealed(key, NonceFromCounter(counter), [], TunnelModel.Pad(payload, mtu))))
  }

  /** Frame and seal in the caller's buffer, as `encapsulate` does: a short buffer is untouched,
      a long one changes only where the datagram goes. */
  method WriteTransport(backend: Backend, key: Key, receiver: u32, counter: u64, payload: seq<u8>, mtu: Option<Mtu>,
      out: array<u8>)
    returns (r: Result<nat>)
    modifies out
    ensures var total := TunnelModel.PaddedLen(|payload|, mtu) + TRANSPORT_OVERHEAD;
            && (out.Length < total ==> r == Err(BufferTooSmall) && out[..] == old(out[..]))
            && (out.Length >= total ==>
                  && r == Ok(total) && out[..total] == Datagram(key, receiver, counter, payload, mtu)
                  && out[total..] == old(out[total..]))
  {
    hide Sealed, NonceFromCounter, ToLe, TunnelModel.PaddedLen;
    var padded := TunnelModel.PaddedLen(|payload|, mtu);
    var total := padded + TRANSPORT_OVERHEAD;
    if out.Length < total {
      return Err(BufferTooSmall);
    }
    ghost var after := out[total..];
    var header := WriteTransportHeader(out, receiver, counter);
    if header.Err? {
      return Err(ErrorOf(header));
    }
    assert out[total..] == after by { assert out[total..] == out[16..][total - 16..]; }
    if padded < |payload| {
      return Err(Internal);
    }
    Stage(out, payload, padded);
    assert out[total..] == after by { assert out[total..] == out[16 + padded..][16..]; }
    ghost var front := out[..16];
    var sealed := SealInPlace(backend, key, NonceFromCounter(counter), [], padded, out, 16);
    if sealed.Err? {
      return Err(ErrorOf(sealed));
    }
    if sealed.value + 16 != total {
      return Err(Internal);
    }
    assert out[..total] == out[..16] + out[16..total];
    r := Ok(total);
  }

  /** Plaintext and zero padding behind the header. */
  method Stage(out: array<u8>, payload: seq<u8>, padded: nat)
    requires |payload| <= padded && 16 + padded <= out.Length
    modifies out
    ensures out[..16] == old(out[..16]) && out[16 + padded..] == old(out[16 + padded..])
    ensures out[16..16 + padded] == payload + Zeros(padded - |payload|)
  {
    ghost var after := out[16 + padded..];
    Copy(out, 16, payload);
    var end := 16 + |payload|;
    assert out[16 + padded..] == after by { assert out[16 + padded..] == out[end..][padded - |payload|..]; }
    ghost var front := out[..end];
    assert front == out[..16] + out[16..end];
    Copy(out, end, Zeros(padded - |payload|));
    assert out[..16] == out[..end][..16];
    assert out[16..16 + padded] == out[16..end] + out[end..16 + padded] && out[16..end] == front[16..];
  }

  /** An IP packet that states its own size survives padding, sealing, framing, parsing, opening
      and trimming unchanged. */
  lemma PacketSurvives(key: Key, receiver: u32, counter: u64, packet: seq<u8>, mtu: Option<Mtu>)
    requires IpPacketLen(packet) == Some(|packet|)
    ensures var nonce := NonceFromCounter(counter);
            var parsed := Parse(Datagram(key, receiver, counter, packet, mtu));
            && parsed.Ok? && parsed.value.TransportData?
            && parsed.value.receiver == receiver && parsed.value.counter == counter
            && var plaintext := Opened(key, nonce, [], parsed.value.ciphertext);
               && plaintext.Some? && IpPacketLen(plaintext.value) == Some(|packet|)
               && plaintext.value[..|packet|] == packet
  {
    hide Parse, Sealed, Opened, NonceFromCounter, IpPacketLen;
    var plain := TunnelModel.Pad(packet, mtu);
    var sealed := Sealed(key, NonceFromCounter(counter), [], plain);
    ParsesTransport(TransportData(receiver, counter, sealed));
    OpensIffSealed(key, NonceFromCounter(counter), [], sealed, plain);
    TrimsPadding(packet, plain[|packet|..]);
    assert plain == packet + plain[|packet|..];
  }
}
