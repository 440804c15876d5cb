/**
 The packet wrapper around the authenticated cipher: it works in place, and after decryption shifts
 the packet down over its length field.
 */
module CryptPacket {
  import opened Bytes
  import opened Bits
  import opened ChaChaBlock
  import opened ChaCha
  import opened ChaChaPoly

  const LENGTH_FIELD := 4

  /** A buffer after its octets from 4 to `size` have moved down by four. */
  function Shifted(b: bytes, size: nat): (r: bytes)
    requires 4 <= size <= |b|
    ensures |r| == |b|
  {
    b[4..size] + b[size - 4..]
  }

  method MoveDown(buf: array<byte>, size: nat)
    requires 4 <= size <= buf.Length
    modifies buf
    ensures buf[..] == Shifted(old(buf[..]), size)
  {
    for i := 0 to size - 4
      invariant forall k :: 0 <= k < buf.Length ==> buf[k] == if k < i then old(buf[k + 4]) else old(buf[k])
    {
      buf[i] := buf[i + 4];
    }
  }

  /** A wrapper for one direction of a connection. */
  class Wrapper {
    const ctx: ChachaPoly
    const encrypt: bool

    constructor (ctx: ChachaPoly, encrypt: bool)
      ensures this.ctx == ctx && this.encrypt == encrypt
    {
      this.ctx, this.encrypt := ctx, encrypt;
    }

    /** `crypt_encrypt_chacha20_poly_buffer`. To encrypt, `size` counts the whole packet; to decrypt, it
        leaves the length field out. */
    method Crypt(seqno: u32, buf: array<byte>, size: nat) returns (ret: int)
      requires ctx.Valid() && size >= LENGTH_FIELD
      requires (if encrypt then size else size + LENGTH_FIELD) + TAG_LENGTH <= buf.Length
      modifies buf, ctx.mainCtx.input, ctx.headerCtx.input
      ensures SameKeys(ctx.Keys(), old(ctx.Keys()))
      ensures encrypt ==>
                ret == 0 && buf[..] == Overwritten(old(buf[..]), 0, Sealed(old(ctx.Keys()), seqno, old(buf[..])[..size], 4))
      ensures !encrypt ==>
                match Opened(old(ctx.Keys()), seqno, old(buf[..])[..4 + size + TAG_LENGTH], 4)
                case None => ret == 1 && buf[..] == old(buf[..])
                case Some(plain) => ret == 0 && buf[..] == Shifted(Overwritten(old(buf[..]), 0, plain), size)
    {
      if encrypt {
        ret := ctx.Encrypt(seqno, buf, buf, size - 4, 4);
      } else {
        ret := OpenAndShift(seqno, buf, size);
      }
      ret := if ret == 0 then 0 else 1;
    }

    method OpenAndShift(seqno: u32, buf: array<byte>, size: nat) returns (ret: int)
      requires ctx.Valid() && size >= LENGTH_FIELD && 4 + size + TAG_LENGTH <= buf.Length
      modifies buf, ctx.mainCtx.input, ctx.headerCtx.input
      ensures SameKeys(ctx.Keys(), old(ctx.Keys()))
      ensures match Opened(old(ctx.Keys()), seqno, old(buf[..])[..4 + size + TAG_LENGTH], 4)
              case None => ret == ERROR_DECRYPT && buf[..] == old(buf[..])
              case Some(plain) => ret == 0 && buf[..] == Shifted(Overwritten(old(buf[..]), 0, plain), size)
    {
      hide Opened, Overwritten, Shifted;
      ret := ctx.Decrypt(seqno, buf, buf, size, 4);
      if ret == 0 {
        MoveDown(buf, size);
      }
    }

    /** `crypt_get_length_chacha20_poly`. */
    method GetLength(seqno: u32, data: array<byte>, size: nat) returns (ret: int, length: u32)
      requires ctx.Valid() && size <= data.Length
      modifies ctx.headerCtx.input
      ensures SameKeys(ctx.Keys(), old(ctx.Keys()))
      ensures if size < 4 then ret == -1 else ret == 0 && length == LengthOf(old(ctx.Keys()), seqno, data[..])
    {
      ret, length := ctx.GetLength(seqno, data, size);
    }
  }

  /** What the receiving wrapper makes of a packet that the sending wrapper sealed: it opens, and of
      what follows the length field all but the last four octets are where the caller looks for them. */
  lemma PacketSurvives(k: Keyed, seqno: u32, packet: bytes, buf: bytes)
    requires |packet| >= 8 && |buf| >= |packet| + 16
    ensures Opened(k, seqno, Sealed(k, seqno, packet, 4), 4) == Some(packet)
    ensures Shifted(Overwritten(buf, 0, packet), |packet| - 4)[..|packet| - 8] == packet[4..|packet| - 4]
  {
    OpensIffSealed(k, seqno, Sealed(k, seqno, packet, 4), packet, 4);
    assert Overwritten(buf, 0, packet)[4..|packet| - 4] == packet[4..|packet| - 4];
  }

  /** The last four octets, which are padding, survive if and only if they repeat the four before them. */
  lemma PaddingSurvivesIff(packet: bytes, buf: bytes)
    requires |packet| >= 8 && |buf| >= |packet|
    ensures Shifted(Overwritten(buf, 0, packet), |packet| - 4)[..|packet| - 4] == packet[4..] <==>
            packet[|packet| - 8..|packet| - 4] == packet[|packet| - 4..]
  {
    var n, b := |packet|, Overwritten(buf, 0, packet);
    var got := Shifted(b, n - 4)[..n - 4];
    assert b[..n] == packet;
    assert got == packet[4..n - 4] + packet[n - 8..n - 4];
    assert packet[4..] == packet[4..n - 4] + packet[n - 4..];
    assert got[n - 8..] == packet[n - 8..n - 4] && packet[4..][n - 8..] == packet[n - 4..];
  }

  /** A packet of section 6 of RFC 4253: a length, the length of the padding, the payload, the padding. */
  function Framed(payload: bytes, padding: bytes): bytes
    requires 4 <= |padding| < 256 && 1 + |payload| + |padding| < TWO_32
  {
    StoreU32(1 + |payload| + |padding|) + [|padding|] + payload + padding
  }

  /** Every octet of the payload survives, because the padding is at least four octets. */
  lemma PayloadSurvives(k: Keyed, seqno: u32, payload: bytes, padding: bytes, buf: bytes)
    requires 4 <= |padding| < 256 && 1 + |payload| + |padding| < TWO_32
    requires |buf| >= |Framed(payload, padding)| + 16
    ensures var packet := Framed(payload, padding);
            && Opened(k, seqno, Sealed(k, seqno, packet, 4), 4) == Some(packet)
            && LengthOf(k, seqno, Sealed(k, seqno, packet, 4)) == |packet| - 4
            && Shifted(Overwritten(buf, 0, packet), |packet| - 4)[0] == |padding|
            && Shifted(Overwritten(buf, 0, packet), |packet| - 4)[1..1 + |payload|] == payload
  {
    var packet := Framed(payload, padding);
    PacketSurvives(k, seqno, packet, buf);
    LengthAgrees(k, seqno, packet);
    LoadOfStore(1 + |payload| + |padding|);
    FramedParts(payload, padding);
    PayloadIn(Shifted(Overwritten(buf, 0, packet), |packet| - 4), [|padding|], payload, padding[..|padding| - 4]);
  }

  lemma FramedParts(payload: bytes, padding: bytes)
    requires 4 <= |padding| < 256 && 1 + |payload| + |padding| < TWO_32
    ensures var packet := Framed(payload, padding);
            && packet[..4] == StoreU32(1 + |payload| + |padding|)
            && packet[4..|packet| - 4] == [|padding|] + payload + padding[..|padding| - 4]
  {
  }

  lemma PayloadIn(got: bytes, a: bytes, b: bytes, c: bytes)
    requires |a| == 1 && |got| >= 1 + |b| + |c| && got[..1 + |b| + |c|] == a + b + c
    ensures got[0] == a[0] && got[1..1 + |b|] == b
  {
    assert got[0] == got[..1 + |b| + |c|][0];
    assert got[1..1 + |b|] == got[..1 + |b| + |c|][1..1 + |b|];
  }
}
