/**
 The RTP data packet: the bytes rtp_tx puts into the packet buffer (section 5.1 of RFC 3550)
 and the header validity check on reception (section A.1).
 */
module RtpPacket {
  import opened Words

  const MAX_RTP_PKT_SIZE: nat := 1024

  datatype RtpError =
    | HeaderTooShort
    | InvalidCsrcCount
    | InvalidRtpVersion
    | InvalidPayloadType
    | InvalidOctetCount
    | NotImplemented

  datatype Packet = Packet(seqno: u16, ts: u32, ssrc: u32, csrcs: seq<u32>, payload: seq<u8>)

  datatype Checked = Accepted(packet: Packet) | Rejected(error: RtpError)

  function HeaderSize(ncsrc: nat): nat { 12 + 4 * ncsrc }

  function PacketSize(p: Packet): nat { HeaderSize(|p.csrcs|) + |p.payload| }

  /** The header validity check, and the fields the receiver reads from an accepted packet. */
  function Check(msg: seq<u8>, pt: u8): Checked {
    if |msg| < 12 then Rejected(HeaderTooShort)
    else
      var cc := msg[0] % 16;
      var size := HeaderSize(cc);
      if |msg| < size then Rejected(InvalidCsrcCount)
      else if msg[0] / 64 != 2 then Rejected(InvalidRtpVersion)
      else if msg[1] % 128 != pt then Rejected(InvalidPayloadType)
      else
        var padded := (msg[0] / 32) % 2 == 1;
        var padding := if padded then msg[|msg| - 1] else 0;
        if padded && |msg| - size <= padding then Rejected(InvalidOctetCount)
        else if (msg[0] / 16) % 2 == 1 then Rejected(NotImplemented)
        else
          Accepted(Packet(FromBe16(msg, 2), FromBe32(msg, 4), FromBe32(msg, 8),
                          FromBe32List(msg, 12, cc), msg[size..|msg| - padding]))
  }

  /** The octets that bring a packet to a multiple of four: zeros, then their own number. */
  function Padding(size: nat, align: bool): (pad: seq<u8>)
    ensures |pad| == if align && size % 4 != 0 then 4 - size % 4 else 0
  {
    if align && size % 4 != 0 then
      var n := 4 - size % 4;
      seq(n - 1, _ => 0 as u8) + [n as u8]
    else []
  }

  /** The bytes of a packet on the wire. */
  function Encode(p: Packet, pt: u8, align: bool): seq<u8>
    requires |p.csrcs| <= 15
  {
    var pad := Padding(PacketSize(p), align);
    Fixed(p, pt, pad != []) + Be32List(p.csrcs) + p.payload + pad
  }

  /** The fixed part of the header. */
  function Fixed(p: Packet, pt: u8, padded: bool): (b: seq<u8>)
    requires |p.csrcs| <= 15
    ensures |b| == 12
  {
    [128 + (if padded then 32 else 0) + |p.csrcs|, pt % 128] + Be16(p.seqno) + Be32(p.ts) + Be32(p.ssrc)
  }

  lemma FixedRoundTrip(p: Packet, pt: u8, padded: bool, msg: seq<u8>)
    requires |p.csrcs| <= 15 && 12 <= |msg| && msg[..12] == Fixed(p, pt, padded)
    ensures msg[0] % 16 == |p.csrcs| && msg[0] / 64 == 2 && (msg[0] / 16) % 2 == 0
    ensures (msg[0] / 32) % 2 == if padded then 1 else 0
    ensures msg[1] % 128 == pt % 128
    ensures FromBe16(msg, 2) == p.seqno && FromBe32(msg, 4) == p.ts && FromBe32(msg, 8) == p.ssrc
  {
    hide Be16, Be32;
    var fixed := Fixed(p, pt, padded);
    assert msg[0] == fixed[0] && msg[1] == fixed[1];
    assert msg[2..4] == fixed[2..4] == Be16(p.seqno);
    Be16RoundTrip(p.seqno, msg, 2);
    assert msg[4..8] == fixed[4..8] == Be32(p.ts);
    Be32RoundTrip(p.ts, msg, 4);
    assert msg[8..12] == fixed[8..12] == Be32(p.ssrc);
    Be32RoundTrip(p.ssrc, msg, 8);
  }

  lemma Layout(f: seq<u8>, c: seq<u8>, p: seq<u8>, d: seq<u8>)
    ensures var m := f + c + p + d;
            && m[..|f|] == f
            && m[|f|..|f| + |c|] == c
            && m[|f| + |c|..|m| - |d|] == p
            && m[|m| - |d|..] == d
  {
  }

  /** Whatever is sent is accepted by a receiver configured for the same payload type, and is
      received as it was sent, without the padding. */
  lemma RoundTrip(p: Packet, pt: u8, align: bool)
    requires |p.csrcs| <= 15 && pt < 128
    ensures Check(Encode(p, pt, align), pt) == Accepted(p)
  {
    hide Fixed, Be32List, Padding, FromBe16, FromBe32, FromBe32List;
    var msg := Encode(p, pt, align);
    var pad := Padding(PacketSize(p), align);
    Layout(Fixed(p, pt, pad != []), Be32List(p.csrcs), p.payload, pad);
    FixedRoundTrip(p, pt, pad != [], msg);
    Be32ListRoundTrip(p.csrcs, msg, 12);
    var size := HeaderSize(|p.csrcs|);
    assert msg[size..|msg| - |pad|] == p.payload;
    if pad != [] {
      PaddingShort(|p.csrcs|, |p.payload|);
      PaddingCount(PacketSize(p));
      assert msg[|msg| - 1] == msg[|msg| - |pad|..][|pad| - 1] == |pad|;
    } else {
      assert |msg| - |pad| == |msg|;
    }
    assert Check(msg, pt) == Accepted(Packet(p.seqno, p.ts, p.ssrc, p.csrcs, msg[size..|msg| - |pad|]));
  }

  /** The header is a multiple of four, so only a packet with a payload is ever padded. */
  lemma PaddingShort(ncsrc: nat, length: nat)
    requires Padding(HeaderSize(ncsrc) + length, true) != []
    ensures 0 < length
  {
    assert (12 + 4 * ncsrc) % 4 == 0;
  }

  lemma PaddingCount(size: nat)
    ensures var pad := Padding(size, true); pad != [] ==> pad[|pad| - 1] == |pad|
  {
  }

  /** A payload type that does not fit its seven bits is never accepted, whatever is sent. */
  lemma WidePayloadTypeRejected(p: Packet, pt: u8, align: bool)
    requires |p.csrcs| <= 15 && 128 <= pt
    ensures Check(Encode(p, pt, align), pt) == Rejected(InvalidPayloadType)
  {
    var msg := Encode(p, pt, align);
    var pad := Padding(PacketSize(p), align);
    assert msg[..12] == Fixed(p, pt, pad != []);
    FixedRoundTrip(p, pt, pad != [], msg);
  }

  /** The length of an aligned packet is a multiple of four. */
  lemma Aligned(p: Packet, pt: u8)
    requires |p.csrcs| <= 15
    ensures |Encode(p, pt, true)| % 4 == 0
    ensures PacketSize(p) <= |Encode(p, pt, true)| < PacketSize(p) + 4
  {
  }

  // ---------------------------------------------------------------- in place

  /** The packet buffer of a session. */
  class PacketBuffer {
    const buf: array<u8>

    constructor (length: nat)
      requires 12 <= length
      ensures fresh(buf) && buf.Length == length
    {
      buf := new u8[length](_ => 0);
    }

    /** Builds a packet in the buffer.  The caller's packets fit the buffer, or are larger than
        the program's own limit and are refused.  Returns the size, or None if refused. */
    method Build(p: Packet, pt: u8, align: bool) returns (size: Option<nat>)
      requires |p.csrcs| <= 15
      requires MAX_RTP_PKT_SIZE < PacketSize(p) || |Encode(p, pt, align)| <= buf.Length
      modifies buf
      ensures size.None? <==>
              MAX_RTP_PKT_SIZE < PacketSize(p) ||
              (align && PacketSize(p) % 4 != 0 && MAX_RTP_PKT_SIZE < PacketSize(p) + 4)
      ensures size.Some? ==> size.value <= buf.Length && buf[..size.value] == Encode(p, pt, align)
    {
      hide Fixed, Be32List, Padding;
      if PacketSize(p) > MAX_RTP_PKT_SIZE {
        return None;
      }
      WriteUnpadded(p, pt);
      var used := PacketSize(p);
      ghost var rest := Be32List(p.csrcs) + p.payload;
      assert buf[..used] == Fixed(p, pt, false) + rest;
      if align && used % 4 != 0 {
        if used + 4 > MAX_RTP_PKT_SIZE {
          return None;
        }
        used := Pad(used);
        FixedPadded(p, pt);
        assert buf[0] == Fixed(p, pt, false)[0];
        buf[0] := buf[0] + 32;
        assert buf[..used] == Fixed(p, pt, true) + rest + Padding(PacketSize(p), true);
      }
      assert buf[..used] == Encode(p, pt, align);
      return Some(used);
    }

    method WriteUnpadded(p: Packet, pt: u8)
      requires |p.csrcs| <= 15 && PacketSize(p) <= buf.Length
      modifies buf
      ensures buf[..PacketSize(p)] == Fixed(p, pt, false) + Be32List(p.csrcs) + p.payload
    {
      hide Fixed, Be32List;
      var start := HeaderSize(|p.csrcs|);
      var used := PacketSize(p);
      CopyPayload(start, p.payload);
      WriteFixed(p, pt);
      assert buf[12..][start - 12..used - 12] == buf[start..used];
      WriteCsrcs(p.csrcs);
      assert buf[start..][..used - start] == buf[start..used];
      assert buf[..start] == buf[..12] + buf[12..start];
      assert buf[..used] == buf[..start] + buf[start..used];
    }

    method CopyPayload(at: nat, payload: seq<u8>)
      requires 12 <= at && at + |payload| <= buf.Length
      modifies buf
      ensures buf[at..at + |payload|] == payload && buf[12..][at - 12..at - 12 + |payload|] == payload
    {
      forall i | 0 <= i < |payload| {
        buf[at + i] := payload[i];
      }
    }

    lemma FixedPadded(p: Packet, pt: u8)
      requires |p.csrcs| <= 15
      ensures var f := Fixed(p, pt, false); f[0] < 0xE0 && Fixed(p, pt, true) == f[0 := f[0] + 32]
    {
    }

    method WriteFixed(p: Packet, pt: u8)
      requires |p.csrcs| <= 15 && 12 <= buf.Length
      modifies buf
      ensures buf[..12] == Fixed(p, pt, false)
      ensures buf[12..] == old(buf[12..])
    {
      buf[0] := 128 + |p.csrcs|;
      buf[1] := pt % 128;
      var s, t, o := Be16(p.seqno), Be32(p.ts), Be32(p.ssrc);
      buf[2], buf[3] := s[0], s[1];
      buf[4], buf[5], buf[6], buf[7] := t[0], t[1], t[2], t[3];
      buf[8], buf[9], buf[10], buf[11] := o[0], o[1], o[2], o[3];
    }

    method WriteCsrcs(csrcs: seq<u32>)
      requires 12 + 4 * |csrcs| <= buf.Length
      modifies buf
      ensures buf[12..12 + 4 * |csrcs|] == Be32List(csrcs)
      ensures buf[..12] == old(buf[..12]) && buf[12 + 4 * |csrcs|..] == old(buf[12 + 4 * |csrcs|..])
    {
      hide Be32;
      for i := 0 to |csrcs|
        invariant buf[12..12 + 4 * i] == Be32List(csrcs[..i])
        invariant buf[..12] == old(buf[..12]) && buf[12 + 4 * |csrcs|..] == old(buf[12 + 4 * |csrcs|..])
      {
        var w := Be32(csrcs[i]);
        var at := 12 + 4 * i;
        buf[at], buf[at + 1], buf[at + 2], buf[at + 3] := w[0], w[1], w[2], w[3];
        assert csrcs[..i + 1] == csrcs[..i] + [csrcs[i]];
        Be32ListSnoc(csrcs[..i], csrcs[i]);
        assert buf[12..at + 4] == buf[12..at] + w;
      }
      assert csrcs[..|csrcs|] == csrcs;
    }

    /** Appends the padding after `used` bytes. */
    method Pad(used: nat) returns (end: nat)
      requires used % 4 != 0 && used + 4 - used % 4 <= buf.Length
      modifies buf
      ensures end == used + 4 - used % 4
      ensures buf[..end] == old(buf[..used]) + Padding(used, true)
    {
      var pad := 4 - used % 4;
      end := used;
      for i := 0 to pad - 1
        invariant end == used + i
        invariant buf[..end] == old(buf[..used]) + seq(i, _ => 0 as u8)
      {
        buf[end] := 0;
        end := end + 1;
        assert buf[..end] == buf[..end - 1] + [0];
      }
      buf[end] := pad;
      end := end + 1;
      assert buf[..end] == buf[..end - 1] + [pad as u8];
    }
  }
}
