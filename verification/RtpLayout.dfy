/** The RTP data packet on the wire, octet by octet (section 5.1 of RFC 3550). */
module RtpLayout {
  import opened Words
  import opened Octets
  import opened RtpPacket

  /** The octets at the end that are padding, by the padding bit and the last octet. */
  function PaddingIn(msg: seq<u8>): nat
    requires msg != []
  {
    if Octet(msg, 0) / 32 % 2 == 1 then Octet(msg, |msg| - 1) else 0
  }

  /** A data packet of version 2 without extension: where its fields stand. */
  ghost predicate PacketAt(msg: seq<u8>, p: Packet) {
    && 12 + 4 * |p.csrcs| <= |msg|
    && Octet(msg, 0) / 64 == 2 && Octet(msg, 0) / 16 % 2 == 0 && Octet(msg, 0) % 16 == |p.csrcs|
    && p.seqno == Two(msg, 2)
    && p.ts == Four(msg, 4)
    && p.ssrc == Four(msg, 8)
    && WordsAt(msg, 12, p.csrcs)
    && 12 + 4 * |p.csrcs| + PaddingIn(msg) <= |msg|
    && p.payload == msg[12 + 4 * |p.csrcs|..|msg| - PaddingIn(msg)]
  }

  /** A packet is accepted with these fields if and only if they stand in it, its payload type is the
      expected one, and it has some payload if it is padded. */
  lemma CheckIs(msg: seq<u8>, pt: u8, p: Packet)
    ensures Check(msg, pt) == Accepted(p) <==>
            && PacketAt(msg, p) && Octet(msg, 1) % 128 == pt
            && (Octet(msg, 0) / 32 % 2 == 1 ==> p.payload != [])
  {
    hide FromBe32, Four, WordsAt, FromBe32List;
    if 12 <= |msg| {
      FourIs(msg, 4);
      FourIs(msg, 8);
      var cc: nat := msg[0] % 16;
      if 12 + 4 * cc <= |msg| {
        WordsRead(msg, 12, cc, p.csrcs);
      }
    }
  }

  /** Which error a datagram is refused with: that of the first test it fails. */
  lemma ErrorIs(msg: seq<u8>, pt: u8)
    ensures var check := Check(msg, pt);
            check.Rejected? ==>
              check.error ==
              if |msg| < 12 then HeaderTooShort
              else if |msg| < 12 + 4 * (Octet(msg, 0) % 16) then InvalidCsrcCount
              else if Octet(msg, 0) / 64 != 2 then InvalidRtpVersion
              else if Octet(msg, 1) % 128 != pt then InvalidPayloadType
              else if |msg| - 12 - 4 * (Octet(msg, 0) % 16) <= PaddingIn(msg) && Octet(msg, 0) / 32 % 2 == 1 then InvalidOctetCount
              else NotImplemented
  {
    hide FromBe16, FromBe32, FromBe32List;
  }

  /** What is sent. */
  lemma EncodeIs(p: Packet, pt: u8, align: bool)
    requires |p.csrcs| <= 15
    ensures var msg := Encode(p, pt, align);
            var unpadded := 12 + 4 * |p.csrcs| + |p.payload|;
            var padded := align && unpadded % 4 != 0;
            && PacketAt(msg, p)
            && msg[0] == 128 + (if padded then 32 else 0) + |p.csrcs| && msg[1] == pt % 128
            && |msg| == unpadded + (if padded then 4 - unpadded % 4 else 0)
            && (forall z | unpadded <= z < |msg| - 1 :: msg[z] == 0)
            && (padded ==> msg[|msg| - 1] == |msg| - unpadded)
  {
    hide FromBe32, Four, WordsAt, FromBe32List, Be32List, Be32, Be16;
    var msg := Encode(p, pt, align);
    var pad := Padding(PacketSize(p), align);
    hide Padding;
    Layout(Fixed(p, pt, pad != []), Be32List(p.csrcs), p.payload, pad);
    FixedRoundTrip(p, pt, pad != [], msg);
    Be32ListRoundTrip(p.csrcs, msg, 12);
    WordsRead(msg, 12, |p.csrcs|, p.csrcs);
    FourIs(msg, 4);
    FourIs(msg, 8);
    PaddingIs(PacketSize(p), align);
    FirstOctets(p, pt, pad != [], msg);
    PaddingStands(msg, PacketSize(p), pad);
  }

  lemma PaddingIs(size: nat, align: bool)
    ensures var pad := Padding(size, align);
            && (pad != [] <==> align && size % 4 != 0) && (pad != [] ==> pad[|pad| - 1] == |pad|)
            && forall z | 0 <= z < |pad| - 1 :: pad[z] == 0
  {
  }

  lemma FirstOctets(p: Packet, pt: u8, padded: bool, msg: seq<u8>)
    requires |p.csrcs| <= 15 && 12 <= |msg| && msg[..12] == Fixed(p, pt, padded)
    ensures msg[0] == 128 + (if padded then 32 else 0) + |p.csrcs| && msg[1] == pt % 128
  {
    assert msg[0] == msg[..12][0] && msg[1] == msg[..12][1];
  }

  lemma PaddingStands(msg: seq<u8>, size: nat, pad: seq<u8>)
    requires |msg| == size + |pad| && msg[size..] == pad
    ensures forall z | size <= z < |msg| :: msg[z] == pad[z - size]
  {
    forall z | size <= z < |msg| ensures msg[z] == pad[z - size] {
      assert msg[size..][z - size] == msg[z];
    }
  }
}
