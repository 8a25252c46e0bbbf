/** RTCP packets as values (section 6 of RFC 3550). */
module RtcpTypes {
  import opened Words

  type u24 = n: nat | n < 0x100_0000

  /** A text whose length fits one octet. */
  type Text = s: seq<u8> | |s| < 0x100

  /** One reception report block. */
  datatype Block = Block(
    ssrc: u32, fraction: u8, lost: u24, lastSeq: u32, jitter: u32, lsr: u32, dlsr: u32)

  /** One SDES chunk: a source and its canonical names. */
  datatype Chunk = Chunk(ssrc: u32, names: seq<Text>)

  datatype RtcpPacket =
    | SenderReport(ssrc: u32, ntpSec: u32, ntpFrac: u32, rtpTs: u32, psent: u32, osent: u32, blocks: seq<Block>)
    | ReceiverReport(ssrc: u32, blocks: seq<Block>)
    | SourceDescription(chunks: seq<Chunk>)
    | Bye(ssrcs: seq<u32>)
    | Other(pt: u8)

  /** Why a received compound packet was not processed. */
  datatype RtcpError = HeaderTooShort | LenNotMultiple4 | InvalidMask | InvalidCompoundPacket
}
