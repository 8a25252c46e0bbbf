/**
 RTCP on the wire (section 6 of RFC 3550): the bytes of a compound packet, the validity check
 of section A.2, and the walk that decodes an accepted packet.
 */
module RtcpCodec {
  import opened Words
  import opened RtcpTypes

  const PT_SR: u8 := 200
  const PT_RR: u8 := 201
  const PT_SDES: u8 := 202
  const PT_BYE: u8 := 203

  const SDES_CNAME: u8 := 1

  /** A packet as the encoder builds it: a BYE may also carry a reason, which no receiver of
      this program reads. */
  datatype Built = Built(packet: RtcpPacket, reason: Option<Text>)

  // ---------------------------------------------------------------- bytes of a packet

  /** The count has five bits and wraps around. */
  function Header(count: nat, pt: u8, words: u16): (b: seq<u8>)
    ensures |b| == 4
  {
    [128 + count % 32, pt] + Be16(words)
  }

  function EncodeBlock(b: Block): (r: seq<u8>)
    ensures |r| == 24
  {
    Be32(b.ssrc) + [b.fraction] + Be24(b.lost) + Be32(b.lastSeq) + Be32(b.jitter) + Be32(b.lsr) + Be32(b.dlsr)
  }

  function EncodeBlocks(blocks: seq<Block>): (r: seq<u8>)
    ensures |r| == 24 * |blocks|
  {
    if blocks == [] then [] else EncodeBlock(blocks[0]) + EncodeBlocks(blocks[1..])
  }

  function EncodeItem(name: Text): seq<u8> {
    [SDES_CNAME, |name|] + name
  }

  function EncodeItems(names: seq<Text>): seq<u8> {
    if names == [] then [] else EncodeItem(names[0]) + EncodeItems(names[1..])
  }

  function Zeros(n: nat): (r: seq<u8>)
    ensures |r| == n
  {
    seq(n, _ => 0)
  }

  /** The number of octets that fill `n` up to a multiple of four. */
  function Fill(n: nat): (pad: nat)
    ensures (n + pad) % 4 == 0 && pad < 4
  {
    if n % 4 == 0 then 0 else 4 - n % 4
  }

  /** A chunk ends with a null octet, and is then filled up with more of them. */
  function EncodeChunk(c: Chunk): seq<u8> {
    var items := EncodeItems(c.names);
    Be32(c.ssrc) + items + Zeros(1 + Fill(|items| + 5))
  }

  function EncodeChunks(chunks: seq<Chunk>): seq<u8> {
    if chunks == [] then [] else EncodeChunk(chunks[0]) + EncodeChunks(chunks[1..])
  }

  function EncodeReason(reason: Option<Text>): seq<u8> {
    if reason.None? then [] else [|reason.value|] + reason.value + Zeros(Fill(1 + |reason.value|))
  }

  function Count(p: RtcpPacket): nat {
    match p
    case SenderReport(_, _, _, _, _, _, blocks) => |blocks|
    case ReceiverReport(_, blocks) => |blocks|
    case SourceDescription(chunks) => |chunks|
    case Bye(ssrcs) => |ssrcs|
    case Other(_) => 0
  }

  function PayloadType(p: RtcpPacket): u8 {
    match p
    case SenderReport(_, _, _, _, _, _, _) => PT_SR
    case ReceiverReport(_, _) => PT_RR
    case SourceDescription(_) => PT_SDES
    case Bye(_) => PT_BYE
    case Other(pt) => pt
  }

  function EncodeBody(p: RtcpPacket): seq<u8> {
    match p
    case SenderReport(ssrc, ntpSec, ntpFrac, rtpTs, psent, osent, blocks) =>
      Be32List([ssrc, ntpSec, ntpFrac, rtpTs, psent, osent]) + EncodeBlocks(blocks)
    case ReceiverReport(ssrc, blocks) => Be32(ssrc) + EncodeBlocks(blocks)
    case SourceDescription(chunks) => EncodeChunks(chunks)
    case Bye(ssrcs) => Be32List(ssrcs)
    case Other(_) => []
  }

  function EncodeContent(p: Built): seq<u8> {
    EncodeBody(p.packet) + EncodeReason(p.reason)
  }

  /** What can be put on the wire: a reason only in a BYE, and a size that the length field can hold. */
  predicate Encodable(p: Built) {
    && !p.packet.Other?
    && (p.reason.Some? ==> p.packet.Bye?)
    && |EncodeContent(p)| < 0x4_0000
  }

  /** As many entries as the count in the header can hold. */
  predicate Counted(p: Built) {
    Count(p.packet) < 32
  }

  /** The length field of an SDES packet is read back to front, so its high octet must not exceed
      its low one for the packet to be read to its end. */
  predicate ReadToEnd(p: Built) {
    p.packet.SourceDescription? ==>
      var words := |EncodeContent(p)| / 4; words / 0x100 <= words % 0x100
  }

  predicate Readable(p: Built) {
    Counted(p) && ReadToEnd(p)
  }

  predicate AllReadable(ps: seq<Built>) {
    forall i | 0 <= i < |ps| :: Readable(ps[i])
  }

  predicate AllCounted(ps: seq<Built>) {
    forall i | 0 <= i < |ps| :: Counted(ps[i])
  }

  function Encode(p: Built): (r: seq<u8>)
    requires Encodable(p)
    ensures |r| == 4 + |EncodeContent(p)|
  {
    Header(Count(p.packet), PayloadType(p.packet), |EncodeContent(p)| / 4) + EncodeContent(p)
  }

  predicate AllEncodable(ps: seq<Built>) {
    forall i | 0 <= i < |ps| :: Encodable(ps[i])
  }

  function EncodeAll(ps: seq<Built>): seq<u8>
    requires AllEncodable(ps)
  {
    if ps == [] then [] else Encode(ps[0]) + EncodeAll(ps[1..])
  }

  lemma {:induction false} ChunksAligned(chunks: seq<Chunk>)
    ensures |EncodeChunks(chunks)| % 4 == 0
  {
    if chunks != [] {
      ChunkAligned(chunks[0]);
      ChunksAligned(chunks[1..]);
      FourPlusFour(|EncodeChunk(chunks[0])|, |EncodeChunks(chunks[1..])|);
    }
  }

  lemma ChunkAligned(c: Chunk)
    ensures |EncodeChunk(c)| == |EncodeItems(c.names)| + 5 + Fill(|EncodeItems(c.names)| + 5)
    ensures |EncodeChunk(c)| % 4 == 0
  {
  }

  lemma ContentAligned(p: Built)
    ensures |EncodeContent(p)| % 4 == 0
  {
    hide EncodeItems, EncodeBlocks, Be32List, EncodeChunks;
    if p.packet.SourceDescription? {
      ChunksAligned(p.packet.chunks);
    }
    assert |EncodeBody(p.packet)| % 4 == 0;
    assert |EncodeReason(p.reason)| % 4 == 0;
    FourPlusFour(|EncodeBody(p.packet)|, |EncodeReason(p.reason)|);
  }

  lemma {:induction false} AllAligned(ps: seq<Built>)
    requires AllEncodable(ps)
    ensures |EncodeAll(ps)| % 4 == 0
  {
    if ps != [] {
      hide EncodeContent, Header;
      ContentAligned(ps[0]);
      FourPlusFour(4, |EncodeContent(ps[0])|);
      AllAligned(ps[1..]);
      hide Encode;
      FourPlusFour(|Encode(ps[0])|, |EncodeAll(ps[1..])|);
    }
  }

  // ---------------------------------------------------------------- the check

  /** Where the packet after the one at `at` starts. */
  function Next(b: seq<u8>, at: nat): (n: nat)
    requires at + 4 <= |b|
    ensures at < n
  {
    at + 4 * (FromBe16(b, at + 2) + 1)
  }

  /** Follows the length fields as long as they stay inside and the version is right.  All
      positions are multiples of four, so a position inside has a whole header after it. */
  predicate Tiles(b: seq<u8>, at: nat)
    requires at + 4 <= |b|
    decreases |b| - at
  {
    var n := Next(b, at);
    if n + 4 <= |b| && b[n] / 64 == 2 then Tiles(b, n) else n == |b|
  }

  /** The validity check of a compound packet: None if it passes. */
  function Check(b: seq<u8>): Option<RtcpError> {
    if |b| < 4 then Some(HeaderTooShort)
    else if |b| % 4 != 0 then Some(LenNotMultiple4)
    else if b[0] / 32 != 4 || b[1] / 2 != 100 then Some(InvalidMask)
    else if !Tiles(b, 0) then Some(InvalidCompoundPacket)
    else None
  }

  /** The check as the program runs it. */
  method CheckMessage(b: seq<u8>) returns (error: Option<RtcpError>)
    ensures error == Check(b)
  {
    if |b| < 4 {
      return Some(HeaderTooShort);
    }
    if |b| % 4 != 0 {
      return Some(LenNotMultiple4);
    }
    if b[0] / 32 != 4 || b[1] / 2 != 100 {
      return Some(InvalidMask);
    }
    hide Next;
    var at := Next(b, 0);
    while at + 4 <= |b| && b[at] / 64 == 2
      invariant Tiles(b, 0) <==> if at + 4 <= |b| && b[at] / 64 == 2 then Tiles(b, at) else at == |b|
      decreases |b| - at
    {
      at := Next(b, at);
    }
    if at != |b| {
      return Some(InvalidCompoundPacket);
    }
    return None;
  }

  // ---------------------------------------------------------------- the walk

  function DecodeBlock(b: seq<u8>, at: nat): Block
    requires at + 24 <= |b|
  {
    Block(FromBe32(b, at), b[at + 4], FromBe24(b, at + 5), FromBe32(b, at + 8), FromBe32(b, at + 12),
          FromBe32(b, at + 16), FromBe32(b, at + 20))
  }

  function DecodeBlocks(b: seq<u8>, at: nat, n: nat): (blocks: seq<Block>)
    requires at + 24 * n <= |b|
    ensures |blocks| == n
    decreases n
  {
    if n == 0 then [] else [DecodeBlock(b, at)] + DecodeBlocks(b, at + 24, n - 1)
  }

  /** The names of a chunk whose items start at `at`, and where the walk over them stops: at a
      null octet, or past `end`.  None if it would read outside the message. */
  datatype Items = Items(names: seq<Text>, stop: nat)

  function DecodeItems(b: seq<u8>, at: nat, end: nat): (r: Option<Items>)
    ensures r.Some? ==> at <= r.value.stop
    decreases |b| - at
  {
    if |b| <= at then None
    else if b[at] == 0 then Some(Items([], at))
    else if |b| <= at + 1 then None
    else
      var next := at + b[at + 1] + 2;
      if end <= next then Some(Items([], next))
      else if |b| < next then None
      else
        var name: Text := b[at + 2..next];
        match DecodeItems(b, next, end)
        case None => None
        case Some(Items(names, stop)) => Some(Items(if b[at] == SDES_CNAME then [name] + names else names, stop))
  }

  function DecodeChunks(b: seq<u8>, at: nat, end: nat, count: nat): (chunks: Option<seq<Chunk>>)
    ensures chunks.Some? ==> |chunks.value| <= count
    decreases count
  {
    if count == 0 || end <= at + 4 then Some([])
    else if |b| < at + 4 then None
    else
      match DecodeItems(b, at + 4, end)
      case None => None
      case Some(Items(names, stop)) =>
        match DecodeChunks(b, at + 4 * ((stop - at) / 4) + 4, end, count - 1)
        case None => None
        case Some(chunks) => Some([Chunk(FromBe32(b, at), names)] + chunks)
  }

  /** The end of an SDES packet as the program computes it: the length field is read without
      converting it from network byte order. */
  function SdesEnd(b: seq<u8>, at: nat): nat
    requires at + 4 <= |b|
  {
    at + 4 * (b[at + 2] + 0x100 * b[at + 3] as int + 1)
  }

  /** One packet; the body is read by its count, whatever its length field says.  None if that
      would read outside the message. */
  function DecodeAt(b: seq<u8>, at: nat): Option<RtcpPacket>
    requires at + 4 <= |b|
  {
    var count: nat := b[at] % 32;
    var pt := b[at + 1];
    if pt == PT_SR then
      if |b| < at + 28 + 24 * count then None
      else Some(SenderReport(FromBe32(b, at + 4), FromBe32(b, at + 8), FromBe32(b, at + 12), FromBe32(b, at + 16),
                             FromBe32(b, at + 20), FromBe32(b, at + 24), DecodeBlocks(b, at + 28, count)))
    else if pt == PT_RR then
      if |b| < at + 8 + 24 * count then None
      else Some(ReceiverReport(FromBe32(b, at + 4), DecodeBlocks(b, at + 8, count)))
    else if pt == PT_SDES then
      match DecodeChunks(b, at + 4, SdesEnd(b, at), count)
      case None => None
      case Some(chunks) => Some(SourceDescription(chunks))
    else if pt == PT_BYE then
      if |b| < at + 4 + 4 * count then None else Some(Bye(FromBe32List(b, at + 4, count)))
    else Some(Other(pt))
  }

  function DecodeAll(b: seq<u8>, at: nat): Option<seq<RtcpPacket>>
    decreases |b| - at
  {
    if |b| < at + 4 then Some([])
    else
      match DecodeAt(b, at)
      case None => None
      case Some(p) =>
        match DecodeAll(b, Next(b, at))
        case None => None
        case Some(ps) => Some([p] + ps)
  }

  /** What a receiver makes of a datagram. */
  datatype Received = Refused(error: RtcpError) | Compound(packets: seq<RtcpPacket>) | Overrun

  function Receive(b: seq<u8>): Received {
    match Check(b)
    case Some(error) => Refused(error)
    case None =>
      match DecodeAll(b, 0)
      case None => Overrun
      case Some(packets) => Compound(packets)
  }

  // ---------------------------------------------------------------- round trips

  /** The bytes `e` stand at position `at`. */
  ghost predicate Holds(b: seq<u8>, at: nat, e: seq<u8>) {
    at + |e| <= |b| && b[at..at + |e|] == e
  }

  lemma HoldsParts(b: seq<u8>, at: nat, e: seq<u8>, f: seq<u8>)
    requires Holds(b, at, e + f)
    ensures Holds(b, at, e) && Holds(b, at + |e|, f) && at + |e| + |f| <= |b|
  {
    assert b[at..at + |e|] == b[at..at + |e + f|][..|e|];
    assert b[at + |e|..at + |e| + |f|] == b[at..at + |e + f|][|e|..];
  }

  lemma HoldsByte(b: seq<u8>, at: nat, e: seq<u8>, i: nat)
    requires Holds(b, at, e) && i < |e|
    ensures b[at + i] == e[i]
  {
    assert b[at..at + |e|][i] == b[at + i];
  }

  lemma HoldsWord(w: u32, b: seq<u8>, at: nat)
    requires Holds(b, at, Be32(w))
    ensures at + 4 <= |b| && FromBe32(b, at) == w
  {
    Be32RoundTrip(w, b, at);
  }

  lemma BlockRoundTrip(k: Block, b: seq<u8>, at: nat)
    requires Holds(b, at, EncodeBlock(k))
    ensures at + 24 <= |b| && DecodeBlock(b, at) == k
  {
    assert at + 24 <= |b|;
    hide Be32, Be24, FromBe32, FromBe24, EncodeBlock, Holds;
    var e := EncodeBlock(k);
    BlockFields(k);
    HoldsSlice(b, at, e, 0, 4, Be32(k.ssrc));
    HoldsWord(k.ssrc, b, at);
    HoldsByte(b, at, e, 4);
    HoldsSlice(b, at, e, 5, 8, Be24(k.lost));
    HoldsThree(k.lost, b, at + 5);
    HoldsSlice(b, at, e, 8, 12, Be32(k.lastSeq));
    HoldsWord(k.lastSeq, b, at + 8);
    HoldsSlice(b, at, e, 12, 16, Be32(k.jitter));
    HoldsWord(k.jitter, b, at + 12);
    HoldsSlice(b, at, e, 16, 20, Be32(k.lsr));
    HoldsWord(k.lsr, b, at + 16);
    HoldsSlice(b, at, e, 20, 24, Be32(k.dlsr));
    HoldsWord(k.dlsr, b, at + 20);
  }

  lemma BlockFields(k: Block)
    ensures var e := EncodeBlock(k);
            && e[0..4] == Be32(k.ssrc) && e[4] == k.fraction && e[5..8] == Be24(k.lost) && e[8..12] == Be32(k.lastSeq)
            && e[12..16] == Be32(k.jitter) && e[16..20] == Be32(k.lsr) && e[20..24] == Be32(k.dlsr)
  {
    hide Be32, Be24;
  }

  lemma HoldsSlice(b: seq<u8>, at: nat, e: seq<u8>, i: nat, j: nat, f: seq<u8>)
    requires Holds(b, at, e) && i <= j <= |e| && e[i..j] == f
    ensures Holds(b, at + i, f)
  {
    assert e == e[..i] + (f + e[j..]);
    HoldsParts(b, at, e[..i], f + e[j..]);
    HoldsParts(b, at + i, f, e[j..]);
  }

  lemma HoldsThree(n: u24, b: seq<u8>, at: nat)
    requires Holds(b, at, Be24(n))
    ensures at + 3 <= |b| && FromBe24(b, at) == n
  {
    Be24RoundTrip(n, b, at);
  }

  lemma {:induction false} BlocksRoundTrip(blocks: seq<Block>, b: seq<u8>, at: nat)
    requires Holds(b, at, EncodeBlocks(blocks))
    ensures at + 24 * |blocks| <= |b| && DecodeBlocks(b, at, |blocks|) == blocks
    decreases |blocks|
  {
    if blocks != [] {
      hide Holds, EncodeBlock, DecodeBlock;
      FirstBlock(blocks[0], EncodeBlocks(blocks[1..]), b, at);
      BlocksRoundTrip(blocks[1..], b, at + 24);
      assert blocks == [blocks[0]] + blocks[1..];
    }
  }

  lemma FirstBlock(k: Block, rest: seq<u8>, b: seq<u8>, at: nat)
    requires Holds(b, at, EncodeBlock(k) + rest)
    ensures at + 24 <= |b| && DecodeBlock(b, at) == k && Holds(b, at + 24, rest)
  {
    HoldsParts(b, at, EncodeBlock(k), rest);
    BlockRoundTrip(k, b, at);
  }

  /** The items of a chunk are followed by a null octet. */
  lemma {:induction false} ItemsRoundTrip(names: seq<Text>, b: seq<u8>, at: nat, end: nat)
    requires Holds(b, at, EncodeItems(names) + [0])
    requires at + |EncodeItems(names)| < end
    ensures DecodeItems(b, at, end) == Some(Items(names, at + |EncodeItems(names)|))
    decreases |names|
  {
    hide Holds, DecodeItems;
    var items := EncodeItems(names);
    HoldsParts(b, at, items, [0]);
    HoldsByte(b, at + |items|, [0], 0);
    if names != [] {
      var item, rest := EncodeItem(names[0]), EncodeItems(names[1..]);
      assert items + [0] == item + (rest + [0]);
      HoldsParts(b, at, item, rest + [0]);
      ItemRoundTrip(names[0], b, at);
      ItemsRoundTrip(names[1..], b, at + |item|, end);
      DecodeItemsStep(b, at, end, names[0], names[1..], at + |items|);
      assert names == [names[0]] + names[1..];
    } else {
      NoItems(b, at, end);
    }
  }

  lemma NoItems(b: seq<u8>, at: nat, end: nat)
    requires at < |b| && b[at] == 0
    ensures DecodeItems(b, at, end) == Some(Items([], at))
  {
  }

  lemma DecodeItemsStep(b: seq<u8>, at: nat, end: nat, name: Text, rest: seq<Text>, stop: nat)
    requires var next := at + 2 + |name|;
             && next <= |b| && next < end && b[at] == SDES_CNAME && b[at + 1] == |name| && b[at + 2..next] == name
             && DecodeItems(b, next, end) == Some(Items(rest, stop))
    ensures DecodeItems(b, at, end) == Some(Items([name] + rest, stop))
  {
  }

  lemma ItemRoundTrip(name: Text, b: seq<u8>, at: nat)
    requires Holds(b, at, EncodeItem(name))
    ensures var next := at + 2 + |name|;
            next <= |b| && b[at] == SDES_CNAME && b[at + 1] == |name| && b[at + 2..next] == name
  {
    var item := EncodeItem(name);
    HoldsByte(b, at, item, 0);
    HoldsByte(b, at, item, 1);
    assert b[at + 2..at + |item|] == item[2..];
  }

  lemma {:induction false} ChunksRoundTrip(chunks: seq<Chunk>, b: seq<u8>, at: nat, end: nat)
    requires Holds(b, at, EncodeChunks(chunks))
    requires at + |EncodeChunks(chunks)| <= end
    ensures DecodeChunks(b, at, end, |chunks|) == Some(chunks)
    decreases |chunks|
  {
    hide Holds, EncodeChunk, DecodeItems, FromBe32, DecodeChunks;
    UnfoldChunks(chunks, b, at, end);
    hide EncodeChunks;
    if chunks != [] {
      var stop := FirstChunk(chunks[0], EncodeChunks(chunks[1..]), b, at, end);
      var next := at + |EncodeChunk(chunks[0])|;
      ChunksRoundTrip(chunks[1..], b, next, end);
      DecodeChunksStep(b, at, end, |chunks|, chunks[0].names, stop, next, chunks[1..]);
      assert chunks == [Chunk(chunks[0].ssrc, chunks[0].names)] + chunks[1..];
    }
  }

  /** Names that were read to the last one lie before the end. */
  lemma {:induction false} ItemsBeforeEnd(names: seq<Text>, b: seq<u8>, at: nat, end: nat, stop: nat)
    requires Holds(b, at, EncodeItems(names) + [0]) && at < end
    requires DecodeItems(b, at, end) == Some(Items(names, stop))
    ensures at + |EncodeItems(names)| < end
    decreases |names|
  {
    hide Holds, DecodeItems;
    if names != [] {
      var item, rest := EncodeItem(names[0]), EncodeItems(names[1..]);
      assert EncodeItems(names) + [0] == item + (rest + [0]);
      HoldsParts(b, at, item, rest + [0]);
      ItemRoundTrip(names[0], b, at);
      ItemsLeft(b, at, end, names, stop);
      ItemsBeforeEnd(names[1..], b, at + |item|, end, stop);
    }
  }

  lemma ItemsLeft(b: seq<u8>, at: nat, end: nat, names: seq<Text>, stop: nat)
    requires names != []
    requires var next := at + 2 + |names[0]|;
             next <= |b| && b[at] == SDES_CNAME && b[at + 1] == |names[0]| && b[at + 2..next] == names[0]
    requires DecodeItems(b, at, end) == Some(Items(names, stop))
    ensures var next := at + 2 + |names[0]|;
            next < end && DecodeItems(b, next, end) == Some(Items(names[1..], stop))
  {
  }

  /** A chunk that was read with all its names lies before the end, filling included: both are at a
      multiple of four. */
  lemma ChunkBeforeEnd(c: Chunk, b: seq<u8>, at: nat, end: nat, stop: nat)
    requires Holds(b, at, EncodeChunk(c)) && at + 4 < end && (end - at) % 4 == 0
    requires DecodeItems(b, at + 4, end) == Some(Items(c.names, stop))
    ensures at + |EncodeChunk(c)| <= end
  {
    hide Holds, Be32, DecodeItems, EncodeItems;
    ChunkAligned(c);
    var items := EncodeItems(c.names);
    var zeros := Zeros(1 + Fill(|items| + 5));
    assert EncodeChunk(c) == Be32(c.ssrc) + (items + zeros);
    HoldsParts(b, at, Be32(c.ssrc), items + zeros);
    NullFirst(items, Fill(|items| + 5));
    HoldsParts(b, at + 4, items + [0], zeros[1..]);
    ItemsBeforeEnd(c.names, b, at + 4, end, stop);
    hide EncodeChunk, Zeros;
    FilledFits(5 + |items|, end - at);
  }

  lemma FilledFits(size: nat, room: nat)
    requires size <= room && room % 4 == 0
    ensures size + Fill(size) <= room
  {
  }

  /** The chunks of an SDES packet are all recovered exactly if they lie before the end at which the
      walk stops. */
  lemma {:induction false} ChunksReadIff(chunks: seq<Chunk>, b: seq<u8>, at: nat, end: nat)
    requires Holds(b, at, EncodeChunks(chunks)) && chunks != [] && at <= end && (end - at) % 4 == 0
    ensures DecodeChunks(b, at, end, |chunks|) == Some(chunks) <==> at + |EncodeChunks(chunks)| <= end
    decreases |chunks|
  {
    hide Holds, DecodeChunks, DecodeItems, EncodeChunk, FromBe32;
    if at + |EncodeChunks(chunks)| <= end {
      ChunksRoundTrip(chunks, b, at, end);
    } else if DecodeChunks(b, at, end, |chunks|) == Some(chunks) {
      UnfoldChunks(chunks, b, at, end);
      hide EncodeChunks;
      var c := chunks[0];
      HoldsParts(b, at, EncodeChunk(c), EncodeChunks(chunks[1..]));
      var stop := ChunkLeft(chunks, b, at, end);
      ChunkBeforeEnd(c, b, at, end, stop);
      var again := ChunkRoundTrip(c, b, at, end);
      ChunkAligned(c);
      var next := at + |EncodeChunk(c)|;
      if chunks[1..] == [] {
        NoChunks();
      } else {
        Aligned(end - at, |EncodeChunk(c)|);
        ChunksReadIff(chunks[1..], b, next, end);
      }
    }
  }

  lemma NoChunks()
    ensures EncodeChunks([]) == []
  {
  }

  lemma Aligned(a: int, b: int)
    requires a % 4 == 0 && b % 4 == 0
    ensures (a - b) % 4 == 0
  {
  }

  /** What a successful walk has read first. */
  lemma ChunkLeft(chunks: seq<Chunk>, b: seq<u8>, at: nat, end: nat) returns (stop: nat)
    requires chunks != [] && DecodeChunks(b, at, end, |chunks|) == Some(chunks)
    ensures at + 4 < end && at <= stop && DecodeItems(b, at + 4, end) == Some(Items(chunks[0].names, stop))
    ensures DecodeChunks(b, at + 4 * ((stop - at) / 4) + 4, end, |chunks| - 1) == Some(chunks[1..])
  {
    hide DecodeItems, FromBe32;
    stop := DecodeItems(b, at + 4, end).value.stop;
    var rest := DecodeChunks(b, at + 4 * ((stop - at) / 4) + 4, end, |chunks| - 1).value;
    assert chunks[1..] == rest;
  }

  lemma UnfoldChunks(chunks: seq<Chunk>, b: seq<u8>, at: nat, end: nat)
    ensures if chunks == [] then DecodeChunks(b, at, end, 0) == Some([])
            else EncodeChunks(chunks) == EncodeChunk(chunks[0]) + EncodeChunks(chunks[1..])
  {
    hide EncodeChunk, DecodeItems, FromBe32;
  }

  lemma FirstChunk(c: Chunk, rest: seq<u8>, b: seq<u8>, at: nat, end: nat) returns (stop: nat)
    requires Holds(b, at, EncodeChunk(c) + rest) && at + |EncodeChunk(c) + rest| <= end
    ensures at + 4 < end && at + 4 <= |b| && FromBe32(b, at) == c.ssrc
    ensures at + 4 <= stop && DecodeItems(b, at + 4, end) == Some(Items(c.names, stop))
    ensures at + 4 * ((stop - at) / 4) + 4 == at + |EncodeChunk(c)|
    ensures Holds(b, at + |EncodeChunk(c)|, rest)
  {
    hide Holds, EncodeChunk, DecodeItems, FromBe32;
    HoldsParts(b, at, EncodeChunk(c), rest);
    stop := ChunkRoundTrip(c, b, at, end);
  }

  lemma DecodeChunksStep(b: seq<u8>, at: nat, end: nat, count: nat, names: seq<Text>, stop: nat, next: nat, rest: seq<Chunk>)
    requires 0 < count && at + 4 < end && at + 4 <= |b| && at <= stop
    requires DecodeItems(b, at + 4, end) == Some(Items(names, stop))
    requires next == at + 4 * ((stop - at) / 4) + 4
    requires DecodeChunks(b, next, end, count - 1) == Some(rest)
    ensures DecodeChunks(b, at, end, count) == Some([Chunk(FromBe32(b, at), names)] + rest)
  {
    hide DecodeItems, FromBe32;
  }

  /** One chunk: where the walk over its items stops, and where the next chunk starts. */
  lemma ChunkRoundTrip(c: Chunk, b: seq<u8>, at: nat, end: nat) returns (stop: nat)
    requires Holds(b, at, EncodeChunk(c)) && at + |EncodeChunk(c)| <= end
    ensures at + 4 < end && at + 4 <= |b| && FromBe32(b, at) == c.ssrc
    ensures at + 4 <= stop && DecodeItems(b, at + 4, end) == Some(Items(c.names, stop))
    ensures at + 4 * ((stop - at) / 4) + 4 == at + |EncodeChunk(c)|
  {
    hide Holds, Be32, FromBe32, DecodeItems;
    ChunkAligned(c);
    var items := EncodeItems(c.names);
    hide EncodeItems, Fill;
    var zeros := Zeros(1 + Fill(|items| + 5));
    assert EncodeChunk(c) == Be32(c.ssrc) + (items + zeros);
    hide EncodeChunk, Zeros;
    HoldsParts(b, at, Be32(c.ssrc), items + zeros);
    HoldsWord(c.ssrc, b, at);
    NullFirst(items, Fill(|items| + 5));
    HoldsParts(b, at + 4, items + [0], zeros[1..]);
    ItemsRoundTrip(c.names, b, at + 4, end);
    stop := at + 4 + |items|;
    NextMultiple(|items|);
  }

  lemma NullFirst(items: seq<u8>, fill: nat)
    ensures var zeros := Zeros(1 + fill); items + zeros == (items + [0]) + zeros[1..]
  {
    var zeros := Zeros(1 + fill);
    assert zeros == [0] + zeros[1..];
  }

  lemma NextMultiple(n: nat)
    ensures 4 * ((4 + n) / 4) + 4 == n + 5 + Fill(n + 5)
  {
  }

  lemma HeaderRoundTrip(count: nat, pt: u8, words: u16, b: seq<u8>, at: nat)
    requires Holds(b, at, Header(count, pt, words))
    ensures b[at] / 32 == 4 && b[at] / 64 == 2 && b[at] % 32 == count % 32 && b[at + 1] == pt && Next(b, at) == at + 4 * (words + 1)
    ensures SdesEnd(b, at) == at + 4 * (words / 0x100 + 0x100 * (words % 0x100) + 1)
  {
    var h := Header(count, pt, words);
    HoldsByte(b, at, h, 0);
    HoldsByte(b, at, h, 1);
    HoldsByte(b, at, h, 2);
    HoldsByte(b, at, h, 3);
    assert b[at + 2..at + 4] == h[2..4] == Be16(words) by {
      assert b[at..at + 4] == h;
    }
    Be16RoundTrip(words, b, at + 2);
  }

  /** Any packet that can be put on the wire is decoded to itself if and only if it is readable: it has
      at most 31 entries, and if it is a source description, the high octet of its length does not
      exceed the low one. */
  lemma PacketRoundTrip(p: Built, b: seq<u8>, at: nat)
    requires Encodable(p) && Holds(b, at, Encode(p))
    ensures DecodeAt(b, at) == Some(p.packet) <==> Readable(p)
    ensures Next(b, at) == at + |Encode(p)| && b[at] / 64 == 2 && b[at] / 32 == 4
    ensures b[at + 1] == PayloadType(p.packet)
  {
    hide Holds, Header, Next, SdesEnd, EncodeBody, EncodeReason, DecodeAt;
    ContentAligned(p);
    var words := |EncodeContent(p)| / 4;
    HoldsParts(b, at, Header(Count(p.packet), PayloadType(p.packet), words), EncodeContent(p));
    HeaderRoundTrip(Count(p.packet), PayloadType(p.packet), words, b, at);
    HoldsParts(b, at + 4, EncodeBody(p.packet), EncodeReason(p.reason));
    if Counted(p) {
      CountedRoundTrip(p, b, at, words);
    } else {
      MiscountedIsLost(p.packet, b, at);
    }
  }

  lemma CountedRoundTrip(p: Built, b: seq<u8>, at: nat, words: u16)
    requires Encodable(p) && Counted(p) && at + 4 + |EncodeBody(p.packet)| <= |b| && Holds(b, at + 4, EncodeBody(p.packet))
    requires b[at] % 32 == Count(p.packet) && b[at + 1] == PayloadType(p.packet) && |EncodeContent(p)| == 4 * words
    requires SdesEnd(b, at) == at + 4 * (words / 0x100 + 0x100 * (words % 0x100) + 1)
    ensures DecodeAt(b, at) == Some(p.packet) <==> ReadToEnd(p)
  {
    hide Holds, SdesEnd, EncodeBlocks, EncodeChunks, EncodeReason, Be32, Be32List;
    hide DecodeBlocks, DecodeChunks, FromBe32, FromBe32List, ReadToEnd;
    OthersReadable(p);
    match p.packet
    case SenderReport(_, _, _, _, _, _, _) => SrRoundTrip(p.packet, b, at);
    case ReceiverReport(ssrc, blocks) =>
      HoldsParts(b, at + 4, Be32(ssrc), EncodeBlocks(blocks));
      HoldsWord(ssrc, b, at + 4);
      BlocksRoundTrip(blocks, b, at + 8);
    case SourceDescription(chunks) => SdesReadIff(p, chunks, b, at, words);
    case Bye(ssrcs) => HoldsList(ssrcs, b, at + 4);
  }

  /** Whatever has more entries than the header can count is not decoded to itself. */
  lemma MiscountedIsLost(p: RtcpPacket, b: seq<u8>, at: nat)
    requires !p.Other? && 32 <= Count(p) && at + 4 <= |b|
    requires b[at] % 32 == Count(p) % 32 && b[at + 1] == PayloadType(p)
    ensures DecodeAt(b, at) != Some(p)
  {
    hide DecodeBlocks, DecodeChunks, FromBe32, FromBe32List, SdesEnd;
  }

  lemma OthersReadable(p: Built)
    ensures !p.packet.SourceDescription? ==> ReadToEnd(p)
  {
  }

  lemma SdesReadIff(p: Built, chunks: seq<Chunk>, b: seq<u8>, at: nat, words: u16)
    requires p == Built(SourceDescription(chunks), None) && |EncodeContent(p)| == 4 * words
    requires at + 4 <= |b| && Holds(b, at + 4, EncodeChunks(chunks))
    requires SdesEnd(b, at) == at + 4 * (words / 0x100 + 0x100 * (words % 0x100) + 1)
    ensures DecodeChunks(b, at + 4, SdesEnd(b, at), |chunks|) == Some(chunks) <==> ReadToEnd(p)
  {
    hide Holds, EncodeChunks, DecodeChunks, SdesEnd;
    var end := SdesEnd(b, at);
    assert EncodeContent(p) == EncodeChunks(chunks) + [] == EncodeChunks(chunks);
    assert words == |EncodeContent(p)| / 4;
    assert at + 4 + 4 * words <= end <==> words / 0x100 <= words % 0x100;
    if chunks == [] {
      NoChunks();
      ChunksRoundTrip(chunks, b, at + 4, end);
    } else {
      assert end - (at + 4) == 4 * (words / 0x100 + 0x100 * (words % 0x100));
      ChunksReadIff(chunks, b, at + 4, end);
    }
  }

  lemma HoldsList(words: seq<u32>, b: seq<u8>, at: nat)
    requires Holds(b, at, Be32List(words))
    ensures at + 4 * |words| <= |b| && FromBe32List(b, at, |words|) == words
  {
    Be32ListRoundTrip(words, b, at);
  }

  lemma SrRoundTrip(p: RtcpPacket, b: seq<u8>, at: nat)
    requires p.SenderReport? && Holds(b, at + 4, EncodeBody(p)) && at + 28 + 24 * |p.blocks| <= |b|
    ensures SenderReport(FromBe32(b, at + 4), FromBe32(b, at + 8), FromBe32(b, at + 12), FromBe32(b, at + 16),
                         FromBe32(b, at + 20), FromBe32(b, at + 24), DecodeBlocks(b, at + 28, |p.blocks|)) == p
  {
    hide EncodeBlocks, DecodeBlocks, Be32List, FromBe32;
    var fields := [p.ssrc, p.ntpSec, p.ntpFrac, p.rtpTs, p.psent, p.osent];
    HoldsParts(b, at + 4, Be32List(fields), EncodeBlocks(p.blocks));
    Be32ListRoundTrip(fields, b, at + 4);
    SixWords(b, at + 4, fields);
    BlocksRoundTrip(p.blocks, b, at + 28);
  }

  lemma SixWords(b: seq<u8>, at: nat, f: seq<u32>)
    requires |f| == 6 && at + 24 <= |b| && FromBe32List(b, at, 6) == f
    ensures f[0] == FromBe32(b, at) && f[1] == FromBe32(b, at + 4) && f[2] == FromBe32(b, at + 8)
    ensures f[3] == FromBe32(b, at + 12) && f[4] == FromBe32(b, at + 16) && f[5] == FromBe32(b, at + 20)
  {
    hide FromBe32;
    assert f[1..] == FromBe32List(b, at + 4, 5);
    assert f[2..] == FromBe32List(b, at + 8, 4);
    assert f[3..] == FromBe32List(b, at + 12, 3);
    assert f[4..] == FromBe32List(b, at + 16, 2);
    assert f[5..] == FromBe32List(b, at + 20, 1);
  }

  function Packets(ps: seq<Built>): (r: seq<RtcpPacket>)
    ensures |r| == |ps|
  {
    if ps == [] then [] else [ps[0].packet] + Packets(ps[1..])
  }

  /** The first packet of what is left of a compound packet. */
  lemma FirstPacket(p: Built, rest: seq<u8>, b: seq<u8>, at: nat)
    requires Encodable(p) && Holds(b, at, Encode(p) + rest)
    ensures at + 4 <= |b| && b[at] / 64 == 2 && b[at] / 32 == 4 && b[at + 1] == PayloadType(p.packet)
    ensures DecodeAt(b, at) == Some(p.packet) <==> Readable(p)
    ensures Next(b, at) == at + |Encode(p)| && Holds(b, Next(b, at), rest)
  {
    hide Holds, Encode, DecodeAt, Next, Encodable, Readable;
    HoldsParts(b, at, Encode(p), rest);
    PacketRoundTrip(p, b, at);
  }

  /** The walk over what is left of a compound packet recovers what is left of the list exactly if
      all of it is readable. */
  lemma {:induction false} AllRoundTrip(ps: seq<Built>, b: seq<u8>, at: nat)
    requires AllEncodable(ps)
    requires Holds(b, at, EncodeAll(ps)) && at + |EncodeAll(ps)| == |b|
    ensures DecodeAll(b, at) == Some(Packets(ps)) <==> AllReadable(ps)
    ensures ps != [] ==> at + 4 <= |b| && Tiles(b, at) && b[at] / 64 == 2
    decreases |ps|
  {
    Unfold(ps);
    hide Holds, Encode, DecodeAt, Next, Encodable, Readable, AllEncodable, AllReadable, DecodeAll, EncodeAll, Packets, Tiles;
    if ps == [] {
      NothingLeft(b, at);
    } else {
      FirstPacket(ps[0], EncodeAll(ps[1..]), b, at);
      AllRoundTrip(ps[1..], b, Next(b, at));
      WalkStep(b, at, ps[0].packet, Packets(ps[1..]), ps[1..] == []);
    }
  }

  lemma Unfold(ps: seq<Built>)
    requires AllEncodable(ps)
    ensures if ps == [] then EncodeAll(ps) == [] && Packets(ps) == [] && AllReadable(ps) && AllCounted(ps)
            else
              && Encodable(ps[0]) && AllEncodable(ps[1..])
              && EncodeAll(ps) == Encode(ps[0]) + EncodeAll(ps[1..])
              && Packets(ps) == [ps[0].packet] + Packets(ps[1..])
              && (AllReadable(ps) <==> Readable(ps[0]) && AllReadable(ps[1..]))
              && (AllCounted(ps) <==> Counted(ps[0]) && AllCounted(ps[1..]))
              && (ps[1..] == [] ==> EncodeAll(ps[1..]) == [])
  {
    hide Encode, EncodeAll, Packets, Encodable, Readable, Counted, AllReadable, AllCounted;
    UnfoldBytes(ps);
    UnfoldReadable(ps);
    UnfoldCounted(ps);
  }

  lemma UnfoldBytes(ps: seq<Built>)
    requires AllEncodable(ps)
    ensures if ps == [] then EncodeAll(ps) == [] && Packets(ps) == []
            else
              && Encodable(ps[0]) && AllEncodable(ps[1..])
              && EncodeAll(ps) == Encode(ps[0]) + EncodeAll(ps[1..])
              && Packets(ps) == [ps[0].packet] + Packets(ps[1..])
              && (ps[1..] == [] ==> EncodeAll(ps[1..]) == [])
  {
    hide Encode, Encodable;
  }

  lemma UnfoldReadable(ps: seq<Built>)
    ensures AllReadable(ps) <==> ps == [] || (Readable(ps[0]) && AllReadable(ps[1..]))
  {
    hide Readable;
    if ps != [] && Readable(ps[0]) && AllReadable(ps[1..]) {
      forall i | 0 <= i < |ps| ensures Readable(ps[i]) {
        assert i > 0 ==> ps[i] == ps[1..][i - 1];
      }
    }
  }

  lemma UnfoldCounted(ps: seq<Built>)
    ensures AllCounted(ps) <==> ps == [] || (Counted(ps[0]) && AllCounted(ps[1..]))
  {
    hide Counted;
    if ps != [] && Counted(ps[0]) && AllCounted(ps[1..]) {
      forall i | 0 <= i < |ps| ensures Counted(ps[i]) {
        assert i > 0 ==> ps[i] == ps[1..][i - 1];
      }
    }
  }

  lemma NothingLeft(b: seq<u8>, at: nat)
    requires at == |b|
    ensures DecodeAll(b, at) == Some([])
  {
  }

  lemma WalkStep(b: seq<u8>, at: nat, p: RtcpPacket, rest: seq<RtcpPacket>, last: bool)
    requires at + 4 <= |b|
    requires if last then Next(b, at) == |b|
             else Next(b, at) + 4 <= |b| && b[Next(b, at)] / 64 == 2 && Tiles(b, Next(b, at))
    ensures Tiles(b, at)
    ensures DecodeAll(b, at) == Some([p] + rest) <==>
            DecodeAt(b, at) == Some(p) && DecodeAll(b, Next(b, at)) == Some(rest)
  {
    hide DecodeAt, Next;
    var first, more := DecodeAt(b, at), DecodeAll(b, Next(b, at));
    if first.Some? && more.Some? {
      SameParts(first.value, more.value, p, rest);
    }
  }

  lemma SameParts(p: RtcpPacket, ps: seq<RtcpPacket>, q: RtcpPacket, qs: seq<RtcpPacket>)
    ensures [p] + ps == [q] + qs <==> p == q && ps == qs
  {
    assert ([p] + ps)[0] == p && ([p] + ps)[1..] == ps;
    assert ([q] + qs)[0] == q && ([q] + qs)[1..] == qs;
  }

  /** Every compound packet that starts with a report, built from whatever packets can be put on
      the wire, passes the validity check; the receiver recovers the same packets, with every
      field, block, name and source, in order, if and only if all of them are readable. */
  lemma CompoundRoundTrip(ps: seq<Built>)
    requires AllEncodable(ps) && ps != []
    requires ps[0].packet.SenderReport? || ps[0].packet.ReceiverReport?
    ensures Check(EncodeAll(ps)) == None
    ensures Receive(EncodeAll(ps)) == Compound(Packets(ps)) <==> AllReadable(ps)
  {
    hide Encode, DecodeAll, Tiles, Encodable, AllEncodable, DecodeAt, Next, EncodeAll, Packets, Readable, AllReadable, Holds, Check;
    var b := EncodeAll(ps);
    WholeHolds(b);
    AllRoundTrip(ps, b, 0);
    CompoundPasses(ps);
  }

  lemma WholeHolds(b: seq<u8>)
    ensures Holds(b, 0, b)
  {
    assert b[0..0 + |b|] == b;
  }

  lemma CompoundPasses(ps: seq<Built>)
    requires AllEncodable(ps) && ps != []
    requires ps[0].packet.SenderReport? || ps[0].packet.ReceiverReport?
    ensures Check(EncodeAll(ps)) == None
  {
    hide Encode, DecodeAll, Tiles, Encodable, AllEncodable, DecodeAt, Next, EncodeAll, Packets, Readable, AllReadable, Holds;
    Unfold(ps);
    var b := EncodeAll(ps);
    WholeHolds(b);
    AllAligned(ps);
    AllRoundTrip(ps, b, 0);
    FirstPacket(ps[0], EncodeAll(ps[1..]), b, 0);
  }

  /** Whatever fits a buffer of less than 1028 octets is readable if and only if no packet has more
      entries than its header can count. */
  lemma {:induction false} SmallIsReadable(ps: seq<Built>)
    requires AllEncodable(ps) && |EncodeAll(ps)| < 1028
    ensures AllReadable(ps) <==> AllCounted(ps)
  {
    Unfold(ps);
    if ps != [] {
      OneSmall(ps[0]);
      hide Encode, Encodable, Readable, AllReadable, AllEncodable, EncodeAll, Counted;
      SmallIsReadable(ps[1..]);
    }
  }

  lemma OneSmall(p: Built)
    requires Encodable(p)
    ensures |Encode(p)| < 1028 ==> ReadToEnd(p)
    ensures ReadToEnd(p) ==> (Readable(p) <==> Counted(p))
  {
    hide EncodeContent, Header;
  }

  /** The smallest source description that is lost: one chunk whose names fill it up to 1028 octets, sent
      after an empty report.  The datagram passes the check, but the length field 0x0100 is read as 1,
      and the description is decoded as an empty one. */
  lemma LongSdesIsLost(us: u32, ssrc: u32)
    ensures var names: seq<Text> := [Letters(255), Letters(255), Letters(255), Letters(243)];
            var rr, p := Built(ReceiverReport(us, []), None), Built(SourceDescription([Chunk(ssrc, names)]), None);
            && AllEncodable([rr, p]) && Encodable(p) && |Encode(p)| == 1028 && !Readable(p)
            && Check(EncodeAll([rr, p])) == None
            && Receive(EncodeAll([rr, p])) == Compound([rr.packet, SourceDescription([])])
  {
    var names: seq<Text> := [Letters(255), Letters(255), Letters(255), Letters(243)];
    var rr, p := Built(ReceiverReport(us, []), None), Built(SourceDescription([Chunk(ssrc, names)]), None);
    LongContent(ssrc, names);
    assert EncodeBody(rr.packet) == Be32(us) + [] && |EncodeContent(rr)| == 4;
    hide EncodeContent;
    var ps := [rr, p];
    assert ps[1..] == [p] && AllEncodable(ps);
    CompoundRoundTrip(ps);
    EmptyThenLong(us, p);
  }

  lemma LongContent(ssrc: u32, names: seq<Text>)
    requires |names| == 4 && |names[0]| == |names[1]| == |names[2]| == 255 && |names[3]| == 243
    ensures var p := Built(SourceDescription([Chunk(ssrc, names)]), None);
            |EncodeContent(p)| == 1024 && Encodable(p) && !ReadToEnd(p)
  {
    FourNames(names);
    OneChunk(Chunk(ssrc, names));
    hide EncodeChunk, EncodeItems, EncodeChunks;
    ChunkAligned(Chunk(ssrc, names));
    var p := Built(SourceDescription([Chunk(ssrc, names)]), None);
    assert EncodeContent(p) == EncodeChunk(Chunk(ssrc, names)) + [] == EncodeChunk(Chunk(ssrc, names));
  }

  /** An empty report, and after it a description of one chunk and 1028 octets. */
  lemma EmptyThenLong(us: u32, p: Built)
    requires Encodable(p) && p.packet.SourceDescription? && |p.packet.chunks| == 1 && |EncodeContent(p)| == 1024
    ensures var rr := Built(ReceiverReport(us, []), None);
            Encodable(rr) && AllEncodable([rr, p]) &&
            DecodeAll(EncodeAll([rr, p]), 0) == Some([rr.packet, SourceDescription([])])
  {
    var rr := Built(ReceiverReport(us, []), None);
    assert EncodeBody(rr.packet) == Be32(us) + [] && |EncodeContent(rr)| == 4;
    hide EncodeContent, EncodeBody;
    var ps := [rr, p];
    assert ps[1..] == [p] && [p][1..] == [];
    Unfold(ps);
    Unfold([p]);
    var b := EncodeAll(ps);
    assert b == Encode(rr) + (Encode(p) + []) && b[0..|b|] == b;
    hide Encode, EncodeAll, Encodable, AllEncodable;
    FirstPacket(rr, Encode(p) + [], b, 0);
    assert Encode(p) + [] == Encode(p);
    LongIsEmpty(p, b, 8);
    hide DecodeAt, Next;
    WalkStep(b, 8, SourceDescription([]), [], true);
    NothingLeft(b, |b|);
    var none: seq<RtcpPacket> := [];
    assert [SourceDescription([])] + none == [SourceDescription([])];
    WalkStep(b, 0, rr.packet, [SourceDescription([])], false);
    assert [rr.packet] + [SourceDescription([])] == [rr.packet, SourceDescription([])];
  }

  lemma LongIsEmpty(p: Built, b: seq<u8>, at: nat)
    requires Encodable(p) && p.packet.SourceDescription? && |p.packet.chunks| == 1 && |EncodeContent(p)| == 1024
    requires Holds(b, at, Encode(p))
    ensures at + 4 <= |b| && DecodeAt(b, at) == Some(SourceDescription([])) && Next(b, at) == at + 1028
    ensures b[at] / 64 == 2
  {
    hide Header, EncodeContent, Holds, Next, SdesEnd;
    HoldsParts(b, at, Header(1, PT_SDES, 0x100), EncodeContent(p));
    HeaderRoundTrip(1, PT_SDES, 0x100, b, at);
  }

  function Letters(n: u8): (name: Text)
    ensures |name| == n
  {
    seq(n, _ => 65 as u8)
  }

  lemma FourNames(names: seq<Text>)
    requires |names| == 4
    ensures |EncodeItems(names)| == 8 + |names[0]| + |names[1]| + |names[2]| + |names[3]|
  {
    assert EncodeItems(names[3..]) == EncodeItem(names[3]) + EncodeItems(names[3..][1..]);
    assert EncodeItems(names[2..]) == EncodeItem(names[2]) + EncodeItems(names[2..][1..]);
    assert names[2..][1..] == names[3..] && names[1..][1..] == names[2..] && names[3..][1..] == [];
    assert EncodeItems(names[1..]) == EncodeItem(names[1]) + EncodeItems(names[2..]);
    assert EncodeItems(names) == EncodeItem(names[0]) + EncodeItems(names[1..]);
  }

  lemma OneChunk(c: Chunk)
    ensures EncodeChunks([c]) == EncodeChunk(c)
  {
    hide EncodeChunk;
    assert [c][1..] == [];
    assert EncodeChunk(c) + [] == EncodeChunk(c);
  }
}
