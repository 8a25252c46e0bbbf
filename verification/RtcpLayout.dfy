/**
 RTCP on the wire, octet by octet (sections 6.4 to 6.6 of RFC 3550): where each field stands and how
 it is to be read, in plain numbers.  What the encoder writes has this layout, and octets with this
 layout are decoded to these fields.
 */
module RtcpLayout {
  import opened Words
  import opened RtcpTypes
  import opened RtcpCodec
  import opened Octets

  // ---------------------------------------------------------------- the layout

  /** A reception report block. */
  ghost predicate BlockAt(b: seq<u8>, at: nat, k: Block) {
    && at + 24 <= |b|
    && k.ssrc == Four(b, at)
    && k.fraction == b[at + 4]
    && k.lost == Three(b, at + 5)
    && k.lastSeq == Four(b, at + 8)
    && k.jitter == Four(b, at + 12)
    && k.lsr == Four(b, at + 16)
    && k.dlsr == Four(b, at + 20)
  }

  ghost predicate BlocksAt(b: seq<u8>, at: nat, blocks: seq<Block>) {
    forall k | 0 <= k < |blocks| :: BlockAt(b, at + 24 * k, blocks[k])
  }

  ghost predicate SenderReportAt(b: seq<u8>, at: nat, p: RtcpPacket) {
    && p.SenderReport? && at + 28 + 24 * |p.blocks| <= |b|
    && b[at + 1] == 200 && b[at] % 32 == |p.blocks|
    && p.ssrc == Four(b, at + 4)
    && p.ntpSec == Four(b, at + 8) && p.ntpFrac == Four(b, at + 12)
    && p.rtpTs == Four(b, at + 16)
    && p.psent == Four(b, at + 20) && p.osent == Four(b, at + 24)
    && BlocksAt(b, at + 28, p.blocks)
  }

  ghost predicate ReceiverReportAt(b: seq<u8>, at: nat, p: RtcpPacket) {
    && p.ReceiverReport? && at + 8 + 24 * |p.blocks| <= |b|
    && b[at + 1] == 201 && b[at] % 32 == |p.blocks|
    && p.ssrc == Four(b, at + 4)
    && BlocksAt(b, at + 8, p.blocks)
  }

  ghost predicate ByeAt(b: seq<u8>, at: nat, p: RtcpPacket) {
    && p.Bye? && at + 4 + 4 * |p.ssrcs| <= |b|
    && b[at + 1] == 203 && b[at] % 32 == |p.ssrcs|
    && WordsAt(b, at + 4, p.ssrcs)
  }

  /** The items of a chunk, and the null octet that ends them at `stop`.  Items that are not canonical
      names, of type 1, may stand between them. */
  ghost predicate ItemsAt(b: seq<u8>, at: nat, names: seq<Text>, stop: nat)
    decreases |b| - at
  {
    && at <= stop < |b|
    && if b[at] == 0 then at == stop && names == []
       else
         at + 1 < |b| &&
         var next := at + 2 + Octet(b, at + 1);
         && next <= stop
         && if b[at] == 1 then names != [] && names[0] == b[at + 2..next] && ItemsAt(b, next, names[1..], stop)
            else ItemsAt(b, next, names, stop)
  }

  /** Chunks one after the other up to `end`, each from a multiple of four on, counted from `at`. */
  ghost predicate ChunksAt(b: seq<u8>, at: nat, chunks: seq<Chunk>, end: nat)
    decreases |chunks|
  {
    if chunks == [] then at == end
    else
      && at + 4 < |b|
      && chunks[0].ssrc == Four(b, at)
      && exists stop: nat :: ItemsAt(b, at + 4, chunks[0].names, stop) && ChunksAt(b, After(at, stop), chunks[1..], end)
  }

  /** Where the chunk ends whose items end at `stop`. */
  function After(at: nat, stop: nat): nat
  {
    stop + 4 - (stop - at) % 4
  }

  ghost predicate DescriptionAt(b: seq<u8>, at: nat, p: RtcpPacket, end: nat) {
    && p.SourceDescription? && at + 4 <= |b|
    && b[at + 1] == 202 && b[at] % 32 == |p.chunks|
    && ChunksAt(b, at + 4, p.chunks, end)
  }

  /** A packet of any kind, up to `end`. */
  ghost predicate PacketAt(b: seq<u8>, at: nat, p: RtcpPacket, end: nat) {
    match p
    case SenderReport(_, _, _, _, _, _, _) => SenderReportAt(b, at, p)
    case ReceiverReport(_, _) => ReceiverReportAt(b, at, p)
    case SourceDescription(_) => DescriptionAt(b, at, p, end)
    case Bye(_) => ByeAt(b, at, p)
    case Other(pt) => at + 4 <= |b| && b[at + 1] == pt && !(200 <= pt <= 203)
  }

  /** Where the program looks for the end of a description: it reads the length with its octets swapped. */
  function EndAsRead(b: seq<u8>, at: nat): nat
    requires at + 4 <= |b|
  {
    at + 4 * (Octet(b, at + 2) + 256 * Octet(b, at + 3) + 1)
  }

  // ---------------------------------------------------------------- decoding

  lemma BlockRead(b: seq<u8>, at: nat, k: Block)
    requires at + 24 <= |b|
    ensures DecodeBlock(b, at) == k <==> BlockAt(b, at, k)
  {
    hide FromBe32, Four;
    FourIs(b, at);
    FourIs(b, at + 8);
    FourIs(b, at + 12);
    FourIs(b, at + 16);
    FourIs(b, at + 20);
  }

  lemma {:induction false} BlocksRead(b: seq<u8>, at: nat, n: nat, blocks: seq<Block>)
    requires at + 24 * n <= |b|
    ensures DecodeBlocks(b, at, n) == blocks <==> |blocks| == n && BlocksAt(b, at, blocks)
    decreases n
  {
    hide DecodeBlock, BlockAt;
    if n != 0 && |blocks| == n {
      BlockRead(b, at, blocks[0]);
      BlocksRead(b, at + 24, n - 1, blocks[1..]);
      BlocksMore(b, at, blocks);
      assert blocks == [blocks[0]] + blocks[1..];
      Parts(DecodeBlock(b, at), DecodeBlocks(b, at + 24, n - 1), blocks);
    }
  }

  lemma BlocksMore(b: seq<u8>, at: nat, blocks: seq<Block>)
    requires blocks != []
    ensures BlocksAt(b, at, blocks) <==> BlockAt(b, at, blocks[0]) && BlocksAt(b, at + 24, blocks[1..])
  {
    hide BlockAt;
    if BlocksAt(b, at, blocks) {
      forall k | 0 <= k < |blocks[1..]| ensures BlockAt(b, at + 24 + 24 * k, blocks[1..][k]) {
        assert BlockAt(b, at + 24 * (k + 1), blocks[k + 1]);
      }
      assert BlockAt(b, at + 24 * 0, blocks[0]);
    }
    if BlockAt(b, at, blocks[0]) && BlocksAt(b, at + 24, blocks[1..]) {
      forall k | 0 <= k < |blocks| ensures BlockAt(b, at + 24 * k, blocks[k]) {
        if k > 0 {
          assert BlockAt(b, at + 24 + 24 * (k - 1), blocks[1..][k - 1]);
        }
      }
    }
  }

  /** A report or goodbye that fits the octets is decoded to exactly the fields that stand there. */
  lemma ReportRead(b: seq<u8>, at: nat, p: RtcpPacket)
    requires at + 4 <= |b| && !p.SourceDescription?
    ensures DecodeAt(b, at) == Some(p) <==> PacketAt(b, at, p, at)
  {
    hide FromBe32, Four, DecodeBlocks, BlocksAt, DecodeChunks, FromBe32List, SdesEnd;
    var count: nat := b[at] % 32;
    if b[at + 1] == 200 {
      if at + 28 + 24 * count <= |b| {
        SenderFields(b, at, p);
      }
    } else if b[at + 1] == 201 {
      if at + 8 + 24 * count <= |b| {
        FourIs(b, at + 4);
        BlocksRead(b, at + 8, count, if p.ReceiverReport? then p.blocks else []);
      }
    } else if b[at + 1] == 203 {
      if at + 4 + 4 * count <= |b| {
        WordsRead(b, at + 4, count, if p.Bye? then p.ssrcs else []);
      }
    }
  }

  lemma SenderFields(b: seq<u8>, at: nat, p: RtcpPacket)
    requires at + 4 <= |b| && at + 28 + 24 * (Octet(b, at) % 32) <= |b| && b[at + 1] == 200
    ensures DecodeAt(b, at) == Some(p) <==> SenderReportAt(b, at, p)
  {
    hide FromBe32, Four, DecodeBlocks, BlocksAt, DecodeChunks, FromBe32List, SdesEnd;
    FourIs(b, at + 4);
    FourIs(b, at + 8);
    FourIs(b, at + 12);
    FourIs(b, at + 16);
    FourIs(b, at + 20);
    FourIs(b, at + 24);
    BlocksRead(b, at + 28, b[at] % 32, if p.SenderReport? then p.blocks else []);
  }

  lemma {:induction false} ItemsRead(b: seq<u8>, at: nat, names: seq<Text>, stop: nat, end: nat)
    requires ItemsAt(b, at, names, stop) && stop < end
    ensures DecodeItems(b, at, end) == Some(Items(names, stop))
    decreases |b| - at
  {
    if b[at] != 0 {
      var next := at + 2 + Octet(b, at + 1);
      if b[at] == 1 {
        ItemsRead(b, next, names[1..], stop, end);
        assert names == [names[0]] + names[1..];
      } else {
        ItemsRead(b, next, names, stop, end);
      }
    }
  }

  lemma {:induction false} ChunksForward(b: seq<u8>, at: nat, chunks: seq<Chunk>, end: nat)
    requires ChunksAt(b, at, chunks, end)
    ensures at <= end
    decreases |chunks|
  {
    if chunks != [] {
      var stop: nat :| ItemsAt(b, at + 4, chunks[0].names, stop) && ChunksAt(b, After(at, stop), chunks[1..], end);
      ChunksForward(b, After(at, stop), chunks[1..], end);
    }
  }

  /** Chunks that are laid out before the end of the walk are decoded to themselves. */
  lemma {:induction false} ChunksRead(b: seq<u8>, at: nat, chunks: seq<Chunk>, end: nat, limit: nat)
    requires ChunksAt(b, at, chunks, end) && end <= limit
    ensures DecodeChunks(b, at, limit, |chunks|) == Some(chunks)
    decreases |chunks|
  {
    hide DecodeItems, ItemsAt, Four, FromBe32;
    if chunks != [] {
      var stop: nat :| ItemsAt(b, at + 4, chunks[0].names, stop) && ChunksAt(b, After(at, stop), chunks[1..], end);
      ItemsInside(b, at + 4, chunks[0].names, stop);
      ChunksForward(b, After(at, stop), chunks[1..], end);
      ItemsRead(b, at + 4, chunks[0].names, stop, limit);
      ChunksRead(b, After(at, stop), chunks[1..], end, limit);
      FourIs(b, at);
      NextFour(at, stop);
      assert chunks == [Chunk(chunks[0].ssrc, chunks[0].names)] + chunks[1..];
      DecodeChunksStep(b, at, limit, |chunks|, chunks[0].names, stop, After(at, stop), chunks[1..]);
    }
  }

  lemma ItemsInside(b: seq<u8>, at: nat, names: seq<Text>, stop: nat)
    requires ItemsAt(b, at, names, stop)
    ensures at <= stop < |b|
  {
  }

  lemma NextFour(at: nat, stop: nat)
    requires at <= stop
    ensures After(at, stop) == at + 4 * ((stop - at) / 4) + 4 && stop < After(at, stop)
  {
  }

  /** A description is decoded to its chunks if they end no later than the program takes it to end. */
  lemma DescriptionRead(b: seq<u8>, at: nat, p: RtcpPacket, end: nat)
    requires at + 4 <= |b| && DescriptionAt(b, at, p, end) && end <= EndAsRead(b, at)
    ensures DecodeAt(b, at) == Some(p)
  {
    hide DecodeChunks, ChunksAt, DecodeBlocks, FromBe32, FromBe32List;
    ChunksRead(b, at + 4, p.chunks, end, SdesEnd(b, at));
  }

  // ---------------------------------------------------------------- a datagram

  /** Packets one after the other: each length field counts words of four octets less one. */
  ghost predicate Chained(b: seq<u8>, at: nat)
    decreases |b| - at
  {
    at == |b| || (at + 4 <= |b| && b[at] / 64 == 2 && Chained(b, at + 4 * (Two(b, at + 2) + 1)))
  }

  lemma {:induction false} TilesIsChained(b: seq<u8>, at: nat)
    requires at + 4 <= |b| && b[at] / 64 == 2
    ensures Tiles(b, at) <==> Chained(b, at)
    decreases |b| - at
  {
    var n := Next(b, at);
    if n + 4 <= |b| && b[n] / 64 == 2 {
      TilesIsChained(b, n);
    }
  }

  /** A datagram passes the check if and only if its size is a multiple of four octets, it starts with a
      report of version 2 without padding, and its packets are chained up to its end. */
  lemma CheckIs(b: seq<u8>)
    ensures Check(b) == None <==>
            4 <= |b| && |b| % 4 == 0 && b[0] / 32 == 4 && (b[1] == 200 || b[1] == 201) && Chained(b, 0)
    ensures var error := Check(b);
            error.Some? ==>
              error.value ==
              if |b| < 4 then HeaderTooShort
              else if |b| % 4 != 0 then LenNotMultiple4
              else if b[0] / 32 != 4 || (b[1] != 200 && b[1] != 201) then InvalidMask
              else InvalidCompoundPacket
  {
    if 4 <= |b| && b[0] / 32 == 4 {
      TilesIsChained(b, 0);
    }
  }

  /** Packets of these fields from `at` to the end; a description ends where the program looks for it. */
  ghost predicate PacketsAt(b: seq<u8>, at: nat, ps: seq<RtcpPacket>)
    decreases |ps|
  {
    if ps == [] then |b| < at + 4
    else
      && at + 4 <= |b|
      && (exists end: nat :: end <= EndAsRead(b, at) && PacketAt(b, at, ps[0], end))
      && PacketsAt(b, at + 4 * (Two(b, at + 2) + 1), ps[1..])
  }

  lemma {:induction false} PacketsRead(b: seq<u8>, at: nat, ps: seq<RtcpPacket>)
    requires PacketsAt(b, at, ps)
    ensures DecodeAll(b, at) == Some(ps)
    decreases |ps|
  {
    hide DecodeAt, PacketAt;
    if ps != [] {
      var end: nat :| end <= EndAsRead(b, at) && PacketAt(b, at, ps[0], end);
      PacketRead(b, at, ps[0], end);
      PacketsRead(b, at + 4 * (Two(b, at + 2) + 1), ps[1..]);
      assert ps == [ps[0]] + ps[1..];
    }
  }

  lemma PacketRead(b: seq<u8>, at: nat, p: RtcpPacket, end: nat)
    requires at + 4 <= |b| && end <= EndAsRead(b, at) && PacketAt(b, at, p, end)
    ensures DecodeAt(b, at) == Some(p)
  {
    hide DecodeAt, SenderReportAt, ReceiverReportAt, ByeAt, DescriptionAt;
    if p.SourceDescription? {
      DescriptionRead(b, at, p, end);
    } else {
      ReportRead(b, at, p);
    }
  }

  /** Whatever datagram passes the check: if packets of these fields stand in it, they are received. */
  lemma ReceiveReads(b: seq<u8>, ps: seq<RtcpPacket>)
    requires Check(b) == None && PacketsAt(b, 0, ps)
    ensures Receive(b) == Compound(ps)
  {
    hide Check, DecodeAll, PacketsAt;
    PacketsRead(b, 0, ps);
  }

  // ---------------------------------------------------------------- encoding

  lemma HoldsFour(b: seq<u8>, at: nat, n: u32)
    requires Holds(b, at, Be32(n))
    ensures at + 4 <= |b| && Four(b, at) == n
  {
    hide Be32, FromBe32, Four;
    HoldsWord(n, b, at);
    FourIs(b, at);
  }

  lemma {:induction false} ItemsWritten(b: seq<u8>, at: nat, names: seq<Text>)
    requires Holds(b, at, EncodeItems(names) + [0])
    ensures ItemsAt(b, at, names, at + |EncodeItems(names)|)
    decreases |names|
  {
    hide Holds, ItemsAt;
    var items := EncodeItems(names);
    HoldsParts(b, at, items, [0]);
    HoldsByte(b, at + |items|, [0], 0);
    if names != [] {
      var item, rest := EncodeItem(names[0]), EncodeItems(names[1..]);
      assert items + [0] == item + (rest + [0]);
      HoldsParts(b, at, item, rest + [0]);
      ItemRoundTrip(names[0], b, at);
      ItemsWritten(b, at + |item|, names[1..]);
      FirstItem(b, at, names, at + |items|);
    } else {
      LastItem(b, at);
    }
  }

  lemma LastItem(b: seq<u8>, at: nat)
    requires at < |b| && b[at] == 0
    ensures ItemsAt(b, at, [], at)
  {
  }

  lemma FirstItem(b: seq<u8>, at: nat, names: seq<Text>, stop: nat)
    requires names != []
    requires var next := at + 2 + |names[0]|;
             && next <= |b| && b[at] == 1 && b[at + 1] == |names[0]| && b[at + 2..next] == names[0]
             && ItemsAt(b, next, names[1..], stop)
    ensures ItemsAt(b, at, names, stop)
  {
  }

  /** Octets that are all zero. */
  ghost predicate ZeroFrom(b: seq<u8>, from: nat, upto: nat) {
    forall z | from <= z < upto && z < |b| :: b[z] == 0
  }

  lemma ChunkWritten(b: seq<u8>, at: nat, c: Chunk) returns (stop: nat)
    requires Holds(b, at, EncodeChunk(c))
    ensures at + 4 < |b| && c.ssrc == Four(b, at) && ItemsAt(b, at + 4, c.names, stop)
    ensures After(at, stop) == at + |EncodeChunk(c)| && ZeroFrom(b, stop, After(at, stop))
  {
    hide Holds, Be32, FromBe32, Four, ItemsAt;
    ChunkAligned(c);
    var items := EncodeItems(c.names);
    hide EncodeItems, Fill;
    var zeros := Zeros(1 + Fill(|items| + 5));
    assert EncodeChunk(c) == Be32(c.ssrc) + (items + zeros);
    hide EncodeChunk;
    HoldsParts(b, at, Be32(c.ssrc), items + zeros);
    HoldsFour(b, at, c.ssrc);
    HoldsParts(b, at + 4, items, zeros);
    stop := at + 4 + |items|;
    ZerosStand(b, stop, |zeros|);
    NullFirst(items, Fill(|items| + 5));
    HoldsParts(b, at + 4, items + [0], zeros[1..]);
    ItemsWritten(b, at + 4, c.names);
    FillsUp(at, |items|);
  }

  lemma FillsUp(at: nat, n: nat)
    ensures After(at, at + 4 + n) == at + n + 5 + Fill(n + 5)
  {
  }

  lemma {:induction false} ChunksWritten(b: seq<u8>, at: nat, chunks: seq<Chunk>)
    requires Holds(b, at, EncodeChunks(chunks))
    ensures ChunksAt(b, at, chunks, at + |EncodeChunks(chunks)|)
    decreases |chunks|
  {
    hide Holds, EncodeChunk, ItemsAt, Four;
    if chunks != [] {
      HoldsParts(b, at, EncodeChunk(chunks[0]), EncodeChunks(chunks[1..]));
      var stop := ChunkWritten(b, at, chunks[0]);
      ChunksWritten(b, After(at, stop), chunks[1..]);
    }
  }

  /** What stands in a header: version 2, no padding, the number of entries modulo 32, the size in words. */
  ghost predicate HeaderAt(b: seq<u8>, at: nat, count: nat, pt: u8, words: nat) {
    at + 4 <= |b| && b[at] == 128 + count % 32 && b[at + 1] == pt && Two(b, at + 2) == words
  }

  /** Why a source leaves: a text after its length, filled with zeros to a multiple of four. */
  ghost predicate ReasonAt(b: seq<u8>, at: nat, reason: Option<Text>, end: nat) {
    if reason.None? then at == end
    else
      && at + 1 + |reason.value| <= end <= |b| && end < at + 1 + |reason.value| + 4 && (end - at) % 4 == 0
      && b[at] == |reason.value| && b[at + 1..at + 1 + |reason.value|] == reason.value
      && ZeroFrom(b, at + 1 + |reason.value|, end)
  }

  lemma HeaderWritten(b: seq<u8>, at: nat, count: nat, pt: u8, words: u16)
    requires Holds(b, at, Header(count, pt, words))
    ensures HeaderAt(b, at, count, pt, words)
  {
    var h := Header(count, pt, words);
    HoldsByte(b, at, h, 0);
    HoldsByte(b, at, h, 1);
    HoldsByte(b, at, h, 2);
    HoldsByte(b, at, h, 3);
  }

  lemma ReasonWritten(b: seq<u8>, at: nat, reason: Option<Text>)
    requires Holds(b, at, EncodeReason(reason))
    ensures ReasonAt(b, at, reason, at + |EncodeReason(reason)|)
  {
    if reason.Some? {
      TextWritten(b, at, reason.value);
    }
  }

  lemma TextWritten(b: seq<u8>, at: nat, text: Text)
    requires Holds(b, at, EncodeReason(Some(text)))
    ensures ReasonAt(b, at, Some(text), at + |EncodeReason(Some(text))|)
  {
    hide Holds, Fill, Zeros, ZeroFrom, EncodeReason, ReasonAt;
    var fill := Fill(1 + |text|);
    var zeros := Zeros(fill);
    ReasonOctets(text);
    HoldsParts(b, at, [|text|], text + zeros);
    HoldsByte(b, at, [|text|], 0);
    HoldsParts(b, at + 1, text, zeros);
    HoldsSeq(b, at + 1, text);
    ZerosStand(b, at + 1 + |text|, fill);
    ReasonStands(b, at, text, fill);
  }

  lemma ReasonOctets(text: Text)
    ensures EncodeReason(Some(text)) == [|text|] + (text + Zeros(Fill(1 + |text|)))
    ensures |EncodeReason(Some(text))| == 1 + |text| + Fill(1 + |text|)
  {
    hide Zeros, Fill;
  }

  lemma ReasonStands(b: seq<u8>, at: nat, text: Text, fill: nat)
    requires fill == Fill(1 + |text|) && at + 1 + |text| + fill <= |b|
    requires b[at] == |text| && b[at + 1..at + 1 + |text|] == text
    requires ZeroFrom(b, at + 1 + |text|, at + 1 + |text| + fill)
    ensures ReasonAt(b, at, Some(text), at + 1 + |text| + fill)
  {
    hide ZeroFrom;
    FillIs(1 + |text|);
  }

  lemma ZerosStand(b: seq<u8>, at: nat, n: nat)
    requires Holds(b, at, Zeros(n))
    ensures at + n <= |b| && ZeroFrom(b, at, at + n)
  {
    forall z | at <= z < at + n ensures b[z] == 0 {
      HoldsByte(b, at, Zeros(n), z - at);
    }
  }

  lemma FillIs(n: nat)
    ensures Fill(n) < 4 && (n + Fill(n)) % 4 == 0
  {
  }

  lemma HoldsSeq(b: seq<u8>, at: nat, e: seq<u8>)
    requires Holds(b, at, e)
    ensures at + |e| <= |b| && b[at..at + |e|] == e
  {
  }

  /** The octets of one packet from `at` on, and where it ends. */
  ghost predicate BuiltAt(b: seq<u8>, at: nat, p: Built, end: nat) {
    && (exists pt: u8, words: nat :: HeaderAt(b, at, Count(p.packet), pt, words) && end == at + 4 * (words + 1))
    && match p.packet
       case Bye(ssrcs) => ByeAt(b, at, p.packet) && ReasonAt(b, at + 4 + 4 * |ssrcs|, p.reason, end)
       case _ => PacketAt(b, at, p.packet, end)
  }

  /** Whatever packet can be put on the wire, with no more entries than its header can count, is written
      in this layout. */
  lemma PacketWritten(p: Built, b: seq<u8>, at: nat)
    requires Encodable(p) && Counted(p) && Holds(b, at, Encode(p))
    ensures BuiltAt(b, at, p, at + |Encode(p)|)
  {
    hide Holds, Header, EncodeBody, EncodeReason, DecodeAt, Next, HeaderAt, ByeAt, PacketAt, ReasonAt;
    ContentAligned(p);
    var words := |EncodeContent(p)| / 4;
    HoldsParts(b, at, Header(Count(p.packet), PayloadType(p.packet), words), EncodeContent(p));
    HeaderWritten(b, at, Count(p.packet), PayloadType(p.packet), words);
    HoldsParts(b, at + 4, EncodeBody(p.packet), EncodeReason(p.reason));
    ReasonWritten(b, at + 4 + |EncodeBody(p.packet)|, p.reason);
    BodyWritten(p, b, at);
    NoReason();
  }

  lemma NoReason()
    ensures EncodeReason(None) == []
  {
  }

  lemma BodyWritten(p: Built, b: seq<u8>, at: nat)
    requires Encodable(p) && Counted(p) && Holds(b, at, Encode(p))
    requires at + 4 <= |b| && Holds(b, at + 4, EncodeBody(p.packet))
    ensures PacketAt(b, at, p.packet, at + 4 + |EncodeBody(p.packet)|)
    ensures p.packet.Bye? ==> ByeAt(b, at, p.packet) && |EncodeBody(p.packet)| == 4 * |p.packet.ssrcs|
  {
    hide Holds, DecodeAt, Next, EncodeContent, Encode, SenderReportAt, ReceiverReportAt;
    PacketRoundTrip(p, b, at);
    if p.packet.SourceDescription? {
      CountStands(p, b, at);
      ChunksWritten(b, at + 4, p.packet.chunks);
    } else {
      hide EncodeBody, ByeAt;
      ReadIfCounted(p);
      ReportRead(b, at, p.packet);
      ByeSize(p.packet);
    }
  }

  lemma ByeSize(p: RtcpPacket)
    ensures p.Bye? ==> |EncodeBody(p)| == 4 * |p.ssrcs|
  {
  }

  lemma ReadIfCounted(p: Built)
    requires Counted(p) && !p.packet.SourceDescription?
    ensures Readable(p)
  {
  }

  lemma CountStands(p: Built, b: seq<u8>, at: nat)
    requires Encodable(p) && Counted(p) && Holds(b, at, Encode(p))
    ensures at + 4 <= |b| && b[at] % 32 == Count(p.packet) && b[at + 1] == PayloadType(p.packet)
  {
    hide Holds, Header, EncodeContent;
    ContentAligned(p);
    var words := |EncodeContent(p)| / 4;
    HoldsParts(b, at, Header(Count(p.packet), PayloadType(p.packet), words), EncodeContent(p));
    HeaderWritten(b, at, Count(p.packet), PayloadType(p.packet), words);
  }

  /** Packets one after the other, from `at` to the end. */
  ghost predicate AllBuiltAt(b: seq<u8>, at: nat, ps: seq<Built>)
    decreases |ps|
  {
    if ps == [] then at == |b|
    else exists end: nat :: BuiltAt(b, at, ps[0], end) && AllBuiltAt(b, end, ps[1..])
  }

  lemma {:induction false} AllWritten(ps: seq<Built>, b: seq<u8>, at: nat)
    requires AllEncodable(ps) && AllCounted(ps) && Holds(b, at, EncodeAll(ps)) && at + |EncodeAll(ps)| == |b|
    ensures AllBuiltAt(b, at, ps)
    decreases |ps|
  {
    hide Holds, Encode, Encodable, Counted, AllEncodable, AllCounted, AllReadable, EncodeAll, Packets, BuiltAt, Readable;
    Unfold(ps);
    if ps != [] {
      HoldsParts(b, at, Encode(ps[0]), EncodeAll(ps[1..]));
      PacketWritten(ps[0], b, at);
      AllWritten(ps[1..], b, at + |Encode(ps[0])|);
    }
  }

  /** The octets of a compound packet: its packets one after the other, every field in its place. */
  lemma CompoundWritten(ps: seq<Built>)
    requires AllEncodable(ps) && AllCounted(ps)
    ensures AllBuiltAt(EncodeAll(ps), 0, ps)
  {
    hide Holds, AllEncodable, AllCounted, EncodeAll, AllBuiltAt;
    WholeHolds(EncodeAll(ps));
    AllWritten(ps, EncodeAll(ps), 0);
  }
}
