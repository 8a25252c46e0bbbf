/**
 The RTCP encoder: packets are begun, filled entry by entry and ended in one buffer, in place.
 The count and length fields of the open packet are patched as it grows.
 */
module RtcpEncoder {
  import opened Words
  import opened RtcpTypes
  import opened RtcpCodec
  import Layout = RtcpLayout

  /** The packet under construction. */
  datatype Open =
    | Closed
    | Building(p: Built)
    | InChunk(chunks: seq<Chunk>, ssrc: u32, names: seq<Text>)

  /** The bytes of the packet under construction: its length field is still zero. */
  ghost function Partial(open: Open): seq<u8> {
    match open
    case Closed => []
    case Building(p) => Unfinished(Count(p.packet), PayloadType(p.packet), EncodeContent(p))
    case InChunk(chunks, ssrc, names) =>
      Unfinished(|chunks| + 1, PT_SDES, EncodeChunks(chunks) + (Be32(ssrc) + EncodeItems(names)))
  }

  ghost function Unfinished(count: nat, pt: u8, content: seq<u8>): seq<u8> {
    [128 + count % 32, pt, 0, 0] + content
  }

  ghost predicate Legal(open: Open) {
    match open
    case Closed => true
    case Building(p) => !p.packet.Other? && (p.reason.Some? ==> p.packet.Bye?)
    case InChunk(_, _, _) => true
  }

  /** A report with one more block. */
  function WithBlock(p: RtcpPacket, k: Block): RtcpPacket {
    match p
    case SenderReport(ssrc, ntpSec, ntpFrac, rtpTs, psent, osent, blocks) =>
      SenderReport(ssrc, ntpSec, ntpFrac, rtpTs, psent, osent, blocks + [k])
    case ReceiverReport(ssrc, blocks) => ReceiverReport(ssrc, blocks + [k])
    case _ => p
  }

  // ---------------------------------------------------------------- lists grow at the end

  lemma Assoc(a: seq<u8>, b: seq<u8>, c: seq<u8>)
    ensures (a + b) + c == a + (b + c)
  {
  }

  lemma {:induction false} BlocksSnoc(blocks: seq<Block>, k: Block)
    ensures EncodeBlocks(blocks + [k]) == EncodeBlocks(blocks) + EncodeBlock(k)
  {
    hide EncodeBlock;
    if blocks == [] {
      assert blocks + [k] == [k] && [k][1..] == [];
    } else {
      assert (blocks + [k])[0] == blocks[0] && (blocks + [k])[1..] == blocks[1..] + [k];
      BlocksSnoc(blocks[1..], k);
      Assoc(EncodeBlock(blocks[0]), EncodeBlocks(blocks[1..]), EncodeBlock(k));
    }
  }

  lemma {:induction false} ItemsSnoc(names: seq<Text>, name: Text)
    ensures EncodeItems(names + [name]) == EncodeItems(names) + EncodeItem(name)
  {
    hide EncodeItem;
    if names == [] {
      assert names + [name] == [name] && [name][1..] == [];
    } else {
      assert (names + [name])[0] == names[0] && (names + [name])[1..] == names[1..] + [name];
      ItemsSnoc(names[1..], name);
      Assoc(EncodeItem(names[0]), EncodeItems(names[1..]), EncodeItem(name));
    }
  }

  lemma {:induction false} ChunksSnoc(chunks: seq<Chunk>, c: Chunk)
    ensures EncodeChunks(chunks + [c]) == EncodeChunks(chunks) + EncodeChunk(c)
  {
    hide EncodeChunk;
    if chunks == [] {
      assert chunks + [c] == [c] && [c][1..] == [];
    } else {
      assert (chunks + [c])[0] == chunks[0] && (chunks + [c])[1..] == chunks[1..] + [c];
      ChunksSnoc(chunks[1..], c);
      Assoc(EncodeChunk(chunks[0]), EncodeChunks(chunks[1..]), EncodeChunk(c));
    }
  }

  lemma {:induction false} AllSnoc(done: seq<Built>, p: Built)
    requires AllEncodable(done) && Encodable(p)
    ensures AllEncodable(done + [p]) && EncodeAll(done + [p]) == EncodeAll(done) + Encode(p)
  {
    hide Encode, Encodable;
    if done == [] {
      assert done + [p] == [p] && [p][1..] == [];
    } else {
      assert (done + [p])[0] == done[0] && (done + [p])[1..] == done[1..] + [p];
      AllSnoc(done[1..], p);
      Assoc(Encode(done[0]), EncodeAll(done[1..]), Encode(p));
    }
  }

  /** The first octet of a header after one more entry: the lower five bits count, and wrap around. */
  function OneMore(octet: u8): (r: u8)
    ensures r / 32 == octet / 32 && r % 32 == (octet % 32 + 1) % 32
  {
    octet / 32 * 32 + (octet % 32 + 1) % 32
  }

  /** One more entry: the count goes up by one and the entry's bytes are appended. */
  lemma Grow(count: nat, pt: u8, content: seq<u8>, entry: seq<u8>)
    ensures var u := Unfinished(count, pt, content);
            Unfinished(count + 1, pt, content + entry) == u[0 := OneMore(u[0])] + entry
  {
    assert OneMore(128 + count % 32) == 128 + (count + 1) % 32;
  }

  /** The bytes with the length of the packet that starts at `at` patched in. */
  ghost function Patched(b: seq<u8>, at: nat): (r: seq<u8>)
    requires at + 4 <= |b| && (|b| - at) / 4 - 1 < 0x1_0000
    ensures |r| == |b|
  {
    var words := Be16((|b| - at) / 4 - 1);
    b[at + 2 := words[0]][at + 3 := words[1]]
  }

  // ---------------------------------------------------------------- the encoder

  class Encoder {
    const buf: array<u8>
    var start: nat
    var write: nat
    var chunkBegin: nat
    ghost var done: seq<Built>
    ghost var open: Open

    ghost predicate Valid()
      reads this, buf
    {
      && 4 <= buf.Length <= 0x4_0000 && buf.Length % 4 == 0
      && AllEncodable(done) && Legal(open)
      && start <= write <= buf.Length
      && (!open.Closed? ==> start == |EncodeAll(done)|)
      && buf[..write] == EncodeAll(done) + Partial(open)
      && (open.InChunk? ==> chunkBegin == start + 4 + |EncodeChunks(open.chunks)|)
    }

    constructor (length: nat)
      requires 4 <= length <= 0x4_0000 && length % 4 == 0
      ensures Valid() && fresh(buf) && buf.Length == length && write == 0 && done == [] && open == Closed
    {
      buf := new u8[length](_ => 0);
      start, write, chunkBegin := 0, 0, 0;
      done, open := [], Closed;
      new;
      SetCurrent();
    }

    function SpaceLeft(): int
      reads this
    {
      buf.Length - write
    }

    /** Stores bytes at a position; what is before it does not change. */
    method Store(at: nat, bytes: seq<u8>)
      requires at + |bytes| <= buf.Length
      modifies buf
      ensures buf[..at + |bytes|] == old(buf[..at]) + bytes
    {
      forall i | 0 <= i < |bytes| {
        buf[at + i] := bytes[i];
      }
      assert buf[..at] == old(buf[..at]);
      assert buf[at..at + |bytes|] == bytes;
      assert buf[..at + |bytes|] == buf[..at] + buf[at..at + |bytes|];
    }

    /** Starts a header at the write position; the payload type is left as it is. */
    method SetCurrent()
      requires write + 4 <= buf.Length
      modifies this`start, buf
      ensures start == write && buf[write] == 128 && buf[write + 2] == 0 && buf[write + 3] == 0
      ensures buf[..write] == old(buf[..write])
    {
      start := write;
      buf[start] := 128;
      buf[start + 2] := 0;
      buf[start + 3] := 0;
    }

    /** Begins a packet of type `p` whose fixed part is `fixed`. */
    method Begin(p: RtcpPacket, fixed: seq<u8>)
      requires Valid() && open.Closed? && write + 4 + |fixed| <= buf.Length
      requires !p.Other? && Count(p) == 0 && EncodeBody(p) == fixed
      modifies this, buf
      ensures Valid() && open == Building(Built(p, None)) && done == old(done)
      ensures start == old(write) && write == start + 4 + |fixed|
    {
      BeginShape(p, fixed);
      hide EncodeAll, AllEncodable, EncodeBody, PayloadType, Partial, Legal;
      ghost var before := buf[..write];
      assert before == EncodeAll(done) by { assert EncodeAll(done) + [] == EncodeAll(done); }
      Lay(PayloadType(p), fixed);
      open := Building(Built(p, None));
    }

    /** Puts a header and the fixed part of a packet at the write position. */
    method Lay(pt: u8, fixed: seq<u8>)
      requires write + 4 + |fixed| <= buf.Length
      modifies this`start, this`write, buf
      ensures start == old(write) && write == start + 4 + |fixed|
      ensures buf[..write] == old(buf[..write]) + ([128, pt, 0, 0] + fixed)
    {
      ghost var before := buf[..write];
      NewHeader(pt);
      Store(start + 4, fixed);
      write := start + 4 + |fixed|;
      Assoc(before, [128, pt, 0, 0], fixed);
    }

    method NewHeader(pt: u8)
      requires write + 4 <= buf.Length
      modifies this`start, buf
      ensures start == write && buf[..write + 4] == old(buf[..write]) + [128, pt, 0, 0]
    {
      SetCurrent();
      buf[start + 1] := pt;
      assert buf[..start + 4] == buf[..start] + [128, pt, 0, 0];
    }

    lemma BeginShape(p: RtcpPacket, fixed: seq<u8>)
      requires !p.Other? && Count(p) == 0 && EncodeBody(p) == fixed
      ensures Partial(Closed) == [] && Legal(Building(Built(p, None)))
      ensures Partial(Building(Built(p, None))) == [128, PayloadType(p), 0, 0] + fixed
    {
      hide EncodeBody;
      assert EncodeContent(Built(p, None)) == fixed + [] == fixed;
    }

    method SrBegin(ssrc: u32, ntpSec: u32, ntpFrac: u32, rtpTs: u32, psent: u32, osent: u32) returns (ok: bool)
      requires Valid() && open.Closed?
      modifies this, buf
      ensures Valid() && done == old(done) && ok == (28 <= old(SpaceLeft()))
      ensures write == old(write) + if ok then 28 else 0
      ensures open == if ok then Building(Built(SenderReport(ssrc, ntpSec, ntpFrac, rtpTs, psent, osent, []), None))
                      else Closed
    {
      if SpaceLeft() < 28 {
        return false;
      }
      ghost var p := SenderReport(ssrc, ntpSec, ntpFrac, rtpTs, psent, osent, []);
      var fields := Be32List([ssrc, ntpSec, ntpFrac, rtpTs, psent, osent]);
      assert EncodeBody(p) == fields + [];
      Begin(SenderReport(ssrc, ntpSec, ntpFrac, rtpTs, psent, osent, []), fields);
      return true;
    }

    method RrBegin(ssrc: u32) returns (ok: bool)
      requires Valid() && open.Closed?
      modifies this, buf
      ensures Valid() && done == old(done) && ok == (8 <= old(SpaceLeft()))
      ensures write == old(write) + if ok then 8 else 0
      ensures open == if ok then Building(Built(ReceiverReport(ssrc, []), None)) else Closed
    {
      if SpaceLeft() < 8 {
        return false;
      }
      assert EncodeBody(ReceiverReport(ssrc, [])) == Be32(ssrc) + [];
      Begin(ReceiverReport(ssrc, []), Be32(ssrc));
      return true;
    }

    method SdesBegin() returns (ok: bool)
      requires Valid() && open.Closed?
      modifies this, buf
      ensures Valid() && done == old(done) && ok == (4 <= old(SpaceLeft()))
      ensures write == old(write) + if ok then 4 else 0
      ensures open == if ok then Building(Built(SourceDescription([]), None)) else Closed
    {
      if SpaceLeft() < 4 {
        return false;
      }
      Begin(SourceDescription([]), []);
      return true;
    }

    method ByeBegin() returns (ok: bool)
      requires Valid() && open.Closed?
      modifies this, buf
      ensures Valid() && done == old(done) && ok == (4 <= old(SpaceLeft()))
      ensures write == old(write) + if ok then 4 else 0
      ensures open == if ok then Building(Built(Bye([]), None)) else Closed
    {
      if SpaceLeft() < 4 {
        return false;
      }
      Begin(Bye([]), []);
      return true;
    }

    /** Raises the count of the open packet, whose next entry has just been stored. */
    method CountUp(entry: seq<u8>, ghost now: Open)
      requires Valid() && !open.Closed? && Legal(now) && write + |entry| <= buf.Length
      requires var u := Partial(open); Partial(now) == u[0 := OneMore(u[0])] + entry
      requires now.InChunk? ==> chunkBegin == start + 4 + |EncodeChunks(now.chunks)|
      requires !now.Closed?
      requires buf[..write + |entry|] == EncodeAll(done) + Partial(open) + entry
      modifies this, buf
      ensures Valid() && open == now && done == old(done) && start == old(start) && chunkBegin == old(chunkBegin)
      ensures write == old(write) + |entry|
    {
      hide EncodeAll, AllEncodable, Partial, Legal;
      ghost var u := Partial(open);
      ghost var all := buf[..write + |entry|];
      PartialHead(open);
      PatchInside(EncodeAll(done), u, entry);
      assert all[start] == u[0];
      buf[start] := OneMore(buf[start]);
      write := write + |entry|;
      open := now;
      assert buf[..write] == all[start := OneMore(u[0])];
    }

    /** Stores an entry of the open packet at `at`, which is the write position, and counts it. */
    method AddEntry(at: nat, entry: seq<u8>, ghost now: Open)
      requires Valid() && !open.Closed? && !now.Closed? && Legal(now)
      requires at == write && write + |entry| <= buf.Length
      requires var u := Partial(open); Partial(now) == u[0 := OneMore(u[0])] + entry
      requires now.InChunk? ==> chunkBegin == start + 4 + |EncodeChunks(now.chunks)|
      modifies this, buf
      ensures Valid() && open == now && done == old(done) && start == old(start) && chunkBegin == old(chunkBegin)
      ensures write == old(write) + |entry|
    {
      hide EncodeAll, AllEncodable, Partial, Legal;
      Store(at, entry);
      CountUp(entry, now);
    }

    /** Appends bytes to the open packet without counting an entry. */
    method Extend(entry: seq<u8>, ghost now: Open)
      requires Valid() && !open.Closed? && !now.Closed? && Legal(now) && write + |entry| <= buf.Length
      requires Partial(now) == Partial(open) + entry
      requires now.InChunk? ==> chunkBegin == start + 4 + |EncodeChunks(now.chunks)|
      modifies this`write, this`open, buf
      ensures Valid() && open == now && write == old(write) + |entry|
    {
      hide EncodeAll, AllEncodable, Partial, Legal;
      Assoc(EncodeAll(done), Partial(open), entry);
      Store(write, entry);
      write := write + |entry|;
      open := now;
    }

    /** The count of the open packet, as it stands in its header. */
    method CurrentCount() returns (ndx: nat)
      requires Valid() && !open.Closed?
      ensures open.Building? ==> ndx == Count(open.p.packet) % 32
      ensures open.InChunk? ==> ndx == (|open.chunks| + 1) % 32
    {
      hide EncodeAll, AllEncodable, EncodeContent, EncodeChunks, EncodeItems, Be32;
      assert buf[start] == buf[..write][start] == Partial(open)[0];
      ndx := buf[start] % 32;
    }

    method StoreBlock(at: nat, k: Block)
      requires at + 24 <= buf.Length
      modifies buf
      ensures buf[..at + 24] == old(buf[..at]) + EncodeBlock(k)
    {
      hide Be32, Be24;
      Store(at, Be32(k.ssrc));
      Store(at + 4, [k.fraction]);
      Store(at + 5, Be24(k.lost));
      Store(at + 8, Be32(k.lastSeq));
      Store(at + 12, Be32(k.jitter));
      Store(at + 16, Be32(k.lsr));
      Store(at + 20, Be32(k.dlsr));
    }

    method AddBlock(at: nat, k: Block, ghost now: Open)
      requires Valid() && !open.Closed? && now.Building? && Legal(now)
      requires at == write && write + 24 <= buf.Length
      requires var u := Partial(open); Partial(now) == u[0 := OneMore(u[0])] + EncodeBlock(k)
      modifies this, buf
      ensures Valid() && open == now && done == old(done) && write == old(write) + 24
    {
      hide EncodeAll, AllEncodable, Partial, Legal, EncodeBlock;
      StoreBlock(at, k);
      CountUp(EncodeBlock(k), now);
    }

    method SrAddRr(k: Block) returns (ok: bool)
      requires Valid() && open.Building? && open.p.packet.SenderReport? && |open.p.packet.blocks| < 32
      modifies this, buf
      ensures Valid() && done == old(done) && ok == (24 <= old(SpaceLeft()))
      ensures write == old(write) + if ok then 24 else 0
      ensures open == if ok then Building(Built(WithBlock(old(open).p.packet, k), None)) else old(open)
    {
      if SpaceLeft() < 24 {
        return false;
      }
      assert open.p == Built(open.p.packet, None);
      hide EncodeAll, AllEncodable, EncodeBlock, Partial, Legal, WithBlock;
      ghost var now := WithBlock(open.p.packet, k);
      ReportGrows(open.p.packet, k);
      var ndx := CurrentCount();
      AddBlock(start + 28 + 24 * ndx, k, Building(Built(now, None)));
      return true;
    }

    method RrAddRr(k: Block) returns (ok: bool)
      requires Valid() && open.Building? && open.p.packet.ReceiverReport? && |open.p.packet.blocks| < 32
      modifies this, buf
      ensures Valid() && done == old(done) && ok == (24 <= old(SpaceLeft()))
      ensures write == old(write) + if ok then 24 else 0
      ensures open == if ok then Building(Built(WithBlock(old(open).p.packet, k), None)) else old(open)
    {
      if SpaceLeft() < 24 {
        return false;
      }
      assert open.p == Built(open.p.packet, None);
      hide EncodeAll, AllEncodable, EncodeBlock, Partial, Legal, WithBlock;
      ghost var now := WithBlock(open.p.packet, k);
      ReportGrows(open.p.packet, k);
      var ndx := CurrentCount();
      AddBlock(start + 8 + 24 * ndx, k, Building(Built(now, None)));
      return true;
    }

    method ChunkBegin(ssrc: u32) returns (ok: bool)
      requires Valid() && open.Building? && open.p.packet.SourceDescription?
      modifies this, buf
      ensures Valid() && done == old(done) && ok == (4 <= old(SpaceLeft()))
      ensures write == old(write) + if ok then 4 else 0
      ensures open == if ok then InChunk(old(open).p.packet.chunks, ssrc, []) else old(open)
    {
      if SpaceLeft() < 4 {
        return false;
      }
      ghost var chunks := open.p.packet.chunks;
      ChunkOpens(chunks, ssrc);
      hide EncodeAll, AllEncodable, EncodeChunks, Be32, Partial, Legal;
      chunkBegin := write;
      AddEntry(write, Be32(ssrc), InChunk(chunks, ssrc, []));
      return true;
    }

    method AddCname(name: Text) returns (ok: bool)
      requires Valid() && open.InChunk?
      modifies this, buf
      ensures Valid() && done == old(done) && ok == (|name| + 2 <= old(SpaceLeft()))
      ensures write == old(write) + if ok then 2 + |name| else 0
      ensures var o := old(open); open == if ok then InChunk(o.chunks, o.ssrc, o.names + [name]) else o
    {
      if SpaceLeft() < |name| + 2 {
        return false;
      }
      ghost var o := open;
      NameGrows(o.chunks, o.ssrc, o.names, name);
      hide EncodeAll, AllEncodable, EncodeChunks, Partial, Legal;
      Extend([SDES_CNAME, |name|] + name, InChunk(o.chunks, o.ssrc, o.names + [name]));
      return true;
    }

    /** Ends a chunk with a null octet and fills it up to a multiple of four.  As the buffer's
        size is a multiple of four too, the filling always fits. */
    method ChunkEnd() returns (ok: bool)
      requires Valid() && open.InChunk?
      modifies this, buf
      ensures Valid() && done == old(done) && ok == (1 <= old(SpaceLeft()))
      ensures var o := old(open);
              open == if ok then Building(Built(SourceDescription(o.chunks + [Chunk(o.ssrc, o.names)]), None)) else o
    {
      if SpaceLeft() < 1 {
        return false;
      }
      hide EncodeAll, AllEncodable, EncodeChunks, Partial, Legal;
      FinishChunk();
      return true;
    }

    method FinishChunk()
      requires Valid() && open.InChunk? && 1 <= SpaceLeft()
      modifies this`write, this`open, buf
      ensures Valid()
      ensures var o := old(open); open == Building(Built(SourceDescription(o.chunks + [Chunk(o.ssrc, o.names)]), None))
    {
      ghost var o, size := open, write - chunkBegin;
      ChunkFits(o.chunks, o.ssrc, o.names, done, buf.Length, write);
      ChunkCloses(o.chunks, o.ssrc, o.names, EncodeAll(done), size);
      hide EncodeAll, AllEncodable, EncodeChunks, EncodeItems, EncodeChunk, Partial, Legal, Fill, Zeros;
      NullAndFill();
      Becomes(Building(Built(SourceDescription(o.chunks + [Chunk(o.ssrc, o.names)]), None)));
    }

    /** Takes note of what now stands in the buffer. */
    ghost method Becomes(now: Open)
      requires 4 <= buf.Length <= 0x4_0000 && buf.Length % 4 == 0 && start <= write <= buf.Length
      requires AllEncodable(done) && start == |EncodeAll(done)|
      requires !now.Closed? && Legal(now) && buf[..write] == EncodeAll(done) + Partial(now)
      requires now.InChunk? ==> chunkBegin == start + 4 + |EncodeChunks(now.chunks)|
      modifies this`open
      ensures Valid() && open == now
    {
      hide EncodeAll, AllEncodable, Partial, Legal, EncodeChunks;
      open := now;
    }

    method NullAndFill()
      requires chunkBegin <= write && write + 1 + Fill(write + 1 - chunkBegin) <= buf.Length
      modifies this`write, buf
      ensures var zeros := Zeros(1 + Fill(old(write) + 1 - chunkBegin));
              write == old(write) + |zeros| && buf[..write] == old(buf[..write]) + zeros
    {
      ghost var before := buf[..write];
      PadWithZeros(1);
      var pad := Fill(write - chunkBegin);
      PadWithZeros(pad);
      Assoc(before, Zeros(1), Zeros(pad));
      assert Zeros(1) + Zeros(pad) == Zeros(1 + pad);
    }

    method PadWithZeros(n: nat)
      requires write + n <= buf.Length
      modifies this`write, buf
      ensures write == old(write) + n && buf[..write] == old(buf[..write]) + Zeros(n)
    {
      for i := 0 to n
        invariant write == old(write) + i && buf[..write] == old(buf[..write]) + Zeros(i)
      {
        buf[write] := 0;
        write := write + 1;
        assert buf[..write] == buf[..write - 1] + [0];
        assert Zeros(i + 1) == Zeros(i) + [0];
      }
    }

    method ByeAddSsrc(ssrc: u32) returns (ok: bool)
      requires Valid() && open.Building? && open.p.packet.Bye? && open.p.reason.None? && |open.p.packet.ssrcs| < 32
      modifies this, buf
      ensures Valid() && done == old(done) && ok == (4 <= old(SpaceLeft()))
      ensures write == old(write) + if ok then 4 else 0
      ensures open == if ok then Building(Built(Bye(old(open).p.packet.ssrcs + [ssrc]), None)) else old(open)
    {
      if SpaceLeft() < 4 {
        return false;
      }
      ghost var ssrcs := open.p.packet.ssrcs;
      ByeGrows(ssrcs, ssrc);
      hide EncodeAll, AllEncodable, Be32, Partial, Legal;
      var ndx := CurrentCount();
      AddEntry(start + 4 + 4 * ndx, Be32(ssrc), Building(Built(Bye(ssrcs + [ssrc]), None)));
      return true;
    }

    /** The length of the reason is kept in one octet; what does not fit it is cut off. */
    method ByeAddReason(reason: seq<u8>) returns (ok: bool)
      requires Valid() && open.Building? && open.p.packet.Bye? && open.p.reason.None?
      modifies this, buf
      ensures Valid() && done == old(done)
      ensures var text := reason[..|reason| % 0x100];
              && ok == (1 + |text| + Fill(1 + |text|) <= old(SpaceLeft()))
              && open == if ok then Building(Built(old(open).p.packet, Some(text))) else old(open)
    {
      var len := |reason| % 0x100;
      var text: Text := reason[..len];
      var pad := Fill(1 + len);
      if SpaceLeft() < 1 + len + pad {
        return false;
      }
      ghost var p := open.p.packet;
      assert Partial(Building(Built(p, Some(text)))) == Partial(open) + EncodeReason(Some(text)) by {
        assert EncodeContent(open.p) == EncodeBody(p) + [] == EncodeBody(p);
      }
      hide EncodeAll, AllEncodable, Partial;
      Extend([len] + text + Zeros(pad), Building(Built(p, Some(text))));
      return true;
    }

    /** Patches the length into the open packet's header. */
    method EndPacket()
      requires Valid() && open.Building?
      modifies this, buf
      ensures Valid() && open == Closed && done == old(done) + [old(open).p] && write == old(write)
      ensures buf[..write] == EncodeAll(done)
    {
      ghost var p, b := open.p, buf[..write];
      PacketEnds(p, done, b);
      hide EncodeAll, AllEncodable, Encode, Encodable, Partial, Patched, EncodeContent, Legal;
      PatchLength();
      Close(p);
    }

    /** Counts the open packet, which now stands finished in the buffer, as done. */
    ghost method Close(p: Built)
      requires 4 <= buf.Length <= 0x4_0000 && buf.Length % 4 == 0 && start <= write <= buf.Length
      requires AllEncodable(done + [p]) && Legal(Closed)
      requires buf[..write] == EncodeAll(done + [p]) == EncodeAll(done + [p]) + Partial(Closed)
      modifies this`done, this`open
      ensures Valid() && open == Closed && done == old(done) + [p] && buf[..write] == EncodeAll(done)
    {
      hide EncodeAll, AllEncodable, Partial, Legal;
      done := done + [p];
      open := Closed;
    }

    /** Whatever sequence of calls has built the packets in the buffer: if the first of them is a
        report, a receiver accepts the whole, and recovers the packets one by one if and only if all
        are readable; in a buffer of less than 1028 octets, if and only if no packet got more than 31
        entries. */
    lemma ReceiverRecovers()
      requires Valid() && open.Closed? && done != []
      requires done[0].packet.SenderReport? || done[0].packet.ReceiverReport?
      ensures Check(buf[..write]) == None
      ensures Receive(buf[..write]) == Compound(Packets(done)) <==> AllReadable(done)
      ensures buf.Length < 1028 ==> (Receive(buf[..write]) == Compound(Packets(done)) <==> AllCounted(done))
    {
      ClosedIsEmpty(EncodeAll(done));
      hide EncodeAll, AllEncodable, AllReadable, AllCounted, Check, Receive, Packets, Partial, Legal;
      CompoundRoundTrip(done);
      if buf.Length < 1028 {
        SmallIsReadable(done);
      }
    }

    /** Every octet of the buffer stands where the layout of the packets wants it. */
    lemma OctetsStand()
      requires Valid() && open.Closed? && AllCounted(done)
      ensures Layout.AllBuiltAt(buf[..write], 0, done)
    {
      ClosedIsEmpty(EncodeAll(done));
      hide EncodeAll, AllEncodable, AllCounted, Layout.AllBuiltAt, Partial, Legal;
      Layout.CompoundWritten(done);
    }

    method PatchLength()
      requires start + 4 <= write <= buf.Length && (write - start) / 4 - 1 < 0x1_0000
      modifies buf
      ensures buf[..write] == Patched(old(buf[..write]), start)
    {
      hide Be16;
      var words := Be16((write - start) / 4 - 1);
      buf[start + 2] := words[0];
      buf[start + 3] := words[1];
    }
  }

  lemma ClosedIsEmpty(a: seq<u8>)
    ensures Legal(Closed) && a + Partial(Closed) == a
  {
  }

  /** Once the length is patched in, the open packet is a finished one. */
  lemma PacketEnds(p: Built, done: seq<Built>, b: seq<u8>)
    requires Legal(Building(p)) && AllEncodable(done) && |b| <= 0x4_0000 && b == EncodeAll(done) + Partial(Building(p))
    ensures AllEncodable(done + [p]) && Legal(Closed)
    ensures var start := |EncodeAll(done)|;
            && start + 4 <= |b| && (|b| - start) / 4 - 1 < 0x1_0000
            && Patched(b, start) == EncodeAll(done + [p])
    ensures EncodeAll(done + [p]) + Partial(Closed) == EncodeAll(done + [p])
  {
    hide EncodeAll, AllEncodable, Partial, Legal, Encode, Encodable, Patched, EncodeContent;
    FinishedPacket(p, EncodeAll(done));
    AllSnoc(done, p);
    ClosedIsEmpty(EncodeAll(done + [p]));
  }

  lemma FinishedPacket(p: Built, before: seq<u8>)
    requires Legal(Building(p)) && |before + Partial(Building(p))| <= 0x4_0000
    ensures Encodable(p)
    ensures var b := before + Partial(Building(p));
            && |before| + 4 <= |b| && (|b| - |before|) / 4 - 1 < 0x1_0000
            && Patched(b, |before|) == before + Encode(p)
  {
    ContentAligned(p);
    PartialShape(p);
    hide EncodeContent, Partial, Header, Patched;
    QuarterOf(|EncodeContent(p)|);
    PatchedLength(before, Count(p.packet), PayloadType(p.packet), EncodeContent(p));
  }

  lemma PartialShape(p: Built)
    requires Legal(Building(p))
    ensures Partial(Building(p)) == [128 + Count(p.packet) % 32, PayloadType(p.packet), 0, 0] + EncodeContent(p)
  {
    hide EncodeContent;
  }

  lemma QuarterOf(n: nat)
    requires n % 4 == 0
    ensures (n + 4) / 4 - 1 == n / 4
  {
  }

  lemma PatchedLength(before: seq<u8>, count: nat, pt: u8, content: seq<u8>)
    requires |content| % 4 == 0 && |content| < 0x4_0000
    ensures var b := before + ([128 + count % 32, pt, 0, 0] + content);
            && |b| == |before| + 4 + |content| && (|b| - |before|) / 4 - 1 == |content| / 4
            && Patched(b, |before|) == before + (Header(count, pt, |content| / 4) + content)
  {
    QuarterOf(|content|);
    hide Be16;
  }

  lemma ReportGrows(p: RtcpPacket, k: Block)
    requires p.SenderReport? || p.ReceiverReport?
    ensures var u, now := Partial(Building(Built(p, None))), Building(Built(WithBlock(p, k), None));
            && Legal(now) && Partial(now) == u[0 := OneMore(u[0])] + EncodeBlock(k)
            && |u| == (if p.SenderReport? then 28 else 8) + 24 * |p.blocks|
  {
    BodyGrows(p, k);
    ReportShape(p);
    ReportShape(WithBlock(p, k));
    assert WithBlock(p, k).blocks == p.blocks + [k] && PayloadType(WithBlock(p, k)) == PayloadType(p);
    hide EncodeBlock, EncodeBody, Partial, WithBlock, PayloadType, Unfinished;
    Grow(|p.blocks|, PayloadType(p), EncodeBody(p), EncodeBlock(k));
  }

  lemma ReportShape(p: RtcpPacket)
    requires p.SenderReport? || p.ReceiverReport?
    ensures var u := Partial(Building(Built(p, None)));
            && u == Unfinished(|p.blocks|, PayloadType(p), EncodeBody(p)) && |u| == 4 + |EncodeBody(p)|
    ensures Legal(Building(Built(p, None)))
  {
    hide EncodeBody;
    assert EncodeBody(p) + [] == EncodeBody(p);
  }

  lemma BodyGrows(p: RtcpPacket, k: Block)
    requires p.SenderReport? || p.ReceiverReport?
    ensures EncodeBody(WithBlock(p, k)) == EncodeBody(p) + EncodeBlock(k)
    ensures |EncodeBody(p)| == (if p.SenderReport? then 24 else 4) + 24 * |p.blocks|
  {
    hide EncodeBlock, Be32, Be32List;
    BlocksSnoc(p.blocks, k);
    hide EncodeBlocks;
    match p
    case SenderReport(ssrc, ntpSec, ntpFrac, rtpTs, psent, osent, blocks) =>
      Assoc(Be32List([ssrc, ntpSec, ntpFrac, rtpTs, psent, osent]), EncodeBlocks(blocks), EncodeBlock(k));
    case ReceiverReport(ssrc, blocks) => Assoc(Be32(ssrc), EncodeBlocks(blocks), EncodeBlock(k));
  }

  lemma ByeGrows(ssrcs: seq<u32>, ssrc: u32)
    ensures var u := Partial(Building(Built(Bye(ssrcs), None)));
            && Legal(Building(Built(Bye(ssrcs + [ssrc]), None)))
            && Partial(Building(Built(Bye(ssrcs + [ssrc]), None))) == u[0 := OneMore(u[0])] + Be32(ssrc)
            && |u| == 4 + 4 * |ssrcs|
  {
    hide Be32;
    Be32ListSnoc(ssrcs, ssrc);
    hide Be32List;
    assert EncodeContent(Built(Bye(ssrcs + [ssrc]), None)) == EncodeContent(Built(Bye(ssrcs), None)) + Be32(ssrc);
    hide EncodeContent;
    Grow(|ssrcs|, PT_BYE, EncodeContent(Built(Bye(ssrcs), None)), Be32(ssrc));
  }

  lemma ChunkOpens(chunks: seq<Chunk>, ssrc: u32)
    ensures var u := Partial(Building(Built(SourceDescription(chunks), None)));
            && Legal(InChunk(chunks, ssrc, []))
            && Partial(InChunk(chunks, ssrc, [])) == u[0 := OneMore(u[0])] + Be32(ssrc)
            && |u| == 4 + |EncodeChunks(chunks)|
  {
    hide Be32, EncodeChunks;
    assert EncodeContent(Built(SourceDescription(chunks), None)) == EncodeChunks(chunks) + [];
    assert Be32(ssrc) + EncodeItems([]) == Be32(ssrc);
    Grow(|chunks|, PT_SDES, EncodeChunks(chunks), Be32(ssrc));
  }

  lemma NameGrows(chunks: seq<Chunk>, ssrc: u32, names: seq<Text>, name: Text)
    requires Legal(InChunk(chunks, ssrc, names))
    ensures Legal(InChunk(chunks, ssrc, names + [name]))
    ensures Partial(InChunk(chunks, ssrc, names + [name]))
            == Partial(InChunk(chunks, ssrc, names)) + ([SDES_CNAME, |name|] + name)
  {
    hide EncodeChunks, Be32;
    ItemsSnoc(names, name);
    hide EncodeItems;
    var more := EncodeItem(name);
    assert EncodeChunks(chunks) + (Be32(ssrc) + (EncodeItems(names) + more)) == EncodeChunks(chunks) + (Be32(ssrc) + EncodeItems(names)) + more;
    UnfinishedAppend(|chunks| + 1, PT_SDES, EncodeChunks(chunks) + (Be32(ssrc) + EncodeItems(names)), more);
  }

  /** The null octets that complete a chunk fit, whatever the packets before it. */
  lemma ChunkFits(chunks: seq<Chunk>, ssrc: u32, names: seq<Text>, done: seq<Built>, length: nat, write: nat)
    requires AllEncodable(done) && length % 4 == 0
    requires write == |EncodeAll(done)| + |Partial(InChunk(chunks, ssrc, names))| && write < length
    ensures var size := write - (|EncodeAll(done)| + 4 + |EncodeChunks(chunks)|);
            size == 4 + |EncodeItems(names)| && write + 1 + Fill(size + 1) <= length
  {
    ChunksAligned(chunks);
    AllAligned(done);
    InChunkSize(chunks, ssrc, names);
    hide EncodeChunks, EncodeItems, EncodeAll, Fill, Partial, AllEncodable;
    FillFits(|EncodeAll(done)|, |EncodeChunks(chunks)|, |EncodeItems(names)|, write, length);
  }

  lemma InChunkSize(chunks: seq<Chunk>, ssrc: u32, names: seq<Text>)
    ensures |Partial(InChunk(chunks, ssrc, names))| == 8 + |EncodeChunks(chunks)| + |EncodeItems(names)|
  {
    hide EncodeChunks, EncodeItems, Be32;
  }

  lemma FillFits(a: nat, b: nat, items: nat, write: nat, length: nat)
    requires a % 4 == 0 && b % 4 == 0 && length % 4 == 0
    requires write == a + (8 + b + items) && write < length
    ensures var size := write - (a + 4 + b);
            size == 4 + items && write + 1 + Fill(size + 1) <= length
  {
    var begin := a + 4 + b;
    assert begin % 4 == 0;
    var end := write + 1 + Fill(write + 1 - begin);
    assert (end - begin) % 4 == 0;
    assert end % 4 == 0;
  }

  lemma ChunkCloses(chunks: seq<Chunk>, ssrc: u32, names: seq<Text>, before: seq<u8>, size: nat)
    requires size == 4 + |EncodeItems(names)|
    ensures var now := Building(Built(SourceDescription(chunks + [Chunk(ssrc, names)]), None));
            && Legal(now)
            && before + Partial(now) == before + Partial(InChunk(chunks, ssrc, names)) + Zeros(1 + Fill(size + 1))
  {
    ClosedChunk(chunks, ssrc, names);
    hide Partial, Legal, Zeros, Fill;
    Assoc(before, Partial(InChunk(chunks, ssrc, names)), Zeros(1 + Fill(size + 1)));
  }

  lemma ClosedChunk(chunks: seq<Chunk>, ssrc: u32, names: seq<Text>)
    ensures var now := Building(Built(SourceDescription(chunks + [Chunk(ssrc, names)]), None));
            && Legal(now)
            && Partial(now) == Partial(InChunk(chunks, ssrc, names)) + Zeros(1 + Fill(|EncodeItems(names)| + 5))
  {
    var c := Chunk(ssrc, names);
    ChunksSnoc(chunks, c);
    hide EncodeChunks, EncodeItems, Be32;
    var zeros := Zeros(1 + Fill(|EncodeItems(names)| + 5));
    var open := Be32(ssrc) + EncodeItems(names);
    Assoc(EncodeChunks(chunks), open, zeros);
    hide EncodeChunk;
    assert EncodeContent(Built(SourceDescription(chunks + [c]), None)) == EncodeChunks(chunks + [c]) + [] == EncodeChunks(chunks + [c]);
    UnfinishedAppend(|chunks| + 1, PT_SDES, EncodeChunks(chunks) + open, zeros);
  }

  lemma UnfinishedAppend(count: nat, pt: u8, content: seq<u8>, more: seq<u8>)
    ensures Unfinished(count, pt, content + more) == Unfinished(count, pt, content) + more
  {
  }

  lemma PartialHead(open: Open)
    requires Legal(open) && !open.Closed?
    ensures |Partial(open)| >= 4
  {
    hide EncodeContent, EncodeChunks, EncodeItems, Be32;
  }

  lemma PatchInside(a: seq<u8>, u: seq<u8>, e: seq<u8>)
    requires u != []
    ensures (a + u + e)[|a|] == u[0]
    ensures (a + u + e)[|a| := OneMore(u[0])] == a + (u[0 := OneMore(u[0])] + e)
  {
  }
}
