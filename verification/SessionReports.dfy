/** What a report contains, when it is sent, and whose interval counters an attempt to send one
    moves on. */
module SessionReports {
  import opened Words
  import opened SessionTimers
  import opened RtcpTypes
  import opened RtpSource
  import opened SourceLife
  import opened Session
  import opened SessionInvariant
  import Codec = RtcpCodec

  // ---------------------------------------------------------------- the blocks

  /** The members a report is about: everybody in the table but ourselves and those that left. */
  function Others(slots: Slots, used: seq<Slot>): seq<Slot> {
    if used == [] then []
    else
      var rest := Others(slots, used[1..]);
      if slots[used[0]].isSelf || slots[used[0]].bye then rest else [used[0]] + rest
  }

  /** Those whose interval counters are moved on: every member whose block fits into `room`, and the
      first one whose block does not. */
  function Moved(others: seq<Slot>, room: nat): seq<Slot> {
    if |others| <= room / 24 then others else others[..room / 24 + 1]
  }

  lemma {:induction false} OthersAmong(slots: Slots, used: seq<Slot>)
    ensures forall i :: i in Others(slots, used) <==> i in used && !slots[i].isSelf && !slots[i].bye
  {
    if used != [] {
      OthersAmong(slots, used[1..]);
      assert used == [used[0]] + used[1..];
    }
  }

  lemma {:induction false} OthersUnmoved(slots: Slots, used: seq<Slot>, i: Slot, m: Member)
    requires i !in used
    ensures Others(slots[i := m], used) == Others(slots, used)
  {
    if used != [] {
      OthersUnmoved(slots, used[1..], i, m);
    }
  }

  lemma NoDupTail(s: seq<Slot>)
    requires NoDup(s) && s != []
    ensures NoDup(s[1..]) && s[0] !in s[1..]
  {
  }

  lemma MovedMore(i: Slot, others: seq<Slot>, room: nat)
    ensures forall k :: k in Moved([i] + others, room) <==> k == i || (24 <= room && k in Moved(others, room - 24))
  {
    var all := [i] + others;
    if room < 24 {
      assert all[..1] == [i];
    } else {
      assert room / 24 == (room - 24) / 24 + 1;
      if room / 24 < |all| {
        assert all[..room / 24 + 1] == [i] + others[..room / 24];
      }
    }
  }

  /** The fields of a block on a member: its source, the loss figures of its record, the highest sequence
      number with the cycles before it, the jitter, the middle of the time its last sender report gave, and
      the delay since. */
  ghost predicate BlockOn(b: Block, m: Member, delay: u32) {
    var figures := Report(m.src).1;
    && b.ssrc == m.ssrc
    && b.fraction == figures.fraction && b.lost == figures.lost
    && b.lastSeq == (m.src.cycles + m.src.maxSeq) % 0x1_0000_0000
    && b.jitter == m.src.jitter
    && b.lsr == m.lastSr.0 % 65536 * 65536 + m.lastSr.1 / 65536
    && b.dlsr == delay
  }

  lemma BlockFields(m: Member, delay: u32)
    ensures BlockOn(ReportBlock(m, Report(m.src).1, delay), m, delay)
    ensures Report(m.src).1.extendedMax == (m.src.cycles + m.src.maxSeq) % 0x1_0000_0000
  {
    hide MaskLost, Fraction, ExpectedCount;
  }

  /** An attempt to report covers the other members in table order, as far as there is room, with the
      figures of the record in each member's slot; all blocks fit if and only if there is room for one
      for each.  It moves the interval counters of these members on, and those of the first one whose
      block does not fit; every other slot stays as it is. */
  lemma ReportCoversOthers(slots: Slots, used: seq<Slot>, room: nat, dlsr: Slot -> u32, attempt: nat)
    requires NoDup(used)
    ensures var (after, blocks, fitted) := ReportBlocks(slots, used, room, dlsr, attempt);
            var others := Others(slots, used);
            && (fitted <==> |others| <= room / 24)
            && |blocks| == (if fitted then |others| else room / 24)
            && (forall k | 0 <= k < |blocks| :: BlockOn(blocks[k], slots[others[k]], dlsr(others[k])))
            && (forall i: Slot :: after[i] == if i in Moved(others, room) then Evolve(slots[i], Summed(attempt)) else slots[i])
  {
    hide Report, ReportBlock, NoDup, Evolve, Moved, ReportBlocks, Others, BlockOn;
    BlocksInOrder(slots, used, room, dlsr, attempt);
    OnlyTheseMove(slots, used, room, dlsr, attempt);
  }

  /** The blocks are those of these members, in this order. */
  ghost predicate BlocksOf(slots: Slots, others: seq<Slot>, blocks: seq<Block>, dlsr: Slot -> u32) {
    && |blocks| <= |others|
    && forall k | 0 <= k < |blocks| :: BlockOn(blocks[k], slots[others[k]], dlsr(others[k]))
  }

  lemma {:induction false} BlocksInOrder(slots: Slots, used: seq<Slot>, room: nat, dlsr: Slot -> u32, attempt: nat)
    requires NoDup(used)
    ensures var (_, blocks, fitted) := ReportBlocks(slots, used, room, dlsr, attempt);
            var others := Others(slots, used);
            && (fitted <==> |others| <= room / 24)
            && |blocks| == (if fitted then |others| else room / 24)
            && BlocksOf(slots, others, blocks, dlsr)
    decreases |used|
  {
    hide Report, ReportBlock, NoDup, Evolve, BlocksOf;
    if used == [] {
      NoBlocks(slots, [], dlsr);
    } else {
      var i, m := used[0], slots[used[0]];
      NoDupTail(used);
      if m.isSelf || m.bye {
        BlocksInOrder(slots, used[1..], room, dlsr, attempt);
      } else if 24 <= room {
        var slots1 := slots[i := Evolve(m, Summed(attempt))];
        OthersUnmoved(slots, used[1..], i, slots1[i]);
        OthersAmong(slots, used[1..]);
        BlocksInOrder(slots1, used[1..], room - 24, dlsr, attempt);
        assert room / 24 == (room - 24) / 24 + 1;
        NextBlock(slots, i, slots1[i], Others(slots, used[1..]), ReportBlocks(slots1, used[1..], room - 24, dlsr, attempt).1, dlsr);
      } else {
        NoBlocks(slots, Others(slots, used), dlsr);
      }
    }
  }

  lemma NoBlocks(slots: Slots, others: seq<Slot>, dlsr: Slot -> u32)
    ensures BlocksOf(slots, others, [], dlsr)
  {
  }

  lemma NextBlock(slots: Slots, i: Slot, m: Member, others: seq<Slot>, blocks: seq<Block>, dlsr: Slot -> u32)
    requires i !in others && BlocksOf(slots[i := m], others, blocks, dlsr)
    ensures BlocksOf(slots, [i] + others, [ReportBlock(slots[i], Report(slots[i].src).1, dlsr(i))] + blocks, dlsr)
  {
    BlockFields(slots[i], dlsr(i));
    hide Report, ReportBlock, BlockOn;
    var more := [ReportBlock(slots[i], Report(slots[i].src).1, dlsr(i))] + blocks;
    forall k | 0 <= k < |more|
      ensures var j := ([i] + others)[k]; BlockOn(more[k], slots[j], dlsr(j))
    {
      if k > 0 {
        assert more[k] == blocks[k - 1] && ([i] + others)[k] == others[k - 1];
        assert others[k - 1] in others;
      }
    }
  }

  lemma {:induction false} OnlyTheseMove(slots: Slots, used: seq<Slot>, room: nat, dlsr: Slot -> u32, attempt: nat)
    requires NoDup(used)
    ensures var after := ReportBlocks(slots, used, room, dlsr, attempt).0;
            var moved := Moved(Others(slots, used), room);
            forall i: Slot :: after[i] == if i in moved then Evolve(slots[i], Summed(attempt)) else slots[i]
    decreases |used|
  {
    hide Report, ReportBlock, NoDup, Evolve, Moved;
    if used == [] {
      NobodyMoved(room);
    } else {
      var i, m := used[0], slots[used[0]];
      NoDupTail(used);
      if m.isSelf || m.bye {
        OnlyTheseMove(slots, used[1..], room, dlsr, attempt);
      } else {
        var slots1 := slots[i := Evolve(m, Summed(attempt))];
        MovedMore(i, Others(slots, used[1..]), room);
        if 24 <= room {
          OthersUnmoved(slots, used[1..], i, slots1[i]);
          OthersAmong(slots, used[1..]);
          MovedAmong(Others(slots, used[1..]), room - 24);
          OnlyTheseMove(slots1, used[1..], room - 24, dlsr, attempt);
        }
      }
    }
  }

  lemma NobodyMoved(room: nat)
    ensures Moved([], room) == []
  {
  }

  lemma MovedAmong(others: seq<Slot>, room: nat)
    ensures forall i | i in Moved(others, room) :: i in others
  {
  }

  // ---------------------------------------------------------------- sent or not

  /** The size of a report on `others` members with a name of `name` octets. */
  function ReportSize(sender: bool, others: int, name: nat): int {
    (if sender then 28 else 8) + 24 * others + 4 + (name + 7) + Codec.Fill(name + 7)
  }

  lemma NameContent(ssrc: u32, name: Text)
    ensures |Codec.EncodeContent(Codec.Built(SourceDescription([Chunk(ssrc, [name])]), None))|
            == |name| + 7 + Codec.Fill(|name| + 7)
  {
    var c := Chunk(ssrc, [name]);
    assert [name][1..] == [] && Codec.EncodeItems([name]) == Codec.EncodeItem(name) + [] == Codec.EncodeItem(name);
    Codec.ChunkAligned(c);
    Codec.OneChunk(c);
  }

  /** The size of the bytes of a report. */
  lemma PacketsSize(s: State, blocks: seq<Block>, wall: Wall)
    requires |blocks| < 32
    ensures var self, ps := s.slots[s.self], ReportPackets(s, blocks, wall);
            Codec.AllEncodable(ps) && Codec.AllCounted(ps) && |Codec.EncodeAll(ps)| == ReportSize(self.sender, |blocks|, |self.cname|)
  {
    var self, ps := s.slots[s.self], ReportPackets(s, blocks, wall);
    NameContent(self.ssrc, self.cname);
    ReportContent(s, blocks, wall);
    hide Codec.EncodeContent, Codec.Fill;
    TwoPackets(ps[0], ps[1]);
    assert ps == [ps[0], ps[1]];
    hide Codec.AllEncodable, Codec.EncodeAll;
  }

  lemma ReportContent(s: State, blocks: seq<Block>, wall: Wall)
    requires |blocks| < 32
    ensures |Codec.EncodeContent(ReportPackets(s, blocks, wall)[0])| == (if s.slots[s.self].sender then 24 else 4) + 24 * |blocks|
  {
    hide Codec.EncodeBlocks;
  }

  lemma TwoPackets(p: Codec.Built, q: Codec.Built)
    requires Codec.Encodable(p) && Codec.Encodable(q)
    ensures Codec.AllEncodable([p, q])
    ensures |Codec.EncodeAll([p, q])| == 8 + |Codec.EncodeContent(p)| + |Codec.EncodeContent(q)|
  {
    hide Codec.EncodeContent, Codec.Encodable;
    assert [p, q][1..] == [q] && [q][1..] == [];
    assert Codec.Encodable([p, q][0]) && Codec.Encodable([p, q][1]);
    Codec.Unfold([p, q]);
    Codec.Unfold([q]);
    Codec.Unfold([]);
  }

  /** A report is sent if and only if it fits the encoder's buffer of 256 octets; either way the
      interval counters are moved on. */
  lemma ReportSentIff(s: State, interval: real, wall: Wall)
    requires NoDup(s.used)
    ensures var (t, sent) := SendReport(s, interval, wall);
            var self, others := s.slots[s.self], Others(s.slots, s.used);
            var size := ReportSize(self.sender, |others|, |self.cname|);
            && (sent > 0 <==> size <= 256)
            && (sent > 0 ==> sent == size)
            && Codec.AllCounted(t.out.reports[|s.out.reports|].packets)
            && (forall i: Slot ::
                  t.slots[i] == if i in Moved(others, ReportRoom(s)) then Evolve(s.slots[i], Summed(|s.out.reports|)) else s.slots[i])
  {
    var others := Others(s.slots, s.used);
    var (slots, blocks, fitted) := ReportBlocks(s.slots, s.used, ReportRoom(s), wall.dlsr, |s.out.reports|);
    ReportCoversOthers(s.slots, s.used, ReportRoom(s), wall.dlsr, |s.out.reports|);
    hide ReportBlocks, Others, Moved, Codec.EncodeAll, Codec.AllEncodable, Codec.AllCounted, ReportPackets, NoDup;
    PacketsSize(s, blocks, wall);
    hide Codec.Fill;
  }

  /** The head of a report: a sender report if we are a sender, else a receiver report. */
  ghost predicate HeadOf(p: RtcpPacket, seen: Seen) {
    var me := seen.slots[seen.self];
    && (if me.sender then
          && p.SenderReport?
          && p.ntpSec == seen.wall.ntpSec && p.ntpFrac == seen.wall.ntpFrac && p.rtpTs == seen.wall.rtpTs
          && p.psent == seen.txPkts && p.osent == seen.txOctets
        else p.ReceiverReport?)
    && p.ssrc == me.ssrc
  }

  /** What was sent: the head with a block on every other member, then our name, and nothing else. */
  ghost predicate Stands(r: ReportSent) {
    var seen, others := r.seen, Others(r.seen.slots, r.seen.used);
    var me := seen.slots[seen.self];
    && |r.packets| == 2 && r.packets[0].reason.None? && HeadOf(r.packets[0].packet, seen)
    && |r.packets[0].packet.blocks| == |others|
    && (forall k | 0 <= k < |others| ::
          BlockOn(r.packets[0].packet.blocks[k], seen.slots[others[k]], seen.wall.dlsr(others[k])))
    && r.packets[1] == Codec.Built(SourceDescription([Chunk(me.ssrc, [me.cname])]), None)
    && Codec.AllEncodable(r.packets) && Codec.AllCounted(r.packets) && r.message == Codec.EncodeAll(r.packets)
  }

  /** An attempt to report notes what there was to see; if it is sent, that is what is sent. */
  lemma ReportStands(s: State, interval: real, wall: Wall)
    requires NoDup(s.used)
    ensures var reports := SendReport(s, interval, wall).0.out.reports;
            && |reports| == |s.out.reports| + 1 && reports[..|s.out.reports|] == s.out.reports
            && var r := reports[|s.out.reports|];
               && r.seen == Seen(s.slots, s.used, s.self, s.txPkts, s.txOctets, wall)
               && (r.message != [] ==> Stands(r))
  {
    hide ReportBlocks, Others, BlockOn, Codec.EncodeAll, Codec.AllEncodable, Codec.AllCounted, NoDup;
    ReportCoversOthers(s.slots, s.used, ReportRoom(s), wall.dlsr, |s.out.reports|);
    ReportSentIff(s, interval, wall);
  }

  lemma {:induction false} OthersDistinct(slots: Slots, used: seq<Slot>)
    requires NoDup(used)
    ensures NoDup(Others(slots, used))
  {
    if used != [] {
      NoDupTail(used);
      hide NoDup;
      OthersDistinct(slots, used[1..]);
      OthersAmong(slots, used[1..]);
      OneMore(used[0], Others(slots, used[1..]));
    }
  }

  lemma OneMore(i: Slot, s: seq<Slot>)
    requires NoDup(s) && i !in s
    ensures NoDup([i] + s)
  {
  }

  /** In step with the counters: the others are all members that count but ourselves. */
  lemma OthersCounted(s: State)
    requires TableOk(s) && CountersOk(s)
    ensures |Others(s.slots, s.used)| == s.control.members - 1
  {
    var others := Others(s.slots, s.used);
    OthersAmong(s.slots, s.used);
    OthersDistinct(s.slots, s.used);
    hide Others;
    NoDupAsSet(others);
    assert AsSet(others) + {s.self} == Live(s);
    Plus(AsSet(others), s.self);
  }
}
