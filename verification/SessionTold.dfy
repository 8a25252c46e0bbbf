/**
 What a received RTCP datagram makes the session tell its user, who joins by it, and what it never
 touches.
 */
module SessionTold {
  import opened Words
  import opened SoftTimer
  import opened SessionTimers
  import opened ConflictTable
  import opened RtcpTypes
  import opened Session
  import opened SessionInvariant
  import opened SessionJoining
  import opened SessionFeedback
  import Codec = RtcpCodec

  // ---------------------------------------------------------------- what the user is told

  /** A report is heeded if it comes from the address its source is bound to on RTCP, or if its source can
      join. */
  ghost predicate Heeded(s: State, ssrc: u32, from: Addr) {
    (Unknown(s, ssrc) && s.free != []) ||
    exists i: Slot :: i in s.used && i != s.self && s.slots[i].ssrc == ssrc && ListensTo(s.slots[i], from)
  }

  function BlocksOf(ssrc: u32, blocks: seq<Block>): (told: seq<Told>)
    ensures |told| == |blocks| && forall k | 0 <= k < |blocks| :: told[k] == BlockTold(ssrc, blocks[k])
  {
    if blocks == [] then [] else [BlockTold(ssrc, blocks[0])] + BlocksOf(ssrc, blocks[1..])
  }

  /** A report that is heeded is told block by block, and a sender report once more as a whole. */
  function Telling(p: RtcpPacket): seq<Told>
    requires p.SenderReport? || p.ReceiverReport?
  {
    BlocksOf(p.ssrc, p.blocks) + if p.SenderReport? then [SenderTold(p)] else []
  }

  lemma ReportTold(s: State, p: RtcpPacket, from: Addr, size: u32, clock: (u32, u32))
    requires TableOk(s) && (p.SenderReport? || p.ReceiverReport?) && p.ssrc != s.slots[s.self].ssrc
    ensures var t := HandleRtcp(s, p, from, size, clock);
            t.out == s.out.(told := s.out.told + if Heeded(s, p.ssrc, from) then Telling(p) else [])
  {
    hide HandleRtcpSsrc, Heeded, BlocksTold, BlocksOf;
    HeededIff(s, p.ssrc, from, size);
    SameBlocks(p.ssrc, p.blocks);
    var (s1, r) := HandleRtcpSsrc(s, p.ssrc, from, size);
    var t := HandleRtcp(s, p, from, size, clock);
    if r.None? {
      assert t == s1 && s.out.told + [] == s.out.told;
    } else if p.SenderReport? {
      assert t.out.told == s1.out.told + (BlocksTold(p.ssrc, p.blocks) + [SenderTold(p)]);
    } else {
      assert BlocksOf(p.ssrc, p.blocks) + [] == BlocksOf(p.ssrc, p.blocks);
      assert t.out.told == s1.out.told + BlocksTold(p.ssrc, p.blocks);
    }
  }

  lemma SameBlocks(ssrc: u32, blocks: seq<Block>)
    ensures BlocksTold(ssrc, blocks) == BlocksOf(ssrc, blocks)
  {
    assert |BlocksTold(ssrc, blocks)| == |BlocksOf(ssrc, blocks)|;
  }

  lemma HeededIff(s: State, ssrc: u32, from: Addr, size: u32)
    requires TableOk(s) && ssrc != s.slots[s.self].ssrc
    ensures var (t, r) := HandleRtcpSsrc(s, ssrc, from, size);
            (r.Some? <==> Heeded(s, ssrc, from)) && t.out == s.out
  {
    hide HandleRtcpSsrc;
    if Unknown(s, ssrc) {
      UnknownSourceEnters(s, ssrc, from, size);
    } else {
      var i: Slot :| i in s.used && s.slots[i].ssrc == ssrc;
      KnownSource(s, from, size, i);
      if j: Slot :| j in s.used && j != s.self && s.slots[j].ssrc == ssrc && ListensTo(s.slots[j], from) {
        assert j == i;
      }
    }
  }

  /** Neither a description nor a goodbye is told. */
  lemma OthersNotTold(s: State, p: RtcpPacket, from: Addr, size: u32, clock: (u32, u32))
    requires !p.SenderReport? && !p.ReceiverReport?
    ensures HandleRtcp(s, p, from, size, clock).out.told == s.out.told
  {
    hide HandleSdes, HandleBye;
    match p
    case SourceDescription(chunks) => SdesOnly(s, chunks, from, size);
    case Bye(ssrcs) => ByeOnly(s, ssrcs);
    case Other(_) =>
  }

  /** A sender report from a source that nothing is known of: its figures stay in the entry. */
  lemma SenderEnters(s: State, p: RtcpPacket, from: Addr, size: u32, clock: (u32, u32))
    requires p.SenderReport? && Unknown(s, p.ssrc) && s.free != []
    ensures var t, i := HandleRtcp(s, p, from, size, clock), s.free[0];
            && t.used == s.used + [i] && t.free == s.free[1..]
            && t.slots == s.slots[i := EnteredByRtcp(s.slots[i], p.ssrc, from, s.timers.now)
                                       .(lastSr := (p.ntpSec, p.ntpFrac), lastSrAt := clock, rtpTs := p.rtpTs,
                                         pktCount := p.psent, octetCount := p.osent)]
  {
    hide HandleRtcpSsrc, BlocksTold;
    UnknownSourceEnters(s, p.ssrc, from, size);
  }

  // ---------------------------------------------------------------- what RTCP does not touch

  ghost predicate RtcpOnly(s: State, t: State) {
    && t.cfg == s.cfg && t.self == s.self && t.drandAt == s.drandAt && t.seqno == s.seqno
    && t.invalidRtp == s.invalidRtp && t.rtpStatus == s.rtpStatus && t.invalidRtcp == s.invalidRtcp
    && t.control == s.control.(members := t.control.members, senders := t.control.senders, avgSize := t.control.avgSize,
                               tp := t.control.tp, tn := t.control.tn, pmembers := t.control.pmembers)
    && t.out == s.out.(told := t.out.told, renumbered := t.out.renumbered, tally := t.out.tally)
  }

  lemma RtcpOnlyTrans(s: State, t: State, u: State)
    requires RtcpOnly(s, t) && RtcpOnly(t, u)
    ensures RtcpOnly(s, u)
  {
  }

  lemma SourceOnly(s: State, ssrc: u32, from: Addr, size: u32)
    ensures RtcpOnly(s, HandleRtcpSsrc(s, ssrc, from, size).0)
    ensures HandleRtcpSsrc(s, ssrc, from, size).0.out.told == s.out.told
  {
    hide Arm, Rearm, Fresh, Collide, Lookup;
    var found := Lookup(s, ssrc);
    if found.Some? {
      CollisionOnly(s, found.value, from);
    }
  }

  lemma CollisionOnly(s: State, i: Slot, from: Addr)
    ensures var t := Collide(s, i, from).0; RtcpOnly(s, t) && t.control == s.control && t.out.told == s.out.told
  {
    hide DrawnAt, LookupAddr, AddAddr;
  }

  lemma {:induction false} SdesOnly(s: State, chunks: seq<Chunk>, from: Addr, size: u32)
    ensures RtcpOnly(s, HandleSdes(s, chunks, from, size)) && HandleSdes(s, chunks, from, size).out.told == s.out.told
    decreases |chunks|
  {
    hide HandleRtcpSsrc, SetNames;
    if chunks != [] {
      SourceOnly(s, chunks[0].ssrc, from, size);
      var (s1, r) := HandleRtcpSsrc(s, chunks[0].ssrc, from, size);
      var s2 := if r.None? then s1 else SetSlot(s1, r.value, SetNames(s1.slots[r.value], chunks[0].names));
      SdesOnly(s2, chunks[1..], from, size);
      RtcpOnlyTrans(s, s2, HandleSdes(s2, chunks[1..], from, size));
    }
  }

  lemma LeaveOnly(s: State, i: Slot)
    ensures RtcpOnly(s, ByeOne(s, i)) && ByeOne(s, i).out == s.out
  {
    hide Rearm, Arm, Disarm, ScaledNext, ScaledLast;
  }

  lemma {:induction false} ByeOnly(s: State, ssrcs: seq<u32>)
    ensures RtcpOnly(s, HandleBye(s, ssrcs)) && HandleBye(s, ssrcs).out == s.out
    decreases |ssrcs|
  {
    hide ByeOne, Lookup;
    if ssrcs != [] {
      var r := Lookup(s, ssrcs[0]);
      var s1 := if r.None? || s.slots[r.value].bye then s else ByeOne(s, r.value);
      if r.Some? {
        LeaveOnly(s, r.value);
      }
      ByeOnly(s1, ssrcs[1..]);
      RtcpOnlyTrans(s, s1, HandleBye(s1, ssrcs[1..]));
    }
  }

  lemma PacketOnly(s: State, p: RtcpPacket, from: Addr, size: u32, clock: (u32, u32))
    ensures RtcpOnly(s, HandleRtcp(s, p, from, size, clock))
  {
    hide HandleRtcpSsrc, HandleSdes, HandleBye, BlocksTold;
    match p
    case SenderReport(ssrc, _, _, _, _, _, _) => SourceOnly(s, ssrc, from, size);
    case ReceiverReport(ssrc, _) => SourceOnly(s, ssrc, from, size);
    case SourceDescription(chunks) => SdesOnly(s, chunks, from, size);
    case Bye(ssrcs) => ByeOnly(s, ssrcs);
    case Other(_) =>
  }

  lemma {:induction false} PacketsOnly(s: State, packets: seq<RtcpPacket>, from: Addr, size: u32, clock: (u32, u32))
    ensures RtcpOnly(s, HandleAll(s, packets, from, size, clock))
    decreases |packets|
  {
    hide HandleRtcp;
    if packets != [] {
      PacketOnly(s, packets[0], from, size, clock);
      var s1 := HandleRtcp(s, packets[0], from, size, clock);
      PacketsOnly(s1, packets[1..], from, size, clock);
      RtcpOnlyTrans(s, s1, HandleAll(s1, packets[1..], from, size, clock));
    }
  }

  /** Receiving RTCP delivers nothing, sends nothing and reports nothing; a datagram that fails the check
      changes nothing, but is counted. */
  lemma RtcpChangesOnly(s: State, msg: Datagram, from: Addr, clock: (u32, u32))
    requires Settled(s.timers)
    ensures var t, check := Step(s, RtcpArrives(msg, from, clock)), Codec.Check(msg);
            if check == None then
              && t.cfg == s.cfg && t.self == s.self && t.seqno == s.seqno && t.invalidRtcp == s.invalidRtcp
              && t.out == s.out.(told := t.out.told, renumbered := t.out.renumbered, tally := t.out.tally)
            else t == s.(rtcpStatus := RtcpMalformed(check.value), invalidRtcp := (s.invalidRtcp + 1) % 0x1_0000_0000)
  {
    hide Codec.Check, Codec.DecodeAll, HandleAll;
    match Codec.Receive(msg)
    case Refused(_) =>
    case Compound(packets) => PacketsOnly(s.(rtcpStatus := RtcpNoError), packets, from, |msg|, clock);
    case Overrun =>
  }
}
