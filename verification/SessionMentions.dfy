/**
 Which packets can change the entry of a member: only those that name it.  So a member that no packet
 names ages and leaves in exactly its time.
 */
module SessionMentions {
  import opened Words
  import opened SoftTimer
  import opened SessionTimers
  import opened ConflictTable
  import opened RtcpTypes
  import opened RtpSource
  import opened Session
  import opened SessionInvariant
  import opened SessionHistory
  import opened SessionSteps
  import opened SessionResults
  import RtpPacket
  import Codec = RtcpCodec

  /** Whether an RTCP packet comes from this source, describes it or says its goodbye. */
  predicate Names(p: RtcpPacket, ssrc: u32) {
    match p
    case SenderReport(source, _, _, _, _, _, _) => source == ssrc
    case ReceiverReport(source, _) => source == ssrc
    case SourceDescription(chunks) => exists k | 0 <= k < |chunks| :: chunks[k].ssrc == ssrc
    case Bye(ssrcs) => ssrc in ssrcs
    case Other(_) => false
  }

  predicate NamedIn(packets: seq<RtcpPacket>, ssrc: u32) {
    exists k | 0 <= k < |packets| :: Names(packets[k], ssrc)
  }

  /** Whether a packet that is accepted comes from this source or has it among its contributors. */
  predicate Mentions(event: Event, pt: u8, ssrc: u32) {
    match event
    case RtpArrives(pkt, _, _) =>
      var r := RtpPacket.Check(pkt, pt);
      r.Accepted? && (r.packet.ssrc == ssrc || ssrc in r.packet.csrcs)
    case RtcpArrives(msg, _, _) =>
      var r := Codec.Receive(msg);
      r.Compound? && NamedIn(r.packets, ssrc)
    case UserSends(_, _, _) => false
    case TimePasses(_) => false
  }

  /** The entry of a used slot is not touched. */
  ghost predicate Aside(s: State, t: State, i: Slot) {
    t.slots[i] == s.slots[i] && i !in t.free && t.self == s.self && t.cfg == s.cfg
  }

  /** Another's slot. */
  ghost predicate Bystander(s: State, i: Slot, ssrc: u32) {
    i !in s.free && i != s.self && s.slots[i].ssrc != ssrc
  }

  // ---------------------------------------------------------------- packets on others

  lemma CollideAside(s: State, j: Slot, from: Addr, i: Slot)
    requires i != j && i !in s.free
    ensures Aside(s, Collide(s, j, from).0, i)
  {
    hide DrawnAt, LookupAddr, AddAddr;
  }

  lemma HandleRtpSsrcAside(s: State, ssrc: u32, seqno: u16, from: Addr, csrc: bool, i: Slot)
    requires Bystander(s, i, ssrc)
    ensures var (t, j) := HandleRtpSsrc(s, ssrc, seqno, from, csrc); Aside(s, t, i) && j != Some(i)
  {
    hide Arm, Rearm, FirstHeard, Fresh, Collide;
    var found := Lookup(s, ssrc);
    if found.Some? {
      CollideAside(s, found.value, from, i);
    }
  }

  lemma {:induction false} HandleCsrcsAside(s: State, csrcs: seq<u32>, seqno: u16, ts: u32, from: Addr, arrival: u32, i: Slot)
    requires i !in s.free && i != s.self && s.slots[i].ssrc !in csrcs
    ensures Aside(s, HandleCsrcs(s, csrcs, seqno, ts, from, arrival), i)
    decreases |csrcs|
  {
    hide HandleRtpSsrc, Evolve;
    if csrcs != [] {
      HandleRtpSsrcAside(s, csrcs[0], seqno, from, true, i);
      var (s1, j) := HandleRtpSsrc(s, csrcs[0], seqno, from, true);
      HandleCsrcsAside(if j.Some? then Jitter(s1, j.value, ts, arrival) else s1, csrcs[1..], seqno, ts, from, arrival, i);
    }
  }

  lemma AcceptRtpAside(s: State, j: Slot, p: RtpPacket.Packet, from: Addr, arrival: u32, i: Slot)
    requires i !in s.free && i != s.self && i != j && s.slots[i].ssrc !in p.csrcs
    ensures Aside(s, AcceptRtp(s, j, p, from, arrival), i)
  {
    hide HandleCsrcs, Evolve, UpdateSeq;
    var (s1, ok) := CheckSeq(s, j, p.seqno);
    if ok {
      var s2 := Jitter(s1, j, p.ts, arrival);
      HandleCsrcsAside(SetSlot(s2, j, s2.slots[j].(validated := true)), p.csrcs, p.seqno, p.ts, from, arrival, i);
    }
  }

  lemma RxRtpAside(s: State, pkt: seq<u8>, from: Addr, arrival: u32, i: Slot)
    requires i !in s.free && i != s.self && !Mentions(RtpArrives(pkt, from, arrival), s.cfg.pt, s.slots[i].ssrc)
    ensures Aside(s, RxRtp(s, pkt, from, arrival), i)
  {
    hide HandleRtpSsrc, AcceptRtp, RtpPacket.Check;
    match RtpPacket.Check(pkt, s.cfg.pt)
    case Rejected(_) =>
    case Accepted(p) =>
      HandleRtpSsrcAside(s, p.ssrc, p.seqno, from, false, i);
      var (s1, j) := HandleRtpSsrc(s, p.ssrc, p.seqno, from, false);
      if j.Some? {
        AcceptRtpAside(s1, j.value, p, from, arrival, i);
      }
  }

  lemma HandleRtcpSsrcAside(s: State, ssrc: u32, from: Addr, size: u32, i: Slot)
    requires Bystander(s, i, ssrc)
    ensures var (t, j) := HandleRtcpSsrc(s, ssrc, from, size); Aside(s, t, i) && j != Some(i)
  {
    hide Arm, Rearm, Fresh, Collide;
    var found := Lookup(s, ssrc);
    if found.Some? {
      CollideAside(s, found.value, from, i);
    }
  }

  lemma {:induction false} HandleSdesAside(s: State, chunks: seq<Chunk>, from: Addr, size: u32, i: Slot)
    requires i !in s.free && i != s.self && forall k | 0 <= k < |chunks| :: chunks[k].ssrc != s.slots[i].ssrc
    ensures Aside(s, HandleSdes(s, chunks, from, size), i)
    decreases |chunks|
  {
    hide HandleRtcpSsrc, SetNames;
    if chunks != [] {
      HandleRtcpSsrcAside(s, chunks[0].ssrc, from, size, i);
      var (s1, j) := HandleRtcpSsrc(s, chunks[0].ssrc, from, size);
      var s2 := if j.None? then s1 else SetSlot(s1, j.value, SetNames(s1.slots[j.value], chunks[0].names));
      HandleSdesAside(s2, chunks[1..], from, size, i);
    }
  }

  lemma LeaveAside(s: State, aMember: bool, aSender: bool)
    ensures var t := Leave(s, aMember, aSender); t.slots == s.slots && t.free == s.free && t.self == s.self && t.cfg == s.cfg
  {
    hide Rearm, ScaledNext, ScaledLast;
  }

  lemma {:induction false} HandleByeAside(s: State, ssrcs: seq<u32>, i: Slot)
    requires i !in s.free && i != s.self && s.slots[i].ssrc !in ssrcs
    ensures Aside(s, HandleBye(s, ssrcs), i)
    decreases |ssrcs|
  {
    hide Leave, Arm, Disarm;
    if ssrcs != [] {
      var j := Lookup(s, ssrcs[0]);
      if j.Some? && !s.slots[j.value].bye {
        LeaveAside(s, true, s.slots[j.value].rtpHeard);
        HandleByeAside(ByeOne(s, j.value), ssrcs[1..], i);
      } else {
        HandleByeAside(s, ssrcs[1..], i);
      }
    }
  }

  lemma HandleSrAside(s: State, p: RtcpPacket, from: Addr, size: u32, clock: (u32, u32), i: Slot)
    requires p.SenderReport? && Bystander(s, i, p.ssrc)
    ensures Aside(s, HandleSr(s, p, from, size, clock), i)
  {
    hide HandleRtcpSsrc, BlocksTold;
    HandleRtcpSsrcAside(s, p.ssrc, from, size, i);
    var (s1, j) := HandleRtcpSsrc(s, p.ssrc, from, size);
    if j.Some? {
      assert HandleSr(s, p, from, size, clock).slots[i] == s1.slots[i];
    }
  }

  lemma HandleRtcpAside(s: State, p: RtcpPacket, from: Addr, size: u32, clock: (u32, u32), i: Slot)
    requires i !in s.free && i != s.self && !Names(p, s.slots[i].ssrc)
    ensures Aside(s, HandleRtcp(s, p, from, size, clock), i)
  {
    hide HandleRtcpSsrc, HandleSr, HandleSdes, HandleBye;
    match p
    case SenderReport(_, _, _, _, _, _, _) => HandleSrAside(s, p, from, size, clock, i);
    case ReceiverReport(ssrc, _) => HandleRtcpSsrcAside(s, ssrc, from, size, i);
    case SourceDescription(chunks) => HandleSdesAside(s, chunks, from, size, i);
    case Bye(ssrcs) => HandleByeAside(s, ssrcs, i);
    case Other(_) =>
  }

  lemma {:induction false} HandleAllAside(s: State, packets: seq<RtcpPacket>, from: Addr, size: u32, clock: (u32, u32), i: Slot)
    requires i !in s.free && i != s.self && !NamedIn(packets, s.slots[i].ssrc)
    ensures Aside(s, HandleAll(s, packets, from, size, clock), i)
    decreases |packets|
  {
    hide HandleRtcp, Names;
    if packets != [] {
      assert forall k | 0 <= k < |packets[1..]| :: packets[1..][k] == packets[k + 1];
      HandleRtcpAside(s, packets[0], from, size, clock, i);
      HandleAllAside(HandleRtcp(s, packets[0], from, size, clock), packets[1..], from, size, clock, i);
    }
  }

  lemma TxAside(s: State, payload: seq<u8>, ts: u32, csrcs: CsrcList, i: Slot)
    requires i !in s.free && i != s.self
    ensures Aside(s, Tx(s, payload, ts, csrcs), i)
  {
    hide RtpPacket.Encode, TooBig, Rearm;
  }

  /** Nothing that arrives or is sent touches the entry of a member it does not mention. */
  lemma UnmentionedIsUntouched(s: State, event: Event, i: Slot)
    requires Settled(s.timers) && !event.TimePasses?
    requires i !in s.free && i != s.self && !Mentions(event, s.cfg.pt, s.slots[i].ssrc)
    ensures Step(s, event).slots[i] == s.slots[i] && i !in Step(s, event).free
  {
    hide RxRtp, Tx, HandleAll, Codec.Receive, NamedIn;
    match event
    case RtpArrives(pkt, from, arrival) => RxRtpAside(s, pkt, from, arrival, i);
    case RtcpArrives(msg, from, clock) =>
      match Codec.Receive(msg) {
        case Compound(packets) => HandleAllAside(s.(rtcpStatus := RtcpNoError), packets, from, |msg|, clock, i);
        case Refused(_) =>
        case Overrun =>
      }
    case UserSends(payload, ts, csrcs) => TxAside(s, payload, ts, csrcs, i);
  }

  // ---------------------------------------------------------------- packets on the member itself

  /** A member named as source or contributor of an RTP packet is refreshed, as a member and as a sender,
      if and only if it has not said goodbye and is either not known to send or was first heard from the
      same address; otherwise its entry stays as it is. */
  lemma RtpRefreshesIff(s: State, ssrc: u32, seqno: u16, from: Addr, csrc: bool, i: Slot)
    requires Lookup(s, ssrc) == Some(i) && !s.slots[i].isSelf
    ensures var m, n := s.slots[i], HandleRtpSsrc(s, ssrc, seqno, from, csrc).0.slots[i];
            if !m.bye && (!m.rtpHeard || m.rtpAddr == from)
            then n.hist.refreshed == s.timers.now && n.hist.heard == s.timers.now && n.rtpHeard && n.rtpAddr == from
            else n == m
  {
    hide Arm, Rearm, InitSeq;
  }

  /** A member named as source of an RTCP report or description is refreshed if and only if it has not said
      goodbye and is either not yet known from RTCP or was first heard from the same address; otherwise
      its entry stays as it is. */
  lemma RtcpRefreshesIff(s: State, ssrc: u32, from: Addr, size: u32, i: Slot)
    requires TableOk(s) && Lookup(s, ssrc) == Some(i) && i != s.self
    ensures var m, n := s.slots[i], HandleRtcpSsrc(s, ssrc, from, size).0.slots[i];
            if !m.bye && (!m.rtcpHeard || m.rtcpAddr == from)
            then n.hist == m.hist.(refreshed := s.timers.now) && n.rtcpHeard && n.rtcpAddr == from
            else n == m
  {
    hide Arm, Rearm;
  }

  // ---------------------------------------------------------------- runs

  /** No packet in the run mentions this source. */
  ghost predicate Unmentioned(events: seq<Event>, pt: u8, ssrc: u32) {
    forall k | 0 <= k < |events| :: !Mentions(events[k], pt, ssrc)
  }

  lemma UnmentionedStep(s: State, event: Event, i: Slot)
    requires Good(s) && Admissible(s, event) && i in s.used && i != s.self && !s.slots[i].bye
    requires !Mentions(event, s.cfg.pt, s.slots[i].ssrc)
    requires Step(s, event).timers.now < s.slots[i].hist.refreshed + 100
    ensures var t := Step(s, event);
            && Good(t) && t.cfg == s.cfg && i in t.used && i != t.self && !t.slots[i].bye && t.slots[i].ssrc == s.slots[i].ssrc
            && t.slots[i].hist.refreshed == s.slots[i].hist.refreshed && t.slots[i].hist.heard == s.slots[i].hist.heard
  {
    hide Mentions, Step, Admissible;
    StepGood(s, event);
    assert i !in s.free && Settled(s.timers) && !s.slots[i].isSelf;
    if event.TimePasses? {
      TickedStep(s, event.wall, i);
    } else {
      UnmentionedIsUntouched(s, event, i);
      hide SeqsOk, AllReportedOk, OutputGood, RenumberOk, SpacingOk, TimersOk, CountersOk, ConflictsOk;
    }
  }

  lemma TickedStep(s: State, wall: Wall, i: Slot)
    requires Good(s) && i in s.used && i != s.self && !s.slots[i].bye && !s.slots[i].isSelf
    requires s.timers.now + 1 < s.slots[i].hist.refreshed + 100
    ensures var t := Step(s, TimePasses(wall));
            && i in t.used && i != t.self && !t.slots[i].bye && t.slots[i].ssrc == s.slots[i].ssrc
            && t.slots[i].hist.refreshed == s.slots[i].hist.refreshed && t.slots[i].hist.heard == s.slots[i].hist.heard
  {
    hide SessionTick, Good;
    TickGoodSelf(s, wall);
    TickIsExact(s, wall);
  }

  lemma TickGoodSelf(s: State, wall: Wall)
    requires Good(s)
    ensures SessionTick(s, wall).self == s.self
  {
    hide SessionTick, Inv, SeqsOk, AllReportedOk, OutputGood, RenumberOk, SpacingOk;
    TickGood(s, wall);
  }

  /** As long as its time is not up, a member that no packet of the run mentions is neither refreshed nor
      said goodbye for, and is not heard on RTP. */
  lemma {:induction false} UnmentionedIsQuiet(s: State, events: seq<Event>, i: Slot)
    requires Good(s) && Run(s, events) && i in s.used && i != s.self && !s.slots[i].bye
    requires Unmentioned(events, s.cfg.pt, s.slots[i].ssrc)
    requires RunEnd(s, events).timers.now < s.slots[i].hist.refreshed + 100
    ensures QuietRun(s, events, i) && SilentRun(s, events, i)
    decreases |events|
  {
    hide Inv, SeqsOk, AllReportedOk, OutputGood, RenumberOk, SpacingOk, Step, Admissible, Mentions;
    if events != [] {
      assert forall k | 0 <= k < |events[1..]| :: events[1..][k] == events[k + 1];
      StepGood(s, events[0]);
      TimeGoesOn(Step(s, events[0]), events[1..]);
      UnmentionedStep(s, events[0], i);
      UnmentionedIsQuiet(Step(s, events[0]), events[1..], i);
    }
  }

  /** A member that no packet of the run mentions leaves in exactly the 100th tick after the last packet
      that refreshed it. */
  lemma UnmentionedLeaves(s: State, events: seq<Event>, i: Slot, wall: Wall)
    requires Good(s) && Run(s, events) && i in s.used && i != s.self && !s.slots[i].bye
    requires Unmentioned(events, s.cfg.pt, s.slots[i].ssrc)
    ensures var t, up := RunEnd(s, events), s.slots[i].hist.refreshed + 100;
            && (t.timers.now < up ==> i in t.used && t.slots[i].ssrc == s.slots[i].ssrc)
            && (t.timers.now + 1 == up ==> i !in SessionTick(t, wall).used)
  {
    hide Good, Step, Admissible, Mentions, QuietRun, SilentRun, SessionTick;
    if RunEnd(s, events).timers.now < s.slots[i].hist.refreshed + 100 {
      UnmentionedIsQuiet(s, events, i);
      QuietMemberStays(s, events, i);
      if RunEnd(s, events).timers.now + 1 == s.slots[i].hist.refreshed + 100 {
        QuietMemberRemoved(s, events, i, wall);
      }
    }
  }
}
