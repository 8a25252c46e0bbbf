/** What whole packets, transmissions and ticks keep, and what follows for every run. */
module SessionSteps {
  import opened Words
  import opened SoftTimer
  import opened SessionTimers
  import opened ConflictTable
  import opened RtcpTypes
  import opened RtpSource
  import opened SourceLife
  import opened Session
  import opened SessionInvariant
  import opened SessionHistory
  import RtpPacket
  import Codec = RtcpCodec

  // ---------------------------------------------------------------- whole packets

  /** Nothing arrives from our own RTP address. */
  ghost predicate RtpForeign(s: State, from: Addr) {
    from != s.cfg.rtpAddr
  }

  lemma HandleRtpSsrcKeeps(s: State, ssrc: u32, seqno: u16, from: Addr, csrc: bool, pending: Option<Slot>)
    requires Inv(s, {}) && Fair(s.cfg.random32) && RtpForeign(s, from)
    ensures var (t, i) := HandleRtpSsrc(s, ssrc, seqno, from, csrc);
            && Inv(t, {}) && Quick(s, t, pending)
            && (i.Some? ==> i.value in t.used && i.value != t.self && !t.slots[i.value].bye && t.slots[i.value].rtpHeard)
            && (i.Some? && !csrc ==> t.slots[i.value].ssrc == ssrc && t.slots[i.value].rtpAddr == from)
  {
    hide TimersOk, CountersOk, ConflictsOk, JoinByRtp, FirstRtp, RefreshByRtp, Collide, Quick;
    var t := HandleRtpSsrc(s, ssrc, seqno, from, csrc).0;
    match Lookup(s, ssrc) {
      case None =>
        JoinShape(s, ssrc, seqno, from, csrc);
        if s.free != [] {
          JoinByRtpKeeps(s, ssrc, seqno, from, csrc);
          JoinByRtpQuick(s, ssrc, seqno, from, csrc, pending);
        } else {
          StatusOnly(s, t, pending);
        }
      case Some(i) =>
        var m := s.slots[i];
        if m.bye {
          StatusOnly(s, t, pending);
        } else if !m.isSelf && !m.rtpHeard {
          FirstRtpKeeps(s, i, seqno, from);
          FirstRtpQuick(s, i, seqno, from, pending);
        } else if m.rtpAddr != from {
          if m.isSelf {
            CollideKeeps(s, from);
            CollideQuick(s, from, pending);
            StatusOnly(Collide(s, s.self, from).0, t, pending);
            QuickTrans(s, Collide(s, s.self, from).0, t, pending);
          } else {
            StatusOnly(s, t, pending);
          }
        } else {
          RefreshByRtpKeeps(s, i);
          RefreshByRtpQuick(s, i, pending);
        }
    }
    HandleRtpShape(s, ssrc, seqno, from, csrc);
  }

  /** Only what the session tells its user about the last packet changes. */
  lemma StatusOnly(s: State, t: State, pending: Option<Slot>)
    requires Inv(s, {})
    requires t == s.(rtpStatus := t.rtpStatus, rtcpStatus := t.rtcpStatus, invalidRtp := t.invalidRtp,
                     invalidRtcp := t.invalidRtcp, control := t.control, out := t.out)
    requires t.control == s.control.(avgSize := t.control.avgSize)
    requires t.out == s.out.(told := t.out.told)
    ensures Inv(t, {}) && Quick(s, t, pending)
  {
    hide SeqOk, SeqOkPending, ReportedOk, OutputGood;
    SameMemberRefl(s.slots);
    SameKeeps(s, t, {});
    ToldOutput(s, t);
    SlotQuick(s, t, s.self, pending);
  }

  lemma ToldOutput(s: State, t: State)
    requires t.out == s.out.(told := t.out.told)
    requires t.seqno == s.seqno && t.cfg == s.cfg && t.txPkts == s.txPkts && t.txOctets == s.txOctets
    ensures OutputGood(s) ==> OutputGood(t)
  {
    hide Carries, DeliveryGood, ReportReadable;
  }

  lemma JoinShape(s: State, ssrc: u32, seqno: u16, from: Addr, csrc: bool)
    ensures s.free == [] ==> JoinByRtp(s, ssrc, seqno, from, csrc) == (s.(rtpStatus := RtpAllocFailed), None)
  {
  }

  lemma HandleRtpShape(s: State, ssrc: u32, seqno: u16, from: Addr, csrc: bool)
    requires TableOk(s) && RtpForeign(s, from)
    ensures var (t, i) := HandleRtpSsrc(s, ssrc, seqno, from, csrc);
            && (i.Some? ==> i.value in t.used && i.value != t.self && !t.slots[i.value].bye && t.slots[i.value].rtpHeard)
            && (i.Some? && !csrc ==> t.slots[i.value].ssrc == ssrc && t.slots[i.value].rtpAddr == from)
  {
    hide Arm, Rearm, DrawnAt, InitSeq;
  }

  /** A change to one slot that touches nothing the invariant is about. */
  lemma SlotOnlyKeeps(s: State, i: Slot, m: Member, pending: Option<Slot>)
    requires Inv(s, {}) && SameMember(s.slots[i], m) && !s.slots[i].bye
    requires SeqOkPending(s.slots[i]) ==> SeqOkPending(m)
    requires Some(i) != pending ==> (SeqOk(s.slots[i]) ==> SeqOk(m))
    requires ReportedOk(s.slots[i], i, s.out.reports) ==> ReportedOk(m, i, s.out.reports)
    ensures Inv(SetSlot(s, i, m), {}) && Quick(s, SetSlot(s, i, m), pending)
  {
    hide ReportedOk, SeqOk, SeqOkPending, OutputGood;
    SameKeeps(s, SetSlot(s, i, m), {});
    SameSlotOutput(s, i, m);
    SlotQuick(s, SetSlot(s, i, m), i, pending);
  }

  lemma SameSlotOutput(s: State, i: Slot, m: Member)
    ensures OutputGood(s) ==> OutputGood(SetSlot(s, i, m))
  {
    hide Carries, DeliveryGood, ReportReadable;
  }

  lemma {:induction false} HandleCsrcsKeeps(s: State, csrcs: seq<u32>, seqno: u16, ts: u32, from: Addr, arrival: u32,
                                            pending: Option<Slot>)
    requires Inv(s, {}) && Fair(s.cfg.random32) && RtpForeign(s, from)
    ensures var t := HandleCsrcs(s, csrcs, seqno, ts, from, arrival); Inv(t, {}) && Quick(s, t, pending)
    decreases |csrcs|
  {
    hide Inv, HandleRtpSsrc, SeqsOk, AllReportedOk, OutputGood, RenumberOk, MembersKept, SeqOk, ComputeJitter;
    if csrcs != [] {
      HandleRtpSsrcKeeps(s, csrcs[0], seqno, from, true, pending);
      var (s1, i) := HandleRtpSsrc(s, csrcs[0], seqno, from, true);
      var s2 := if i.Some? then Jitter(s1, i.value, ts, arrival) else s1;
      if i.Some? {
        JitterKeeps(s1, i.value, ts, arrival, pending);
      } else {
        QuickRefl(s1, pending);
      }
      QuickTrans(s, s1, s2, pending);
      QuickCfg(s, s2, pending);
      HandleCsrcsKeeps(s2, csrcs[1..], seqno, ts, from, arrival, pending);
      QuickTrans(s, s2, HandleCsrcs(s, csrcs, seqno, ts, from, arrival), pending);
    } else {
      QuickRefl(s, pending);
    }
  }

  lemma QuickCfg(s: State, t: State, pending: Option<Slot>)
    requires Quick(s, t, pending)
    ensures t.cfg == s.cfg && t.self == s.self && t.timers.now == s.timers.now
  {
  }

  lemma JitterKeeps(s: State, i: Slot, ts: u32, arrival: u32, pending: Option<Slot>)
    requires Inv(s, {}) && !s.slots[i].bye && s.slots[i].rtpHeard
    ensures Inv(Jitter(s, i, ts, arrival), {}) && Quick(s, Jitter(s, i, ts, arrival), pending)
  {
    hide Inv, Quick, ReportedOk;
    EvolveLife(s.slots[i], Arrived(ts, arrival));
    EvolveReported(s.slots[i], i, Arrived(ts, arrival), s.out.reports);
    hide LifeOk;
    SlotOnlyKeeps(s, i, Jitter(s, i, ts, arrival).slots[i], pending);
  }

  /** Checking a sequence number keeps the source's record in order; when the check succeeds for
      the first time, the packet follows the one checked before it. */
  lemma CheckSeqOrder(m: Member, seqno: u16)
    requires SeqOk(m) && m.rtpHeard
    ensures var (src, ok) := UpdateSeq(m.src, seqno);
            var e := Evolve(m, Checked(seqno));
            var n := e.(hist := e.hist.(checked := Some(seqno)));
            && SeqOkPending(n)
            && (!ok ==> SeqOk(n))
            && (ok && !m.hist.delivered ==> m.hist.checked.Some? && seqno == m.hist.checked.value + 1)
  {
    EvolveLife(m, Checked(seqno));
    hide Life, HeardIn, InOrder;
  }

  lemma CheckSeqReported(m: Member, i: Slot, seqno: u16, reports: seq<ReportSent>)
    ensures var e := Evolve(m, Checked(seqno));
            ReportedOk(m, i, reports) ==> ReportedOk(e.(hist := e.hist.(checked := Some(seqno))), i, reports)
  {
    hide ReportedOk, Undergo;
    var e := Evolve(m, Checked(seqno));
    EvolveReported(m, i, Checked(seqno), reports);
    SameReported(e, e.(hist := e.hist.(checked := Some(seqno))), i, reports);
  }

  lemma AcceptRtpKeeps(s: State, i: Slot, p: RtpPacket.Packet, from: Addr, arrival: u32)
    requires Inv(s, {}) && Fair(s.cfg.random32) && RtpForeign(s, from)
    requires !s.slots[i].bye && i != s.self && i in s.used && s.slots[i].rtpHeard
    requires s.slots[i].rtpAddr == from && s.slots[i].ssrc == p.ssrc
    requires SeqsOk(s.slots, None)
    ensures Inv(AcceptRtp(s, i, p, from, arrival), {}) && Quick(s, AcceptRtp(s, i, p, from, arrival), None)
  {
    hide UpdateSeq, Undergo, Inv, Quick, SeqOk, SeqOkPending, ReportedOk, HandleCsrcs, Jitter, Deliver;
    var m := s.slots[i];
    assert SeqOk(m);
    CheckSeqOrder(m, p.seqno);
    CheckSeqReported(m, i, p.seqno, s.out.reports);
    hide SeqsOk;
    var (s1, ok) := CheckSeq(s, i, p.seqno);
    var t := AcceptRtp(s, i, p, from, arrival);
    if ok {
      SlotOnlyKeeps(s, i, s1.slots[i], Some(i));
      var s4 := AcceptedPath(s1, i, p, from, arrival);
      QuickTrans(s, s1, s4, Some(i));
      DeliverKeeps(s, s4, i, p, from);
    } else {
      SlotOnlyKeeps(s, i, s1.slots[i], None);
      StatusOnly(s1, t, None);
      QuickTrans(s, s1, t, None);
    }
  }

  /** Between the sequence check and the delivery: jitter, validation and the CSRC list. */
  lemma AcceptedPath(s1: State, i: Slot, p: RtpPacket.Packet, from: Addr, arrival: u32) returns (s4: State)
    requires Inv(s1, {}) && Fair(s1.cfg.random32) && RtpForeign(s1, from)
    requires !s1.slots[i].bye && s1.slots[i].rtpHeard
    ensures var s2 := Jitter(s1, i, p.ts, arrival);
            var s3 := SetSlot(s2, i, s2.slots[i].(validated := true));
            s4 == HandleCsrcs(s3, p.csrcs, p.seqno, p.ts, from, arrival)
    ensures Inv(s4, {}) && Quick(s1, s4, Some(i))
  {
    hide ComputeJitter, Inv, Quick, HandleCsrcs;
    var s2 := Jitter(s1, i, p.ts, arrival);
    JitterKeeps(s1, i, p.ts, arrival, Some(i));
    var s3 := SetSlot(s2, i, s2.slots[i].(validated := true));
    SlotOnlyKeeps(s2, i, s3.slots[i], Some(i));
    HandleCsrcsKeeps(s3, p.csrcs, p.seqno, p.ts, from, arrival, Some(i));
    s4 := HandleCsrcs(s3, p.csrcs, p.seqno, p.ts, from, arrival);
    QuickTrans(s1, s2, s3, Some(i));
    QuickTrans(s1, s3, s4, Some(i));
  }

  lemma DeliverKeeps(s: State, t: State, i: Slot, p: RtpPacket.Packet, from: Addr)
    requires Inv(s, {}) && Inv(t, {}) && Quick(s, t, Some(i)) && SeqsOk(s.slots, None)
    requires i in s.used && !s.slots[i].bye && i != s.self
    requires s.slots[i].rtpHeard && s.slots[i].rtpAddr == from && s.slots[i].ssrc == p.ssrc
    requires !s.slots[i].hist.delivered ==>
               s.slots[i].hist.checked.Some? && p.seqno == s.slots[i].hist.checked.value + 1
    ensures Inv(Deliver(t, i, p, from, s.slots[i]), {}) && Quick(s, Deliver(t, i, p, from, s.slots[i]), None)
  {
    var u := Deliver(t, i, p, from, s.slots[i]);
    assert i != t.self;
    hide Inv;
    DeliverInv(t, i, p, from, s.slots[i]);
    AcceptedIsGood(s, i, p, from);
    DeliveredSeqs(s.slots, t.slots, u.slots, i);
    hide SeqsOk, OutputGood, DeliveryGood, RenumberingsOk, Settled, Quick;
    DeliveredOutput(t, i, p, from, s.slots[i]);
    DeliveredMembers(s, t, i, p, from, s.slots[i]);
    DeliveredRest(s, t, u, i);
  }

  lemma DeliveredRest(s: State, t: State, u: State, i: Slot)
    requires Quick(s, t, Some(i)) && (SeqsOk(s.slots, None) ==> SeqsOk(u.slots, None)) && MembersKept(s, u)
    requires OutputGood(t) ==> OutputGood(u)
    requires u == t.(slots := u.slots, rtpStatus := u.rtpStatus, out := t.out.(delivered := u.out.delivered))
    requires u.slots == t.slots[i := t.slots[i].(hist := t.slots[i].hist.(delivered := true))]
    ensures Quick(s, u, None)
  {
    hide MembersKept, SeqsOk, OutputGood, RenumberingsOk;
  }

  lemma AcceptedIsGood(s: State, i: Slot, p: RtpPacket.Packet, from: Addr)
    requires TableOk(s) && SeqsOk(s.slots, None)
    requires i in s.used && !s.slots[i].bye && i != s.self
    requires s.slots[i].rtpHeard && s.slots[i].rtpAddr == from && s.slots[i].ssrc == p.ssrc
    requires !s.slots[i].hist.delivered ==>
               s.slots[i].hist.checked.Some? && p.seqno == s.slots[i].hist.checked.value + 1
    ensures DeliveryGood(Delivery(p, from, s.slots[i]))
  {
    hide LifeOk;
    assert SeqOk(s.slots[i]);
  }

  lemma DeliveredOutput(t: State, i: Slot, p: RtpPacket.Packet, from: Addr, source: Member)
    requires DeliveryGood(Delivery(p, from, source))
    ensures OutputGood(t) ==> OutputGood(Deliver(t, i, p, from, source))
  {
    hide DeliveryGood, SentOk, ReportReadable;
  }

  lemma DeliveredMembers(s: State, t: State, i: Slot, p: RtpPacket.Packet, from: Addr, source: Member)
    requires Quick(s, t, Some(i)) && !s.slots[i].bye && i in s.used
    ensures MembersKept(s, Deliver(t, i, p, from, source))
  {
    hide Settled;
    var u := Deliver(t, i, p, from, source);
    forall k | k in s.used ensures Kept(s.slots[k], u.slots[k], s.timers.now) {
      assert Kept(s.slots[k], t.slots[k], s.timers.now);
    }
  }

  lemma DeliverInv(t: State, i: Slot, p: RtpPacket.Packet, from: Addr, source: Member)
    requires Inv(t, {})
    ensures Inv(Deliver(t, i, p, from, source), {})
  {
    SameMemberRefl(t.slots);
    hide Inv;
    SameKeeps(t, Deliver(t, i, p, from, source), {});
  }

  lemma DeliveredSeqs(s: Slots, t: Slots, u: Slots, i: Slot)
    requires SeqsOk(s, None) && (SeqsOk(s, Some(i)) ==> SeqsOk(t, Some(i)))
    requires u == t[i := t[i].(hist := t[i].hist.(delivered := true))]
    ensures SeqsOk(u, None)
  {
    assert SeqsOk(s, Some(i));
    forall k: Slot ensures SeqOk(u[k]) {
      assert if k == i then SeqOkPending(t[k]) else SeqOk(t[k]);
    }
  }

  lemma RxRtpKeeps(s: State, pkt: seq<u8>, from: Addr, arrival: u32)
    requires Inv(s, {}) && Fair(s.cfg.random32) && RtpForeign(s, from) && SeqsOk(s.slots, None)
    ensures Inv(RxRtp(s, pkt, from, arrival), {}) && Quick(s, RxRtp(s, pkt, from, arrival), None)
  {
    hide HandleRtpSsrc, AcceptRtp, RtpPacket.Check, TimersOk, CountersOk, ConflictsOk, SeqsOk, MembersKept, OutputGood, RenumberOk;
    match RtpPacket.Check(pkt, s.cfg.pt)
    case Rejected(_) => StatusOnly(s, RxRtp(s, pkt, from, arrival), None);
    case Accepted(p) =>
      HandleRtpSsrcKeeps(s, p.ssrc, p.seqno, from, false, None);
      var (s1, i) := HandleRtpSsrc(s, p.ssrc, p.seqno, from, false);
      QuickCfg(s, s1, None);
      if i.Some? {
        AcceptRtpKeeps(s1, i.value, p, from, arrival);
        QuickTrans(s, s1, AcceptRtp(s1, i.value, p, from, arrival), None);
      }
  }

  lemma TxKeeps(s: State, payload: seq<u8>, ts: u32, csrcs: CsrcList)
    requires Inv(s, {})
    ensures var t := Tx(s, payload, ts, csrcs);
            && Inv(t, {}) && Tickless(s, t, None)
            && t.control.weSent && t.slots[t.self].hist.heard == t.timers.now
  {
    hide RtpPacket.Encode, TooBig;
    TxShape(s, payload, ts, csrcs);
    if OutputGood(s) {
      TxNumbers(s, payload, ts, csrcs);
      TxTallied(s, payload, ts, csrcs);
    }
    hide Tx;
    var t := Tx(s, payload, ts, csrcs);
    TxTickless(s, t);
    TxInvariant(s, t);
  }

  /** What a transmission changes, apart from statistics. */
  ghost predicate TxChanges(s: State, t: State) {
    var m := s.slots[s.self];
    && t.cfg == s.cfg && t.self == s.self && t.used == s.used && t.free == s.free && t.numMembers == s.numMembers
    && t.conflicts == s.conflicts
    && t.slots == s.slots[s.self := m.(sender := m.sender || !s.control.weSent, hist := m.hist.(heard := s.timers.now))]
    && t.timers == Rearm(s.timers, SenderTimer(s.self), SENDER_TIMEOUT)
    && t.control == (if s.control.weSent then s.control else CountIn(s.control.(weSent := true), false, true))
    && t.out == s.out.(sent := t.out.sent, tally := t.out.tally)
  }

  lemma TxShape(s: State, payload: seq<u8>, ts: u32, csrcs: CsrcList)
    ensures TxChanges(s, Tx(s, payload, ts, csrcs))
  {
    hide RtpPacket.Encode, TooBig, Rearm, SendPacket;
    var t := CountSent(BeginSending(s), payload);
    SendShape(t, RtpPacket.Packet(t.seqno, ts, t.slots[t.self].ssrc, csrcs, payload));
  }

  lemma SendShape(s: State, p: RtpPacket.Packet)
    requires |p.csrcs| <= 15
    ensures var t := SendPacket(s, p); t == s.(seqno := t.seqno, out := s.out.(sent := t.out.sent, tally := t.out.tally))
  {
    hide RtpPacket.Encode, TooBig;
  }

  /** What a transmission sends, if it sends anything. */
  lemma TxSends(s: State, payload: seq<u8>, ts: u32, csrcs: CsrcList)
    ensures var p := RtpPacket.Packet(s.seqno, ts, s.slots[s.self].ssrc, csrcs, payload);
            var t := Tx(s, payload, ts, csrcs);
            var tally := s.out.tally;
            if TooBig(p, s.cfg.align) then
              && t.out.sent == s.out.sent && t.seqno == s.seqno
              && t.out.tally == tally.(refused := tally.refused + 1, refusedOctets := tally.refusedOctets + |payload|)
            else
              && t.out.sent == s.out.sent + [RtpPacket.Encode(p, s.cfg.pt, s.cfg.align)] && t.seqno == Wrap16(s.seqno + 1)
              && t.out.tally == tally.(octets := tally.octets + |payload|)
  {
    hide RtpPacket.Encode, TooBig, Rearm;
    assert BeginSending(s).slots[s.self].ssrc == s.slots[s.self].ssrc;
  }

  /** Every transmission is counted, as sent or as refused. */
  lemma TxTallied(s: State, payload: seq<u8>, ts: u32, csrcs: CsrcList)
    requires Tallied(s)
    ensures Tallied(Tx(s, payload, ts, csrcs))
  {
    hide RtpPacket.Encode, TooBig, Rearm, Wrap32;
    OneMoreSent(|s.out.sent| - s.out.tally.before + s.out.tally.refused, 1);
    OneMoreSent(s.out.tally.octets + s.out.tally.refusedOctets, |payload|);
  }

  lemma OneMoreSent(n: nat, d: nat)
    ensures Wrap32(Wrap32(n) + d) == Wrap32(n + d)
  {
  }

  /** What is refused: more than 1024 octets, or so many that the padding might not fit. */
  lemma TooBigIs(p: RtpPacket.Packet, align: bool)
    ensures var size := 12 + 4 * |p.csrcs| + |p.payload|;
            TooBig(p, align) <==> 1024 < size || (align && size % 4 != 0 && 1020 < size)
  {
  }

  lemma TxNumbers(s: State, payload: seq<u8>, ts: u32, csrcs: CsrcList)
    requires SentOk(s.out.sent, s.seqno, s.cfg)
    ensures var t := Tx(s, payload, ts, csrcs); SentOk(t.out.sent, t.seqno, s.cfg)
  {
    TxSends(s, payload, ts, csrcs);
    hide RtpPacket.Encode, TooBig, Tx, SentOk;
    var p := RtpPacket.Packet(s.seqno, ts, s.slots[s.self].ssrc, csrcs, payload);
    NextSent(s.out.sent, s.seqno, s.cfg, p);
  }

  lemma TxTickless(s: State, t: State)
    requires Inv(s, {}) && TxChanges(s, t)
    requires OutputGood(s) ==> SentOk(t.out.sent, t.seqno, t.cfg) && Tallied(t)
    ensures Tickless(s, t, None)
  {
    hide Rearm, TimersOk, CountersOk, ConflictsOk, SentOk, Tallied, ReportReadable, DeliveryGood, ReportedOk;
    SameReported(s.slots[s.self], t.slots[s.self], s.self, s.out.reports);
    SlotTickless(s, t, s.self, None);
  }

  lemma TxInvariant(s: State, t: State)
    requires Inv(s, {}) && TxChanges(s, t)
    ensures Inv(t, {})
  {
    SelfSenderTimers(s, t);
    UpdateTable(s, t, s.self);
    hide Rearm, TimersOk, ConflictsOk;
    FewSlots(Speakers(s));
    assert Live(t) == Live(s) && Speakers(t) == Speakers(s);
  }

  /** Nothing arrives from our own RTCP address, and no BYE names our own SSRC. */
  ghost predicate RtcpForeign(s: State, from: Addr) {
    from != s.cfg.rtcpAddr
  }

  ghost predicate ByeForeign(s: State, p: RtcpPacket) {
    p.Bye? ==> s.slots[s.self].ssrc !in p.ssrcs
  }

  lemma HandleRtcpSsrcKeeps(s: State, ssrc: u32, from: Addr, size: u32)
    requires Inv(s, {}) && Fair(s.cfg.random32) && RtcpForeign(s, from)
    ensures var (t, i) := HandleRtcpSsrc(s, ssrc, from, size);
            && Inv(t, {}) && Quick(s, t, None)
            && (i.Some? ==> i.value in t.used && i.value != t.self && !t.slots[i.value].bye)
  {
    hide TimersOk, CountersOk, ConflictsOk, JoinByRtcp, RefreshByRtcp, Collide, Quick;
    var t := HandleRtcpSsrc(s, ssrc, from, size).0;
    match Lookup(s, ssrc) {
      case None =>
        JoinRtcpShape(s, ssrc, from, size);
        if s.free != [] {
          JoinByRtcpKeeps(s, ssrc, from, size);
          JoinByRtcpQuick(s, ssrc, from, size, None);
        } else {
          StatusOnly(s, t, None);
        }
      case Some(i) =>
        var m := s.slots[i];
        if m.bye {
          StatusOnly(s, t, None);
        } else if !m.isSelf && !m.rtcpHeard {
          RefreshedThenStatus(s, t, i, from);
        } else if m.rtcpAddr != from {
          if ssrc != s.slots[s.self].ssrc {
            StatusOnly(s, t, None);
          } else {
            CollideKeeps(s, from);
            CollideQuick(s, from, None);
            StatusOnly(Collide(s, s.self, from).0, t, None);
            QuickTrans(s, Collide(s, s.self, from).0, t, None);
          }
        } else {
          RefreshedThenStatus(s, t, i, from);
        }
    }
    HandleRtcpShape(s, ssrc, from, size);
  }

  lemma RefreshedThenStatus(s: State, t: State, i: Slot, from: Addr)
    requires Inv(s, {}) && i in s.used && i != s.self && !s.slots[i].bye
    requires var r := RefreshByRtcp(s, i, from);
             t == r.(rtcpStatus := t.rtcpStatus, control := r.control.(avgSize := t.control.avgSize))
    ensures Inv(t, {}) && Quick(s, t, None)
  {
    hide Inv, Quick, RefreshByRtcp;
    var r := RefreshByRtcp(s, i, from);
    RefreshByRtcpKeeps(s, i, from);
    RefreshByRtcpQuick(s, i, from, None);
    StatusOnly(r, t, None);
    QuickTrans(s, r, t, None);
  }

  lemma JoinRtcpShape(s: State, ssrc: u32, from: Addr, size: u32)
    ensures s.free == [] ==> JoinByRtcp(s, ssrc, from, size) == (s.(rtcpStatus := RtcpAllocFailed), None)
  {
  }

  lemma HandleRtcpShape(s: State, ssrc: u32, from: Addr, size: u32)
    requires TableOk(s) && RtcpForeign(s, from)
    ensures var (t, i) := HandleRtcpSsrc(s, ssrc, from, size);
            && (i.Some? ==> i.value in t.used && i.value != t.self && !t.slots[i.value].bye)
  {
    hide Arm, Rearm, DrawnAt;
  }

  lemma {:induction false} HandleSdesKeeps(s: State, chunks: seq<Chunk>, from: Addr, size: u32)
    requires Inv(s, {}) && Fair(s.cfg.random32) && RtcpForeign(s, from)
    ensures Inv(HandleSdes(s, chunks, from, size), {}) && Quick(s, HandleSdes(s, chunks, from, size), None)
    decreases |chunks|
  {
    hide Inv, HandleRtcpSsrc, Quick;
    if chunks != [] {
      HandleRtcpSsrcKeeps(s, chunks[0].ssrc, from, size);
      var (s1, i) := HandleRtcpSsrc(s, chunks[0].ssrc, from, size);
      var s2 := if i.None? then s1 else SetSlot(s1, i.value, SetNames(s1.slots[i.value], chunks[0].names));
      if i.Some? {
        SlotOnlyKeeps(s1, i.value, s2.slots[i.value], None);
      } else {
        QuickRefl(s1, None);
      }
      QuickTrans(s, s1, s2, None);
      QuickCfg(s, s2, None);
      HandleSdesKeeps(s2, chunks[1..], from, size);
      QuickTrans(s, s2, HandleSdes(s, chunks, from, size), None);
    } else {
      QuickRefl(s, None);
    }
  }

  lemma {:induction false} HandleByeKeeps(s: State, ssrcs: seq<u32>)
    requires Inv(s, {}) && s.slots[s.self].ssrc !in ssrcs
    ensures Inv(HandleBye(s, ssrcs), {}) && Quick(s, HandleBye(s, ssrcs), None)
    decreases |ssrcs|
  {
    hide TimersOk, CountersOk, ConflictsOk, ByeOne, Quick;
    if ssrcs != [] {
      var i := Lookup(s, ssrcs[0]);
      if i.Some? && !s.slots[i.value].bye {
        var s1 := ByeOne(s, i.value);
        ByeOneKeeps(s, i.value);
        ByeOneQuick(s, i.value, None);
        ByeOneShape(s, i.value);
        HandleByeKeeps(s1, ssrcs[1..]);
        QuickTrans(s, s1, HandleBye(s1, ssrcs[1..]), None);
      } else {
        HandleByeKeeps(s, ssrcs[1..]);
      }
    } else {
      QuickRefl(s, None);
    }
  }

  lemma ByeOneShape(s: State, i: Slot)
    requires i != s.self
    ensures var t := ByeOne(s, i); t.cfg == s.cfg && t.self == s.self && t.slots[s.self] == s.slots[s.self]
  {
  }

  lemma HandleSrKeeps(s: State, p: RtcpPacket, from: Addr, size: u32, clock: (u32, u32))
    requires Inv(s, {}) && Fair(s.cfg.random32) && RtcpForeign(s, from) && p.SenderReport?
    ensures Inv(HandleSr(s, p, from, size, clock), {}) && Quick(s, HandleSr(s, p, from, size, clock), None)
  {
    hide Inv, Quick, HandleRtcpSsrc;
    HandleRtcpSsrcKeeps(s, p.ssrc, from, size);
    var (s1, i) := HandleRtcpSsrc(s, p.ssrc, from, size);
    if i.Some? {
      var m := s1.slots[i.value].(lastSr := (p.ntpSec, p.ntpFrac), rtpTs := p.rtpTs, pktCount := p.psent,
                                  octetCount := p.osent, lastSrAt := clock);
      var s2 := SetSlot(s1, i.value, m);
      SlotOnlyKeeps(s1, i.value, m, None);
      var t := HandleSr(s, p, from, size, clock);
      StatusOnly(s2, t, None);
      QuickTrans(s, s1, s2, None);
      QuickTrans(s, s2, t, None);
    }
  }

  lemma HandleRtcpKeeps(s: State, p: RtcpPacket, from: Addr, size: u32, clock: (u32, u32))
    requires Inv(s, {}) && Fair(s.cfg.random32) && RtcpForeign(s, from) && ByeForeign(s, p)
    ensures Inv(HandleRtcp(s, p, from, size, clock), {}) && Quick(s, HandleRtcp(s, p, from, size, clock), None)
  {
    hide Inv, Quick, HandleRtcpSsrc, HandleSdes, HandleBye, HandleSr;
    match p
    case SenderReport(ssrc, _, _, _, _, _, _) => HandleSrKeeps(s, p, from, size, clock);
    case ReceiverReport(ssrc, _) =>
      HandleRtcpSsrcKeeps(s, ssrc, from, size);
      var (s1, i) := HandleRtcpSsrc(s, ssrc, from, size);
      StatusOnly(s1, HandleRr(s, p, from, size), None);
      QuickTrans(s, s1, HandleRr(s, p, from, size), None);
    case SourceDescription(chunks) => HandleSdesKeeps(s, chunks, from, size);
    case Bye(ssrcs) => HandleByeKeeps(s, ssrcs);
    case Other(_) => QuickRefl(s, None);
  }

  /** No BYE along a compound packet names our own SSRC, which may change on the way. */
  ghost predicate ByesForeign(s: State, packets: seq<RtcpPacket>, from: Addr, size: u32, clock: (u32, u32))
    decreases |packets|
  {
    packets == [] ||
    (ByeForeign(s, packets[0]) &&
     ByesForeign(HandleRtcp(s, packets[0], from, size, clock), packets[1..], from, size, clock))
  }

  lemma {:induction false} HandleAllKeeps(s: State, packets: seq<RtcpPacket>, from: Addr, size: u32, clock: (u32, u32))
    requires Inv(s, {}) && Fair(s.cfg.random32) && RtcpForeign(s, from) && ByesForeign(s, packets, from, size, clock)
    ensures var t := HandleAll(s, packets, from, size, clock); Inv(t, {}) && Quick(s, t, None)
    decreases |packets|
  {
    hide Inv, HandleRtcp, Quick;
    if packets != [] {
      var s1 := HandleRtcp(s, packets[0], from, size, clock);
      HandleRtcpKeeps(s, packets[0], from, size, clock);
      QuickCfg(s, s1, None);
      HandleAllKeeps(s1, packets[1..], from, size, clock);
      QuickTrans(s, s1, HandleAll(s1, packets[1..], from, size, clock), None);
    } else {
      QuickRefl(s, None);
    }
  }

  ghost predicate CompoundForeign(s: State, received: Codec.Received, from: Addr, size: u32, clock: (u32, u32)) {
    && RtcpForeign(s, from)
    && !received.Overrun?
    && (received.Compound? ==> ByesForeign(s.(rtcpStatus := RtcpNoError), received.packets, from, size, clock))
  }

  lemma RxRtcpKeeps(s: State, received: Codec.Received, from: Addr, size: u32, clock: (u32, u32))
    requires Inv(s, {}) && Fair(s.cfg.random32) && CompoundForeign(s, received, from, size, clock)
    ensures var t := RxRtcp(s, received, from, size, clock); Inv(t, {}) && Quick(s, t, None)
  {
    hide Inv, HandleAll, Quick;
    match received
    case Refused(_) => StatusOnly(s, RxRtcp(s, received, from, size, clock), None);
    case Compound(packets) =>
      var s1 := s.(rtcpStatus := RtcpNoError);
      StatusOnly(s, s1, None);
      HandleAllKeeps(s1, packets, from, size, clock);
      QuickTrans(s, s1, HandleAll(s1, packets, from, size, clock), None);
  }

  // ---------------------------------------------------------------- the tick

  lemma {:induction false} ReportBlocksSame(slots: Slots, todo: seq<Slot>, room: int, dlsr: Slot -> u32, attempt: nat)
    ensures forall i: Slot :: SameMember(slots[i], ReportBlocks(slots, todo, room, dlsr, attempt).0[i])
    decreases |todo|
  {
    if todo != [] {
      var m := slots[todo[0]];
      if m.isSelf || m.bye {
        ReportBlocksSame(slots, todo[1..], room, dlsr, attempt);
      } else {
        var slots1 := slots[todo[0] := Evolve(m, Summed(attempt))];
        if room >= 24 {
          ReportBlocksSame(slots1, todo[1..], room - 24, dlsr, attempt);
          forall i: Slot ensures SameMember(slots[i], ReportBlocks(slots, todo, room, dlsr, attempt).0[i]) {
            assert SameMember(slots1[i], ReportBlocks(slots1, todo[1..], room - 24, dlsr, attempt).0[i]);
          }
        }
      }
    }
  }

  lemma RtcpTimedOutKeeps(s: State, wall: Wall)
    requires Inv(s, {RtcpTimer})
    ensures Inv(RtcpTimedOut(s, wall), {})
  {
    RtcpTimedOutArms(s, wall);
    RtcpTimedOutShape(s, wall);
    hide RtcpTimedOut, Interval, ReportBlocks, TimersOk, ConflictsOk, Now, SameMember;
    var t := RtcpTimedOut(s, wall);
    ReportBlocksSame(s.slots, s.used, ReportRoom(s), wall.dlsr, |s.out.reports|);
    SameMemberRefl(s.slots);
    SlotsSame(s, t);
    RtcpTimerOnly(s, t, {RtcpTimer});
  }

  /** The expiry of the RTCP timer arms it again, touches no other timer and counts nobody. */
  lemma RtcpTimedOutArms(s: State, wall: Wall)
    ensures var t := RtcpTimedOut(s, wall);
            && (forall e :: e != RtcpTimer ==> DueAt(t.timers, e) == DueAt(s.timers, e))
            && DueAt(t.timers, RtcpTimer).Some?
            && t.free == s.free && t.numMembers == s.numMembers
            && t.control.members == s.control.members && t.control.senders == s.control.senders
            && t.control.pmembers == s.control.pmembers
  {
    hide Interval, DueAt, Delay, ReportBlocks, ReportMessage, ReportPackets, DeltaMillis, Now;
  }

  lemma SlotsSame(s: State, t: State)
    requires TableOk(s) && CountersOk(s)
    requires t.used == s.used && t.free == s.free && t.self == s.self && t.cfg == s.cfg && t.numMembers == s.numMembers
    requires t.control.members == s.control.members && t.control.senders == s.control.senders
    requires t.control.pmembers == s.control.pmembers && t.control.weSent == s.control.weSent
    requires forall i: Slot :: SameMember(s.slots[i], t.slots[i])
    ensures TableOk(t) && CountersOk(t)
  {
    assert Live(t) == Live(s);
    assert Speakers(t) == Speakers(s);
    assert forall i: Slot :: t.slots[i].ssrc == s.slots[i].ssrc by {
      forall i: Slot ensures t.slots[i].ssrc == s.slots[i].ssrc {
        assert SameMember(s.slots[i], t.slots[i]);
      }
    }
  }

  lemma ExpiredKeeps(s: State, e: TimerId, wall: Wall)
    requires Inv(s, {e}) && Expected(s, e) && (e.RtcpTimer? || DueTick(s, e) <= s.timers.now)
    ensures Inv(HandleExpiry(s, e, wall), {}) && HandleExpiry(s, e, wall).timers.now == s.timers.now
  {
    ExpiredKeepsDue(s, e, wall);
    hide Inv, RtcpTimedOut, MemberTimedOut, SenderTimedOut, Dealloc, ConflictTimedOut;
    match e
    case RtcpTimer => RtcpTimedOutKeeps(s, wall);
    case MemberTimer(i) => MemberTimedOutKeeps(s, i);
    case SenderTimer(i) => SenderTimedOutKeeps(s, i);
    case LeaveTimer(i) => LeaveTimedOutKeeps(s, i);
    case ConflictTimer(j) => ConflictTimedOutKeeps(s, j);
  }

  /** Taking the first due timer out leaves a state in which exactly that timer is missing. */
  lemma TakeFirstKeeps(s: State)
    requires Inv(s, {}) && Due(s.timers) != []
    ensures var e := Due(s.timers)[0];
            var t := s.(timers := TakeFirst(s.timers));
            Inv(t, {e}) && Expected(t, e) && (e.RtcpTimer? || DueTick(t, e) == t.timers.now) && DueAt(t.timers, e).None?
  {
    hide TakeFirst, DueAt, ConflictsOk, LiveIn, SpeakersIn;
    var e := Due(s.timers)[0];
    var t := s.(timers := TakeFirst(s.timers));
    assert TimerOk(s, {}, e);
    forall f ensures TimerOk(t, {e}, f) {
      assert TimerOk(s, {}, f);
    }
  }

  lemma {:induction false} DispatchAllKeeps(s: State, wall: Wall)
    requires Inv(s, {})
    ensures var t := DispatchAll(s, wall); Inv(t, {}) && Settled(t.timers) && Ages(s, t)
    decreases |Due(s.timers)|
  {
    hide TimersOk, ConflictsOk, HandleExpiry, Ages;
    if Due(s.timers) == [] {
      NothingDue(s.timers);
      AgesRefl(s);
    } else {
      var s1 := s.(timers := TakeFirst(s.timers));
      var e := Due(s.timers)[0];
      TakeFirstKeeps(s);
      TakeFirstAges(s, s1);
      ExpiredKeeps(s1, e, wall);
      HandleExpiryAges(s1, e, wall);
      ExpiredKeepsDue(s1, e, wall);
      var s2 := HandleExpiry(s1, e, wall);
      AgesTrans(s, s1, s2);
      DispatchAllKeeps(s2, wall);
      AgesTrans(s, s2, DispatchAll(s2, wall));
    }
  }

  lemma AgesRefl(s: State)
    ensures Ages(s, s)
  {
  }

  lemma TakeFirstAges(s: State, t: State)
    requires Due(s.timers) != [] && t == s.(timers := TakeFirst(s.timers))
    ensures Ages(s, t)
  {
    hide TakeFirst;
  }

  lemma AdvanceKeepsInv(s: State, t: State)
    requires Inv(s, {}) && Settled(s.timers) && t == s.(timers := AdvanceTimers(s.timers))
    ensures Inv(t, {})
  {
    hide DueAt, AdvanceTimers, LiveIn, SpeakersIn;
    forall e ensures TimerOk(t, {}, e) {
      assert TimerOk(s, {}, e);
    }
  }

  lemma AdvanceHistory(s: State, t: State)
    requires Settled(s.timers) && t == s.(timers := AdvanceTimers(s.timers))
    ensures OutputGood(s) ==> OutputGood(t)
    ensures SeqsOk(s.slots, None) ==> SeqsOk(t.slots, None)
    ensures RenumberOk(s) ==> RenumberOk(t)
    ensures SpacingOk(s) ==> SpacingOk(t)
  {
    hide AdvanceTimers, SeqsOk, Spaced;
  }

  lemma TickKeeps(s: State, wall: Wall)
    requires Inv(s, {}) && Settled(s.timers)
    ensures var t := SessionTick(s, wall);
            && Inv(t, {}) && Settled(t.timers) && t.timers.now == s.timers.now + 1
            && Ages(s.(timers := AdvanceTimers(s.timers)), t)
  {
    hide Inv, AdvanceTimers;
    var t := s.(timers := AdvanceTimers(s.timers));
    AdvanceKeepsInv(s, t);
    DispatchAllKeeps(t, wall);
  }

  // ---------------------------------------------------------------- runs

  /** Everything that holds between any two steps of a session. */
  ghost predicate Good(s: State) {
    && Inv(s, {}) && Settled(s.timers)
    && SeqsOk(s.slots, None) && AllReportedOk(s.slots, s.out.reports)
    && OutputGood(s) && RenumberOk(s) && SpacingOk(s)
  }

  /** What the environment must respect, and a random source that does not get stuck. */
  ghost predicate Admissible(s: State, event: Event) {
    && Fair(s.cfg.random32)
    && match event
       case RtpArrives(_, from, _) => RtpForeign(s, from)
       case RtcpArrives(msg, from, clock) => CompoundForeign(s, Codec.Receive(msg), from, |msg|, clock)
       case UserSends(_, _, _) => true
       case TimePasses(_) => true
  }

  lemma TicklessGood(s: State, t: State)
    requires Good(s) && Inv(t, {}) && Tickless(s, t, None)
    ensures Good(t)
  {
    hide Inv, Spaced, SeqsOk, AllReportedOk, RenumberOk, Renumbers, OutputGood, DueAt;
    NowSame(s.timers, t.timers);
  }

  lemma StepGood(s: State, event: Event)
    requires Good(s) && Admissible(s, event)
    ensures Good(Step(s, event))
    ensures !event.TimePasses? ==> Tickless(s, Step(s, event), None)
    ensures event.RtpArrives? || event.RtcpArrives? ==> Quick(s, Step(s, event), None)
    ensures event.UserSends? ==>
              Step(s, event).control.weSent && Step(s, event).slots[s.self].hist.heard == s.timers.now
    ensures event.TimePasses? ==> Ages(s.(timers := AdvanceTimers(s.timers)), Step(s, event))
    ensures Step(s, event).timers.now == s.timers.now + if event.TimePasses? then 1 else 0
    ensures Step(s, event).cfg == s.cfg
  {
    hide Inv, SeqsOk, AllReportedOk, OutputGood, RenumberOk, SpacingOk, Renumbers, RxRtp, RxRtcp, Tx, SessionTick, Codec.Receive;
    match event {
      case RtpArrives(pkt, from, arrival) =>
        RxRtpKeeps(s, pkt, from, arrival);
        TicklessGood(s, Step(s, event));
      case RtcpArrives(msg, from, clock) =>
        RxRtcpKeeps(s, Codec.Receive(msg), from, |msg|, clock);
        TicklessGood(s, Step(s, event));
      case UserSends(payload, ts, csrcs) =>
        TxKeeps(s, payload, ts, csrcs);
        TicklessGood(s, Step(s, event));
      case TimePasses(wall) =>
        TickKeeps(s, wall);
        AdvanceHistory(s, s.(timers := AdvanceTimers(s.timers)));
    }
  }

  /** A run in which the environment behaves. */
  ghost predicate Run(s: State, events: seq<Event>)
    requires Good(s)
    decreases |events|
  {
    events == [] || (Admissible(s, events[0]) && (StepGood(s, events[0]); Run(Step(s, events[0]), events[1..])))
  }

  ghost function RunEnd(s: State, events: seq<Event>): (t: State)
    requires Good(s) && Run(s, events)
    ensures Good(t)
    decreases |events|
  {
    if events == [] then s
    else
      StepGood(s, events[0]);
      RunEnd(Step(s, events[0]), events[1..])
  }
}
