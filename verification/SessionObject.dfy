/**
 The session as the program keeps it: one object that packets, transmissions and ticks update
 in place.  Every method is tied to the function of the pure state machine it implements, so
 what is proved there for every run holds of the object.
 */
module SessionObject {
  import opened Words
  import opened SoftTimer
  import opened SessionTimers
  import opened ConflictTable
  import opened RtcpTypes
  import opened RtpSource
  import opened SourceLife
  import opened Session
  import opened SessionInvariant
  import opened SessionHistory
  import opened SessionResults
  import opened SessionSteps
  import opened Tables
  import RtpPacket
  import RtcpEncoder
  import Codec = RtcpCodec

  /** The size the packet buffer is declared with. */
  const RTP_PKT_LEN: nat := 256

  class RtpSession {
    const cfg: Config
    const wheel: Wheel<TimerId>
    const table: MemberTable
    const conflicts: ConflictCache
    const rtpPkt: RtpPacket.PacketBuffer
    var self: Slot

    var tp: real
    var tn: real
    var pmembers: u32
    var members: u32
    var senders: u32
    var avgSize: real
    var weSent: bool
    var initial: bool

    var randomAt: nat
    var drandAt: nat
    var seqno: u16
    var txPkts: u32
    var txOctets: u32
    var invalidRtp: u32
    var invalidRtcp: u32
    var rtpStatus: RtpStatus
    var rtcpStatus: RtcpStatus
    ghost var out: Output

    /** The unbounded tick and the number of attempts to report, for the history fields of members only. */
    var now: nat
    var attempts: nat

    ghost function Repr(): set<object> {
      {this, table, table.slots, conflicts, conflicts.addrs, wheel, wheel.buckets, rtpPkt.buf}
    }

    ghost predicate Valid()
      reads Repr()
    {
      table.Valid() && conflicts.tmr == wheel && conflicts.Valid() && now == wheel.flat.now
      && rtpPkt.buf.Length == RTP_PKT_LEN && attempts == |out.reports|
    }

    ghost function ControlNow(): Control
      reads this
    {
      Control(tp, tn, pmembers, members, senders, cfg.bandwidth, avgSize, weSent, initial)
    }

    /** The state of the pure machine that this object represents. */
    ghost function Abs(): State
      reads Repr()
      requires Valid()
    {
      State(cfg, wheel.flat, table.Members(), table.used, table.free, table.numMembers, self, ControlNow(),
            conflicts.Abs(), randomAt, drandAt, seqno, txPkts, txOctets, invalidRtp, invalidRtcp, rtpStatus, rtcpStatus, out)
    }

    // ---------------------------------------------------------------- life

    constructor (cfg: Config)
      ensures Valid() && fresh(Repr()) && Abs() == Empty(cfg)
    {
      this.cfg := cfg;
      var w := new Wheel<TimerId>(TICK_RATE);
      var c := new ConflictCache(w);
      var t := new MemberTable();
      wheel, conflicts, table := w, c, t;
      rtpPkt := new RtpPacket.PacketBuffer(RTP_PKT_LEN);
      self, now, attempts := 0, 0, 0;
      tp, tn, pmembers, members, senders := 0.0, 0.0, 1, 1, 0;
      avgSize, weSent, initial := 256.0, false, true;
      randomAt, drandAt := 2, 0;
      seqno := Wrap16(cfg.random32(0));
      txPkts, txOctets, invalidRtp, invalidRtcp := 0, 0, 0, 0;
      rtpStatus, rtcpStatus := RtpNoError, RtcpNoError;
      out := Output([], [], [], [], [], NO_TALLY);
    }

    /** The first draw numbers the packets, the second names us. */
    method Start()
      requires Valid() && Abs() == Empty(cfg)
      modifies Repr()
      ensures Valid() && Abs() == Init(cfg)
    {
      hide Interval, Schedule, Init, WithSelf;
      InitShape(cfg);
      InitSelf();
      var interval := IntervalCalc();
      IntervalSchedule(0.0, 0.0 + interval);
    }

    method InitSelf()
      requires Valid() && Abs() == Empty(cfg)
      modifies this`self, table, table.slots
      ensures Valid() && Abs() == WithSelf(old(Abs()))
    {
      hide Alloc;
      var r := AllocMember(cfg.random32(1));
      self := r.value;
      SetMember(self, table.slots[self].(isSelf := true, cname := cfg.cname, rtpAddr := cfg.rtpAddr, rtcpAddr := cfg.rtcpAddr));
    }

    // ---------------------------------------------------------------- timers

    method StartTimer(e: TimerId, millis: int)
      requires Valid()
      modifies wheel, wheel.buckets
      ensures Valid() && Abs() == old(Abs()).(timers := Arm(old(Abs()).timers, e, millis))
    {
      wheel.Start(e, millis);
    }

    method StopTimer(e: TimerId)
      requires Valid()
      modifies wheel, wheel.buckets
      ensures Valid() && Abs() == old(Abs()).(timers := Disarm(old(Abs()).timers, e))
    {
      wheel.Stop(e);
    }

    method RestartTimer(e: TimerId, millis: int)
      requires Valid()
      modifies wheel, wheel.buckets
      ensures Valid() && Abs() == old(Abs()).(timers := Rearm(old(Abs()).timers, e, millis))
    {
      hide Arm, Disarm;
      StopTimer(e);
      StartTimer(e, millis);
    }

    method SetMember(i: Slot, m: Member)
      requires Valid()
      modifies table.slots
      ensures Valid() && Abs() == SetSlot(old(Abs()), i, m)
    {
      table.Set(i, m);
    }

    // ---------------------------------------------------------------- members

    function MemberAt(i: Slot): (m: Member)
      requires Valid()
      reads Repr()
      ensures m == Abs().slots[i]
    {
      table.slots[i]
    }

    function OwnSsrc(): (ssrc: u32)
      requires Valid()
      reads Repr()
      ensures ssrc == Abs().slots[Abs().self].ssrc
    {
      table.slots[self].ssrc
    }

    method FindMember(ssrc: u32) returns (r: Option<Slot>)
      requires Valid()
      ensures r == Lookup(Abs(), ssrc)
    {
      r := table.Lookup(ssrc);
    }

    method SetRtpStatus(status: RtpStatus)
      requires Valid()
      modifies this`rtpStatus
      ensures Valid() && Abs() == old(Abs()).(rtpStatus := status)
    {
      rtpStatus := status;
    }

    method SetRtcpStatus(status: RtcpStatus)
      requires Valid()
      modifies this`rtcpStatus
      ensures Valid() && Abs() == old(Abs()).(rtcpStatus := status)
    {
      rtcpStatus := status;
    }

    /** Notes what has been handed out; no attempt to report. */
    ghost method Note(o: Output)
      requires Valid() && o.reports == Abs().out.reports
      modifies this`out
      ensures Valid() && Abs() == old(Abs()).(out := o)
    {
      out := o;
    }

    method NoteAttempt(ghost report: ReportSent)
      requires Valid()
      modifies this`out, this`attempts
      ensures Valid() && Abs() == old(Abs()).(out := old(Abs()).out.(reports := old(Abs()).out.reports + [report]))
    {
      attempts := attempts + 1;
      out := out.(reports := out.reports + [report]);
    }

    method AllocMember(ssrc: u32) returns (r: Option<Slot>)
      requires Valid()
      modifies table, table.slots
      ensures Valid() && r == (if old(Abs()).free == [] then None else Some(old(Abs()).free[0]))
      ensures Abs() == if old(Abs()).free == [] then old(Abs()) else Alloc(old(Abs()), ssrc)
    {
      r := table.Alloc(ssrc);
    }

    method DeallocMember(i: Slot)
      requires Valid() && i in table.used
      modifies table, wheel, wheel.buckets
      ensures Valid() && Abs() == Dealloc(old(Abs()), i)
    {
      hide Disarm, Remove;
      StopTimer(MemberTimer(i));
      StopTimer(SenderTimer(i));
      StopTimer(LeaveTimer(i));
      table.Free(i);
    }

    // ---------------------------------------------------------------- RTCP interval

    /** The current time is a 32-bit number of milliseconds. */
    function CurrentTime(): real
      reads wheel
    {
      ((wheel.tick * 100) % 0x1_0000_0000) as real / 1000.0
    }

    lemma TimeIsNow()
      requires Valid()
      ensures CurrentTime() == Now(Abs().timers)
    {
      TickWord(wheel.flat.now);
    }

    method IntervalCalc() returns (t: real)
      requires Valid()
      modifies this`drandAt
      ensures Valid() && Abs() == old(Abs()).(drandAt := old(Abs()).drandAt + 1)
      ensures t == Interval(old(Abs()).control, old(Abs()).cfg.drand(old(Abs()).drandAt))
    {
      hide Interval;
      t := ComputeInterval(Control(tp, tn, pmembers, members, senders, cfg.bandwidth, avgSize, weSent, initial),
                           cfg.drand(drandAt));
      drandAt := drandAt + 1;
    }

    method IntervalSchedule(tc: real, next: real)
      requires Valid()
      modifies this`tn, wheel, wheel.buckets
      ensures Valid() && Abs() == Schedule(old(Abs()), tc, next)
    {
      hide Arm, DeltaMillis;
      tn := next;
      StartTimer(RtcpTimer, DeltaMillis(tc, next));
    }

    method IntervalReschedule(tc: real, next: real)
      requires Valid()
      modifies this`tn, wheel, wheel.buckets
      ensures Valid() && Abs() == Reschedule(old(Abs()), tc, next)
    {
      hide Rearm, DeltaMillis;
      tn := next;
      RestartTimer(RtcpTimer, DeltaMillis(tc, next));
    }

    method CountRtp(newMember: bool, newSender: bool)
      requires Valid()
      modifies this`members, this`senders
      ensures Valid() && Abs() == old(Abs()).(control := CountIn(old(Abs()).control, newMember, newSender))
    {
      if newMember {
        members := Wrap32(members + 1);
      }
      if newSender {
        senders := Wrap32(senders + 1);
      }
    }

    method CountRtcp(newMember: bool, size: u32)
      requires Valid()
      modifies this`members, this`avgSize
      ensures Valid() && Abs() == old(Abs()).(control := Averaged(CountIn(old(Abs()).control, newMember, false), size as real))
    {
      if newMember {
        members := Wrap32(members + 1);
      }
      avgSize := (1.0 / 16.0) * size as real + (15.0 / 16.0) * avgSize;
    }

    /** A BYE or a timeout takes members and senders away; reverse reconsideration follows. */
    method CountLeaving(aMember: bool, aSender: bool)
      requires Valid()
      modifies this, wheel, wheel.buckets
      ensures Valid() && Abs() == Leave(old(Abs()), aMember, aSender)
    {
      hide Valid, Abs, Reconsider, CountOut;
      TakeAway(aMember, aSender);
      ReverseReconsider();
    }

    method TakeAway(aMember: bool, aSender: bool)
      requires Valid()
      modifies this`members, this`senders
      ensures Valid() && Abs() == old(Abs()).(control := CountOut(old(Abs()).control, aMember, aSender))
    {
      if aSender {
        senders := Wrap32(senders - 1);
      }
      if aMember {
        members := Wrap32(members - 1);
      }
    }

    method ReverseReconsider()
      requires Valid()
      modifies this`tp, this`tn, this`pmembers, wheel, wheel.buckets
      ensures Valid() && Abs() == Reconsider(old(Abs()))
    {
      hide Reschedule, Now;
      TimeIsNow();
      var tc := CurrentTime();
      if members < pmembers {
        var next, last := ScaleTimes(members, pmembers, tc, tp, tn, ControlNow());
        hide Ratio, ScaledNext, ScaledLast;
        tp := last;
        IntervalReschedule(tc, next);
        pmembers := members;
      }
    }

    // ---------------------------------------------------------------- RTP reception

    method JoinByRtp(ssrc: u32, seqno: u16, from: Addr, csrc: bool) returns (r: Option<Slot>)
      requires Valid()
      modifies Repr()
      ensures Valid() && (Abs(), r) == Session.JoinByRtp(old(Abs()), ssrc, seqno, from, csrc)
    {
      hide Valid, Abs, Arm, FirstHeard, Fresh, CountIn;
      var slot := AllocMember(ssrc);
      if slot.None? {
        SetRtpStatus(RtpAllocFailed);
        return None;
      }
      var i := slot.value;
      EnterByRtp(i, seqno, from, csrc);
      CountRtp(true, true);
      StartTimer(SenderTimer(i), SENDER_TIMEOUT);
      StartTimer(MemberTimer(i), MEMBER_TIMEOUT);
      SetRtpStatus(RtpFirstHeard);
      return if csrc then Some(i) else None;
    }

    method EnterByRtp(i: Slot, seqno: u16, from: Addr, csrc: bool)
      requires Valid()
      modifies table.slots
      ensures Valid()
      ensures Abs() == SetSlot(old(Abs()), i, FirstHeard(old(Abs()).slots[i], seqno, from, old(Abs()).timers.now)
                                              .(validated := csrc, csrc := csrc))
    {
      hide FirstHeard;
      SetMember(i, FirstHeard(table.slots[i], seqno, from, now).(validated := csrc, csrc := csrc));
    }

    method FirstRtp(i: Slot, seqno: u16, from: Addr)
      requires Valid()
      modifies Repr()
      ensures Valid() && Abs() == Session.FirstRtp(old(Abs()), i, seqno, from)
    {
      hide Arm, Rearm, FirstHeard;
      SetMember(i, FirstHeard(table.slots[i], seqno, from, now));
      CountRtp(false, true);
      StartTimer(SenderTimer(i), SENDER_TIMEOUT);
      RestartTimer(MemberTimer(i), MEMBER_TIMEOUT);
      rtpStatus := RtpFirstHeard;
    }

    method RefreshByRtp(i: Slot)
      requires Valid()
      modifies Repr()
      ensures Valid() && Abs() == Session.RefreshByRtp(old(Abs()), i)
    {
      hide Rearm;
      var m := table.slots[i];
      SetMember(i, m.(rtpHeard := true, hist := m.hist.(refreshed := now, heard := now)));
      RestartTimer(SenderTimer(i), SENDER_TIMEOUT);
      RestartTimer(MemberTimer(i), MEMBER_TIMEOUT);
    }

    method Renumber(i: Slot)
      requires Valid() && Fair(cfg.random32)
      modifies this`randomAt, table.slots
      ensures Valid() && Abs() == Session.Renumber(old(Abs()), i)
    {
      SsrcsFew(table.Members(), table.used);
      assert Escapes(cfg.random32, randomAt, SsrcsIn(table.Members(), table.used));
      hide Fair, Escapes, SsrcsIn;
      randomAt := table.ChangeRandomSsrc(i, cfg.random32, randomAt);
    }

    /** Our own SSRC arrives from a foreign address. */
    method Collide(i: Slot, from: Addr) returns (isNew: bool)
      requires Valid() && Fair(cfg.random32)
      modifies Repr()
      ensures Valid() && (Abs(), isNew) == Session.Collide(old(Abs()), i, from)
    {
      hide Fair, Session.NewCollision;
      CacheKeepsTime(conflicts.Abs(), wheel.flat, from);
      hide LookupAddr, AddAddr;
      var found := conflicts.Lookup(from);
      if !found {
        NewCollision(i, from);
      }
      return !found;
    }

    /** A new collision: note the address, take a new SSRC and start our statistics anew. */
    method NewCollision(i: Slot, from: Addr)
      requires Valid() && Fair(cfg.random32)
      modifies Repr()
      ensures Valid() && Abs() == Session.NewCollision(old(Abs()), i, from)
    {
      hide Valid, Abs, Fair, Session.Renumber, AddAddr;
      CacheKeepsTime(Abs().conflicts, Abs().timers, from);
      ghost var s := Abs();
      var recorded := AddConflict(from);
      Renumber(i);
      ResetTxStats(Renumbering(from, s.timers.now, LastTouch(s, from), recorded));
    }

    method AddConflict(from: Addr) returns (recorded: bool)
      requires Valid()
      modifies conflicts, conflicts.addrs, wheel, wheel.buckets
      ensures var (c, t, ok) := AddAddr(old(Abs()).conflicts, old(Abs()).timers, from);
              Valid() && recorded == ok && Abs() == old(Abs()).(conflicts := c, timers := t)
    {
      CacheKeepsTime(conflicts.Abs(), wheel.flat, from);
      hide AddAddr;
      recorded := conflicts.Add(from);
    }

    method ResetTxStats(ghost cause: Renumbering)
      requires Valid()
      modifies this`txPkts, this`txOctets, this`out
      ensures Valid()
      ensures Abs() == old(Abs()).(txPkts := 0, txOctets := 0,
                                   out := old(Abs()).out.(renumbered := old(Abs()).out.renumbered + [cause],
                                                          tally := NO_TALLY.(before := |old(Abs()).out.sent|)))
    {
      hide Valid, Abs;
      ghost var o := Abs().out;
      ZeroTxStats();
      Note(o.(renumbered := o.renumbered + [cause], tally := NO_TALLY.(before := |o.sent|)));
    }

    method ZeroTxStats()
      requires Valid()
      modifies this`txPkts, this`txOctets
      ensures Valid() && Abs() == old(Abs()).(txPkts := 0, txOctets := 0)
    {
      txPkts, txOctets := 0, 0;
    }

    method HandleRtpSsrc(ssrc: u32, seqno: u16, from: Addr, csrc: bool) returns (r: Option<Slot>)
      requires Valid() && Fair(cfg.random32)
      modifies Repr()
      ensures Valid() && (Abs(), r) == Session.HandleRtpSsrc(old(Abs()), ssrc, seqno, from, csrc)
    {
      hide Valid, Abs, Fair, Session.JoinByRtp, Session.FirstRtp, Session.RefreshByRtp, Session.Collide;
      var found := FindMember(ssrc);
      if found.None? {
        r := JoinByRtp(ssrc, seqno, from, csrc);
        return;
      }
      var i := found.value;
      var m := MemberAt(i);
      if m.bye {
        SetRtpStatus(RtpByeInProgress);
        return None;
      }
      if !m.isSelf && !m.rtpHeard {
        FirstRtp(i, seqno, from);
        return None;
      }
      if m.rtpAddr != from {
        if !m.isSelf {
          SetRtpStatus(RtpThirdParty);
          return None;
        }
        var isNew := Collide(i, from);
        SetRtpStatus(if isNew then RtpSsrcConflict else RtpInConflictList);
        return None;
      }
      RefreshByRtp(i);
      return Some(i);
    }

    method ComputeJitterOf(i: Slot, ts: u32, arrival: u32)
      requires Valid()
      modifies table.slots
      ensures Valid() && Abs() == Jitter(old(Abs()), i, ts, arrival)
    {
      hide ComputeJitter;
      SetMember(i, Evolve(table.slots[i], Arrived(ts, arrival)));
    }

    method HandleCsrcs(csrcs: seq<u32>, seqno: u16, ts: u32, from: Addr, arrival: u32)
      requires Valid() && Fair(cfg.random32)
      modifies Repr()
      ensures Valid() && Abs() == Session.HandleCsrcs(old(Abs()), csrcs, seqno, ts, from, arrival)
    {
      hide Fair, Session.HandleRtpSsrc, Jitter, Valid;
      var k := 0;
      while k < |csrcs|
        invariant 0 <= k <= |csrcs| && Valid()
        invariant Session.HandleCsrcs(Abs(), csrcs[k..], seqno, ts, from, arrival)
               == Session.HandleCsrcs(old(Abs()), csrcs, seqno, ts, from, arrival)
      {
        assert csrcs[k..][0] == csrcs[k] && csrcs[k..][1..] == csrcs[k + 1..];
        var i := HandleRtpSsrc(csrcs[k], seqno, from, true);
        if i.Some? {
          ComputeJitterOf(i.value, ts, arrival);
        }
        k := k + 1;
      }
      assert csrcs[k..] == [];
    }

    /** An accepted header of member `i`: check the sequence number, follow the contributing
        sources and hand the packet to the user. */
    method AcceptRtp(i: Slot, p: RtpPacket.Packet, from: Addr, arrival: u32)
      requires Valid() && Fair(cfg.random32)
      modifies Repr()
      ensures Valid() && Abs() == Session.AcceptRtp(old(Abs()), i, p, from, arrival)
    {
      hide Fair, Session.CheckSeq, Jitter, Session.HandleCsrcs, Session.Deliver;
      ghost var source := table.slots[i];
      var ok := CheckSeq(i, p.seqno);
      if !ok {
        rtpStatus := RtpSeqError;
        return;
      }
      ComputeJitterOf(i, p.ts, arrival);
      SetMember(i, table.slots[i].(validated := true));
      HandleCsrcs(p.csrcs, p.seqno, p.ts, from, arrival);
      Deliver(i, p, from, source);
    }

    method CheckSeq(i: Slot, seqno: u16) returns (ok: bool)
      requires Valid()
      modifies table.slots
      ensures Valid() && (Abs(), ok) == Session.CheckSeq(old(Abs()), i, seqno)
    {
      hide UpdateSeq, Undergo;
      var m := Evolve(table.slots[i], Checked(seqno));
      ok := UpdateSeq(table.slots[i].src, seqno).1;
      SetMember(i, m.(hist := m.hist.(checked := Some(seqno))));
    }

    method Deliver(i: Slot, p: RtpPacket.Packet, from: Addr, ghost source: Member)
      requires Valid()
      modifies this`rtpStatus, this`out, table.slots
      ensures Valid() && Abs() == Session.Deliver(old(Abs()), i, p, from, source)
    {
      hide Valid, Abs;
      SetRtpStatus(RtpNoError);
      var m := MemberAt(i);
      SetMember(i, m.(hist := m.hist.(delivered := true)));
      ghost var o := Abs().out;
      Note(o.(delivered := o.delivered + [Delivery(p, from, source)]));
    }

    method RxRtp(pkt: seq<u8>, from: Addr, arrival: u32)
      requires Valid() && Fair(cfg.random32)
      modifies Repr()
      ensures Valid() && Abs() == Session.RxRtp(old(Abs()), pkt, from, arrival)
    {
      hide Fair, RtpPacket.Check, Session.HandleRtpSsrc, Session.AcceptRtp;
      match RtpPacket.Check(pkt, cfg.pt)
      case Rejected(error) =>
        rtpStatus := RtpHeader(error);
        invalidRtp := Wrap32(invalidRtp + 1);
      case Accepted(p) =>
        var i := HandleRtpSsrc(p.ssrc, p.seqno, from, false);
        if i.Some? {
          AcceptRtp(i.value, p, from, arrival);
        }
    }

    // ---------------------------------------------------------------- RTP transmission

    /** The packet to be sent fits the packet buffer, or is refused as too big for any. */
    method Tx(payload: seq<u8>, ts: u32, csrcs: CsrcList)
      requires Valid() && FitsBuffer(Abs(), payload, ts, csrcs)
      modifies Repr()
      ensures Valid() && Abs() == Session.Tx(old(Abs()), payload, ts, csrcs)
    {
      SentFromHere(Abs(), payload);
      hide Session.BeginSending, Session.CountSent, Session.SendPacket, RtpPacket.Encode, RtpPacket.PacketSize;
      BeginSending();
      CountSent(payload);
      SendPacket(RtpPacket.Packet(seqno, ts, table.slots[self].ssrc, csrcs, payload));
    }

    method CountSent(payload: seq<u8>)
      requires Valid()
      modifies Repr()
      ensures Valid() && Abs() == Session.CountSent(old(Abs()), payload)
    {
      hide Session.HeardSelf;
      OwnTimerOnly(Abs());
      HeardSelf();
      txPkts := Wrap32(txPkts + 1);
      txOctets := Wrap32(txOctets + |payload|);
    }

    method HeardSelf()
      requires Valid()
      modifies table.slots, wheel, wheel.buckets
      ensures Valid() && Abs() == Session.HeardSelf(old(Abs()))
    {
      hide Rearm;
      var m := table.slots[self];
      SetMember(self, m.(hist := m.hist.(heard := now)));
      RestartTimer(SenderTimer(self), SENDER_TIMEOUT);
    }

    method SendPacket(p: RtpPacket.Packet)
      requires Valid() && |p.csrcs| <= 15
      requires RtpPacket.MAX_RTP_PKT_SIZE < RtpPacket.PacketSize(p) || |RtpPacket.Encode(p, cfg.pt, cfg.align)| <= RTP_PKT_LEN
      modifies this`seqno, this`out, rtpPkt.buf
      ensures Valid() && Abs() == Session.SendPacket(old(Abs()), p)
    {
      hide RtpPacket.Encode;
      var size := rtpPkt.Build(p, cfg.pt, cfg.align);
      if size.Some? {
        NoteSent(RtpPacket.Encode(p, cfg.pt, cfg.align), |p.payload|);
      } else {
        Note(out.(tally := Refused(out.tally, p)));
      }
    }

    method NoteSent(ghost packet: seq<u8>, ghost octets: nat)
      requires Valid()
      modifies this`seqno, this`out
      ensures Valid()
      ensures var o := old(Abs()).out;
              Abs() == old(Abs()).(seqno := Wrap16(old(Abs()).seqno + 1),
                                   out := o.(sent := o.sent + [packet], tally := o.tally.(octets := o.tally.octets + octets)))
    {
      seqno := Wrap16(seqno + 1);
      out := out.(sent := out.sent + [packet], tally := out.tally.(octets := out.tally.octets + octets));
    }

    method BeginSending()
      requires Valid()
      modifies this, table.slots
      ensures Valid() && Abs() == Session.BeginSending(old(Abs()))
    {
      if !weSent {
        weSent := true;
        SetMember(self, table.slots[self].(sender := true));
        CountRtp(false, true);
      }
    }

    // ---------------------------------------------------------------- RTCP reception

    method JoinByRtcp(ssrc: u32, from: Addr, size: u32) returns (r: Option<Slot>)
      requires Valid()
      modifies Repr()
      ensures Valid() && (Abs(), r) == Session.JoinByRtcp(old(Abs()), ssrc, from, size)
    {
      hide Valid, Abs, Arm, Fresh, Averaged, CountIn;
      var slot := AllocMember(ssrc);
      if slot.None? {
        SetRtcpStatus(RtcpAllocFailed);
        return None;
      }
      var i := slot.value;
      NoteRtcp(i, from);
      CountRtcp(true, size);
      StartTimer(MemberTimer(i), MEMBER_TIMEOUT);
      SetRtcpStatus(RtcpFirstHeard);
      return Some(i);
    }

    method NoteRtcp(i: Slot, from: Addr)
      requires Valid()
      modifies table.slots
      ensures Valid() && Abs() == SetSlot(old(Abs()), i, HeardOnRtcp(old(Abs()).slots[i], from, old(Abs()).timers.now))
    {
      SetMember(i, HeardOnRtcp(table.slots[i], from, now));
    }

    method RefreshByRtcp(i: Slot, from: Addr)
      requires Valid()
      modifies Repr()
      ensures Valid() && Abs() == Session.RefreshByRtcp(old(Abs()), i, from)
    {
      hide Valid, Abs, Rearm;
      NoteRtcp(i, from);
      RestartTimer(MemberTimer(i), MEMBER_TIMEOUT);
    }

    method HandleRtcpSsrc(ssrc: u32, from: Addr, size: u32) returns (r: Option<Slot>)
      requires Valid() && Fair(cfg.random32)
      modifies Repr()
      ensures Valid() && (Abs(), r) == Session.HandleRtcpSsrc(old(Abs()), ssrc, from, size)
    {
      hide Valid, Abs, Fair, Session.JoinByRtcp, Session.RefreshByRtcp, Session.Collide, Averaged;
      var found := FindMember(ssrc);
      if found.None? {
        r := JoinByRtcp(ssrc, from, size);
        return;
      }
      var i := found.value;
      var m := MemberAt(i);
      if m.bye {
        SetRtcpStatus(RtcpByeInProgress);
        return None;
      }
      if !m.isSelf && !m.rtcpHeard {
        RefreshByRtcp(i, from);
        SetRtcpStatus(RtcpFirstHeard);
        return Some(i);
      }
      if m.rtcpAddr != from {
        if ssrc != OwnSsrc() {
          SetRtcpStatus(RtcpThirdParty);
          return None;
        }
        var isNew := Collide(i, from);
        SetRtcpStatus(if isNew then RtcpSsrcConflict else RtcpInConflictList);
        return None;
      }
      RefreshByRtcp(i, from);
      CountRtcp(false, size);
      SetRtcpStatus(RtcpNoError);
      return Some(i);
    }

    /** Hands report blocks to the user one by one. */
    method TellBlocks(ssrc: u32, blocks: seq<Block>)
      requires Valid()
      modifies this`out
      ensures Valid() && Abs() == Tell(old(Abs()), BlocksTold(ssrc, blocks))
    {
      for k := 0 to |blocks|
        invariant Valid() && Abs() == Tell(old(Abs()), BlocksTold(ssrc, blocks)[..k])
      {
        out := out.(told := out.told + [BlockTold(ssrc, blocks[k])]);
      }
      assert BlocksTold(ssrc, blocks)[..|blocks|] == BlocksTold(ssrc, blocks);
    }

    method HandleSr(p: RtcpPacket, from: Addr, size: u32, clock: (u32, u32))
      requires Valid() && Fair(cfg.random32) && p.SenderReport?
      modifies Repr()
      ensures Valid() && Abs() == Session.HandleSr(old(Abs()), p, from, size, clock)
    {
      hide Fair, Session.HandleRtcpSsrc, BlocksTold;
      var i := HandleRtcpSsrc(p.ssrc, from, size);
      if i.None? {
        return;
      }
      SetMember(i.value, table.slots[i.value].(lastSr := (p.ntpSec, p.ntpFrac), rtpTs := p.rtpTs, pktCount := p.psent,
                                               octetCount := p.osent, lastSrAt := clock));
      TellBlocks(p.ssrc, p.blocks);
      out := out.(told := out.told + [SenderTold(p)]);
    }

    method HandleRr(p: RtcpPacket, from: Addr, size: u32)
      requires Valid() && Fair(cfg.random32) && p.ReceiverReport?
      modifies Repr()
      ensures Valid() && Abs() == Session.HandleRr(old(Abs()), p, from, size)
    {
      hide Fair, Session.HandleRtcpSsrc, BlocksTold;
      var i := HandleRtcpSsrc(p.ssrc, from, size);
      if i.Some? {
        TellBlocks(p.ssrc, p.blocks);
      }
    }

    method HandleSdes(chunks: seq<Chunk>, from: Addr, size: u32)
      requires Valid() && Fair(cfg.random32)
      modifies Repr()
      ensures Valid() && Abs() == Session.HandleSdes(old(Abs()), chunks, from, size)
    {
      hide Fair, Session.HandleRtcpSsrc, Valid, SetNames;
      var k := 0;
      while k < |chunks|
        invariant 0 <= k <= |chunks| && Valid()
        invariant Session.HandleSdes(Abs(), chunks[k..], from, size) == Session.HandleSdes(old(Abs()), chunks, from, size)
      {
        assert chunks[k..][0] == chunks[k] && chunks[k..][1..] == chunks[k + 1..];
        var i := HandleRtcpSsrc(chunks[k].ssrc, from, size);
        if i.Some? {
          SetCnames(i.value, chunks[k].names);
        }
        k := k + 1;
      }
      assert chunks[k..] == [];
    }

    /** Of several names in a chunk the last one stays. */
    method SetCnames(i: Slot, names: seq<Text>)
      requires Valid()
      modifies table.slots
      ensures Valid() && Abs() == SetSlot(old(Abs()), i, SetNames(old(Abs()).slots[i], names))
    {
      for k := 0 to |names|
        invariant Valid() && Abs() == SetSlot(old(Abs()), i, SetNames(old(Abs()).slots[i], names[..k]))
      {
        SetMember(i, table.slots[i].(cname := names[k], validated := true));
      }
      assert names[..|names|] == names;
    }

    method ByeOne(i: Slot)
      requires Valid()
      modifies Repr()
      ensures Valid() && Abs() == Session.ByeOne(old(Abs()), i)
    {
      hide Leave, Arm, Disarm;
      LeaveKeepsTime(Abs(), true, table.slots[i].rtpHeard);
      CountLeaving(true, table.slots[i].rtpHeard);
      var m := table.slots[i];
      SetMember(i, m.(bye := true, hist := m.hist.(left := now)));
      StopTimer(SenderTimer(i));
      StopTimer(MemberTimer(i));
      StartTimer(LeaveTimer(i), LEAVE_TIMEOUT);
    }

    method HandleBye(ssrcs: seq<u32>)
      requires Valid()
      modifies Repr()
      ensures Valid() && Abs() == Session.HandleBye(old(Abs()), ssrcs)
    {
      hide Session.ByeOne;
      var k := 0;
      while k < |ssrcs|
        invariant 0 <= k <= |ssrcs| && Valid()
        invariant Session.HandleBye(Abs(), ssrcs[k..]) == Session.HandleBye(old(Abs()), ssrcs)
      {
        assert ssrcs[k..][0] == ssrcs[k] && ssrcs[k..][1..] == ssrcs[k + 1..];
        var i := table.Lookup(ssrcs[k]);
        if i.Some? && !table.slots[i.value].bye {
          ByeOne(i.value);
        }
        k := k + 1;
      }
      assert ssrcs[k..] == [];
    }

    method HandleRtcp(p: RtcpPacket, from: Addr, size: u32, clock: (u32, u32))
      requires Valid() && Fair(cfg.random32)
      modifies Repr()
      ensures Valid() && Abs() == Session.HandleRtcp(old(Abs()), p, from, size, clock)
    {
      hide Fair, Session.HandleSr, Session.HandleRr, Session.HandleSdes, Session.HandleBye;
      match p
      case SenderReport(_, _, _, _, _, _, _) => HandleSr(p, from, size, clock);
      case ReceiverReport(_, _) => HandleRr(p, from, size);
      case SourceDescription(chunks) => HandleSdes(chunks, from, size);
      case Bye(ssrcs) => HandleBye(ssrcs);
      case Other(_) =>
    }

    /** Checks a datagram and walks through its packets by their length fields. */
    method RxRtcp(msg: Datagram, from: Addr, clock: (u32, u32))
      requires Valid() && Fair(cfg.random32) && Codec.Receive(msg) != Codec.Overrun
      modifies Repr()
      ensures Valid() && Abs() == Session.RxRtcp(old(Abs()), Codec.Receive(msg), from, |msg|, clock)
    {
      hide Fair, Codec.Check, Session.HandleRtcp, Codec.DecodeAt, Codec.Next;
      var error := Codec.CheckMessage(msg);
      if error.Some? {
        rtcpStatus := RtcpMalformed(error.value);
        invalidRtcp := Wrap32(invalidRtcp + 1);
        return;
      }
      rtcpStatus := RtcpNoError;
      ghost var start, all := Abs(), Codec.DecodeAll(msg, 0).value;
      var at := 0;
      while at + 4 <= |msg|
        invariant Valid() && at >= 0 && Codec.DecodeAll(msg, at).Some?
        invariant Session.HandleAll(Abs(), Codec.DecodeAll(msg, at).value, from, |msg|, clock)
               == Session.HandleAll(start, all, from, |msg|, clock)
        decreases |msg| - at
      {
        FirstOfRest(msg, at);
        HandleRtcp(Codec.DecodeAt(msg, at).value, from, |msg|, clock);
        at := Codec.Next(msg, at);
      }
    }

    // ---------------------------------------------------------------- timers expire

    method SenderTimedOut(i: Slot)
      requires Valid()
      modifies Repr()
      ensures Valid() && Abs() == Session.SenderTimedOut(old(Abs()), i)
    {
      hide Leave;
      var m := table.slots[i];
      SetMember(i, m.(rtpHeard := false, sender := if i == self then false else m.sender));
      if i == self {
        weSent := false;
      }
      LeaveKeepsTime(Abs(), false, true);
      CountLeaving(false, true);
    }

    method MemberTimedOut(i: Slot)
      requires Valid() && i in table.used
      modifies Repr()
      ensures Valid() && Abs() == Session.MemberTimedOut(old(Abs()), i)
    {
      LeaveKeepsTime(Abs(), true, table.slots[i].rtpHeard);
      hide Leave, Dealloc;
      CountLeaving(true, table.slots[i].rtpHeard);
      DeallocMember(i);
    }

    method ConflictTimedOut(j: Entry)
      requires Valid()
      modifies conflicts
      ensures Valid() && Abs() == Session.ConflictTimedOut(old(Abs()), j)
    {
      hide Expire;
      conflicts.Expired(j);
    }

    /** The open packet of the encoder is our report with the given blocks. */
    ghost predicate Reporting(enc: RtcpEncoder.Encoder, s: State, blocks: seq<Block>, wall: Wall)
      reads enc, enc.buf
    {
      && enc.Valid() && enc.buf.Length == ENCODER_BUFFER_LEN
      && enc.open == RtcpEncoder.Building(ReportPackets(s, blocks, wall)[0])
      && enc.SpaceLeft() == ReportRoom(s) - 24 * |blocks|
    }

    /** Adds a reception report on every other member to the open report, as long as they fit. */
    method GenRr(enc: RtcpEncoder.Encoder, wall: Wall) returns (ok: bool, ghost blocks: seq<Block>)
      requires Valid() && Reporting(enc, Abs(), [], wall)
      modifies table.slots, enc, enc.buf
      ensures Valid() && enc.done == old(enc.done)
      ensures var (slots, all, fitted) := ReportBlocks(old(Abs()).slots, table.used, ReportRoom(old(Abs())), wall.dlsr, |out.reports|);
              && ok == fitted && Abs() == old(Abs()).(slots := slots) && blocks == all
      ensures ok ==> Reporting(enc, old(Abs()), blocks, wall)
    {
      ghost var s := Abs();
      var sr := table.slots[self].sender;
      blocks := [];
      var k := 0;
      hide Report, Reporting, ReportBlock, ReportBlocks, ReportedUpTo, ReportRoom;
      ReportedStart(s, table.used, wall);
      while k < |table.used|
        invariant 0 <= k <= |table.used| && Valid() && Abs() == s.(slots := Abs().slots)
        invariant Reporting(enc, s, blocks, wall) && enc.done == old(enc.done)
        invariant ReportedUpTo(s, Abs().slots, table.used, k, blocks, wall)
      {
        var i := table.used[k];
        var m := table.slots[i];
        ReportedStep(s, Abs().slots, table.used, k, blocks, wall);
        if !(m.isSelf || m.bye) {
          ghost var block := ReportBlock(m, Report(m.src).1, wall.dlsr(i));
          ok := AddReport(enc, i, sr, s, blocks, wall);
          if !ok {
            return;
          }
          blocks := blocks + [block];
        }
        k := k + 1;
      }
      ReportedEnd(s, Abs().slots, table.used, blocks, wall);
      ok := true;
    }

    /** Computes the losses of one member and adds a block on it. */
    method AddReport(enc: RtcpEncoder.Encoder, i: Slot, sr: bool, ghost s: State, ghost blocks: seq<Block>, wall: Wall)
      returns (ok: bool)
      requires Valid() && Reporting(enc, s, blocks, wall) && sr == s.slots[s.self].sender && out == s.out
      modifies table.slots, enc, enc.buf
      ensures Valid() && enc.done == old(enc.done)
      ensures var m := old(Abs()).slots[i];
              && Abs() == SetSlot(old(Abs()), i, Evolve(m, Summed(|s.out.reports|)))
              && ok == (24 <= ReportRoom(s) - 24 * |blocks|)
              && (ok ==> Reporting(enc, s, blocks + [ReportBlock(m, Report(m.src).1, wall.dlsr(i))], wall))
    {
      hide Report, ReportBlock, RtcpEncoder.Partial, Codec.EncodeAll, Codec.AllEncodable;
      var m := table.slots[i];
      var r := Report(m.src).1;
      SetMember(i, Evolve(m, Summed(attempts)));
      var block := ReportBlock(m, r, wall.dlsr(i));
      if sr {
        ok := enc.SrAddRr(block);
      } else {
        ok := enc.RrAddRr(block);
      }
    }

    /** Begins a sender report if we are a sender, else a receiver report. */
    method BeginReport(wall: Wall) returns (enc: RtcpEncoder.Encoder)
      requires Valid()
      ensures fresh(enc) && fresh(enc.buf) && Reporting(enc, Abs(), [], wall) && enc.done == []
    {
      hide RtcpEncoder.Partial, Codec.EncodeAll, Codec.AllEncodable;
      enc := new RtcpEncoder.Encoder(ENCODER_BUFFER_LEN);
      var me := table.slots[self];
      if me.sender {
        var _ := enc.SrBegin(me.ssrc, wall.ntpSec, wall.ntpFrac, wall.rtpTs, txPkts, txOctets);
      } else {
        var _ := enc.RrBegin(me.ssrc);
      }
    }

    /** Reports on the other members and names ourselves; returns the size of the message, or 0
        if it did not fit. */
    method SendReport(ghost interval: real, wall: Wall) returns (size: nat)
      requires Valid()
      modifies this`out, this`attempts, table.slots
      ensures Valid() && (Abs(), size) == Session.SendReport(old(Abs()), interval, wall)
    {
      hide ReportBlocks, ReportPackets, Codec.EncodeAll, Codec.AllEncodable, RtcpEncoder.Partial;
      ghost var s := Abs();
      var ssrc, cname := table.slots[self].ssrc, table.slots[self].cname;
      var enc := BeginReport(wall);
      var ok, blocks := GenRr(enc, wall);
      size := 0;
      ghost var packets := ReportPackets(s, blocks, wall);
      ghost var message := [];
      if ok {
        ok := FinishReport(enc, ssrc, cname, s, blocks, wall);
        if ok {
          message := enc.buf[..enc.write];
          size := enc.write;
        }
      }
      NoteAttempt(ReportSent(Now(Abs().timers), interval, ControlNow(), Sight(s, wall), packets, message));
    }

    /** The RTCP timer expired: report if it is really time, and schedule the next expiry. */
    method RtcpTimedOut(wall: Wall)
      requires Valid()
      modifies Repr()
      ensures Valid() && Abs() == Session.RtcpTimedOut(old(Abs()), wall)
    {
      hide Interval, Session.SendReport, Schedule, Now, Averaged;
      TimeIsNow();
      var tc := CurrentTime();
      var t := IntervalCalc();
      var next := tp + t;
      if next <= tc {
        ReportAndSchedule(tc, t, wall);
      } else {
        IntervalSchedule(tc, next);
      }
    }

    method ReportAndSchedule(tc: real, ghost t: real, wall: Wall)
      requires Valid()
      modifies Repr()
      ensures Valid() && Abs() == Session.ReportAndSchedule(old(Abs()), tc, t, wall)
    {
      hide Session.ReportNow, Session.ScheduleNext;
      ReportNow(tc, t, wall);
      ScheduleNext(tc);
    }

    method ScheduleNext(tc: real)
      requires Valid()
      modifies Repr()
      ensures Valid() && Abs() == Session.ScheduleNext(old(Abs()), tc)
    {
      hide Valid, Abs, Interval, Schedule;
      var t := IntervalCalc();
      IntervalSchedule(tc, t + tc);
      InitialDone();
    }

    method InitialDone()
      requires Valid()
      modifies this`initial
      ensures Valid() && Abs() == old(Abs()).(control := old(Abs()).control.(initial := false))
    {
      initial := false;
    }

    method ReportNow(tc: real, ghost t: real, wall: Wall)
      requires Valid()
      modifies this`avgSize, this`tp, this`out, this`attempts, table.slots
      ensures Valid() && Abs() == Session.ReportNow(old(Abs()), tc, t, wall)
    {
      hide Session.SendReport;
      var size := SendReport(t, wall);
      avgSize := (1.0 / 16.0) * size as real + (15.0 / 16.0) * avgSize;
      tp := tc;
    }

    method HandleExpiry(e: TimerId, wall: Wall)
      requires Valid() && Expected(Abs(), e)
      modifies Repr()
      ensures Valid() && Abs() == Session.HandleExpiry(old(Abs()), e, wall)
    {
      hide Session.RtcpTimedOut, Session.MemberTimedOut, Session.SenderTimedOut, Session.ConflictTimedOut, Dealloc;
      match e
      case RtcpTimer => RtcpTimedOut(wall);
      case MemberTimer(i) => MemberTimedOut(i);
      case SenderTimer(i) => SenderTimedOut(i);
      case LeaveTimer(i) => DeallocMember(i);
      case ConflictTimer(j) => ConflictTimedOut(j);
    }

    /** One tick: collect the timers that are due, and run their callbacks one by one.  The loop
        ends because no callback makes further timers due. */
    method Tick(wall: Wall)
      requires Valid() && Good(Abs())
      modifies Repr()
      ensures Valid() && Abs() == SessionTick(old(Abs()), wall)
    {
      hide Inv, Session.HandleExpiry, Settled, AdvanceTimers, TakeFirst, SeqsOk, AllReportedOk, OutputGood, RenumberOk, SpacingOk;
      AdvanceKeepsInv(Abs(), Abs().(timers := AdvanceTimers(Abs().timers)));
      Collect();
      ghost var start := Abs();
      while wheel.timeoutList != []
        invariant Valid() && Inv(Abs(), {}) && DispatchAll(Abs(), wall) == DispatchAll(start, wall)
        decreases |wheel.timeoutList|
      {
        ghost var s := Abs();
        TakeFirstKeeps(s);
        var e := TakeExpired();
        ghost var s1 := Abs();
        ExpiredKeeps(s1, e, wall);
        ExpiredKeepsDue(s1, e, wall);
        HandleExpiry(e, wall);
      }
    }

    method Collect()
      requires Valid() && Settled(Abs().timers)
      modifies this`now, wheel, wheel.buckets
      ensures Valid() && Abs() == old(Abs()).(timers := AdvanceTimers(old(Abs()).timers))
    {
      wheel.Collect();
      now := now + 1;
    }

    method TakeExpired() returns (e: TimerId)
      requires Valid() && wheel.timeoutList != []
      modifies wheel
      ensures Valid() && Due(old(Abs()).timers) != [] && e == Due(old(Abs()).timers)[0]
      ensures Abs() == old(Abs()).(timers := TakeFirst(old(Abs()).timers))
    {
      e := wheel.TakeExpired();
    }


    // ---------------------------------------------------------------- what users call

    method Initialise()
      requires Valid() && Abs() == Empty(cfg)
      modifies Repr()
      ensures Valid() && Abs() == Init(cfg) && Reachable(Abs())
    {
      InitReachable(cfg);
      hide Reachable, Init;
      Start();
    }

    method SessionRxRtp(pkt: seq<u8>, from: Addr, arrival: u32)
      requires Valid() && Fair(cfg.random32)
      modifies Repr()
      ensures Valid() && Abs() == Session.RxRtp(old(Abs()), pkt, from, arrival)
      ensures old(Reachable(Abs()) && Admissible(Abs(), RtpArrives(pkt, from, arrival))) ==>
                Reachable(Abs()) && Follows(old(Abs()), RtpArrives(pkt, from, arrival), Abs())
    {
      hide Good, Reachable, Follows, Admissible, Session.RxRtp, Fair;
      ghost var s := Abs();
      RxRtp(pkt, from, arrival);
      if Reachable(s) && Admissible(s, RtpArrives(pkt, from, arrival)) {
        StepReachable(s, RtpArrives(pkt, from, arrival));
      }
    }

    method SessionRxRtcp(msg: Datagram, from: Addr, clock: (u32, u32))
      requires Valid() && Fair(cfg.random32) && Codec.Receive(msg) != Codec.Overrun
      modifies Repr()
      ensures Valid() && Abs() == Session.RxRtcp(old(Abs()), Codec.Receive(msg), from, |msg|, clock)
      ensures old(Reachable(Abs()) && Admissible(Abs(), RtcpArrives(msg, from, clock))) ==>
                Reachable(Abs()) && Follows(old(Abs()), RtcpArrives(msg, from, clock), Abs())
    {
      hide Good, Reachable, Follows, Admissible, Session.RxRtcp, Fair, Codec.Receive;
      ghost var s := Abs();
      RxRtcp(msg, from, clock);
      if Reachable(s) && Admissible(s, RtcpArrives(msg, from, clock)) {
        StepReachable(s, RtcpArrives(msg, from, clock));
      }
    }

    method SessionTx(payload: seq<u8>, ts: u32, csrcs: CsrcList)
      requires Valid() && FitsBuffer(Abs(), payload, ts, csrcs)
      modifies Repr()
      ensures Valid() && Abs() == Session.Tx(old(Abs()), payload, ts, csrcs)
      ensures old(Reachable(Abs()) && Admissible(Abs(), UserSends(payload, ts, csrcs))) ==>
                Reachable(Abs()) && Follows(old(Abs()), UserSends(payload, ts, csrcs), Abs())
    {
      hide Good, Reachable, Follows, Admissible, Session.Tx, Fair, FitsBuffer;
      ghost var s := Abs();
      Tx(payload, ts, csrcs);
      if Reachable(s) && Admissible(s, UserSends(payload, ts, csrcs)) {
        StepReachable(s, UserSends(payload, ts, csrcs));
      }
    }

    method SessionTimerTick(wall: Wall)
      requires Valid() && Reachable(Abs()) && Admissible(Abs(), TimePasses(wall))
      modifies Repr()
      ensures Valid() && Reachable(Abs()) && Follows(old(Abs()), TimePasses(wall), Abs())
    {
      StepReachable(Abs(), TimePasses(wall));
      hide Reachable, Good, SessionTick, Follows, Admissible;
      Tick(wall);
    }

    /** Stops every timer of the session. */
    method SessionDeinit()
      requires Valid()
      modifies Repr()
      ensures Valid() && Abs() == Deinit(old(Abs()))
    {
      hide Disarm;
      StopTimer(RtcpTimer);
      StopMembers();
      StopConflicts();
    }

    method StopMembers()
      requires Valid()
      modifies wheel, wheel.buckets
      ensures Valid() && Abs() == old(Abs()).(timers := DisarmMembers(old(Abs()).timers, table.used))
    {
      hide Disarm;
      var k := 0;
      while k < |table.used|
        invariant 0 <= k <= |table.used| && Valid() && Abs() == old(Abs()).(timers := Abs().timers)
        invariant DisarmMembers(Abs().timers, table.used[k..]) == DisarmMembers(old(Abs()).timers, table.used)
      {
        var i := table.used[k];
        assert table.used[k..][0] == i && table.used[k..][1..] == table.used[k + 1..];
        StopTimer(MemberTimer(i));
        StopTimer(SenderTimer(i));
        StopTimer(LeaveTimer(i));
        k := k + 1;
      }
      assert table.used[k..] == [];
    }

    method StopConflicts()
      requires Valid()
      modifies wheel, wheel.buckets
      ensures Valid() && Abs() == old(Abs()).(timers := DisarmConflicts(old(Abs()).timers, conflicts.used))
    {
      hide Disarm;
      var k := 0;
      while k < |conflicts.used|
        invariant 0 <= k <= |conflicts.used| && Valid() && Abs() == old(Abs()).(timers := Abs().timers)
        invariant DisarmConflicts(Abs().timers, conflicts.used[k..]) == DisarmConflicts(old(Abs()).timers, conflicts.used)
      {
        var j := conflicts.used[k];
        assert conflicts.used[k..][0] == j && conflicts.used[k..][1..] == conflicts.used[k + 1..];
        StopTimer(ConflictTimer(j));
        k := k + 1;
      }
      assert conflicts.used[k..] == [];
    }
  }

  /** Ends the report and adds our name. */
  method FinishReport(enc: RtcpEncoder.Encoder, ssrc: u32, cname: Text, ghost s: State, ghost blocks: seq<Block>, wall: Wall)
    returns (ok: bool)
    requires enc.Valid() && enc.buf.Length == ENCODER_BUFFER_LEN && enc.done == []
    requires enc.open == RtcpEncoder.Building(ReportPackets(s, blocks, wall)[0])
    requires ssrc == s.slots[s.self].ssrc && cname == s.slots[s.self].cname
    modifies enc, enc.buf
    ensures enc.Valid()
    ensures ReportMessage(ReportPackets(s, blocks, wall), true) == if ok then enc.buf[..enc.write] else []
  {
    hide RtcpEncoder.Partial, RtcpEncoder.Legal, Codec.EncodeAll, Codec.AllEncodable;
    ghost var packets := ReportPackets(s, blocks, wall);
    enc.EndPacket();
    assert enc.done == [packets[0]];
    ok := WriteName(enc, ssrc, cname);
    assert packets == [packets[0]] + [NamePacket(ssrc, cname)];
    if !ok {
      NameSize(packets[0], ssrc, cname);
    }
  }

  ghost function NamePacket(ssrc: u32, cname: Text): Codec.Built {
    Codec.Built(SourceDescription([Chunk(ssrc, [cname])]), None)
  }

  method WriteName(enc: RtcpEncoder.Encoder, ssrc: u32, cname: Text) returns (ok: bool)
    requires enc.Valid() && enc.open.Closed?
    modifies enc, enc.buf
    ensures enc.Valid() && ok == (old(enc.write) + 11 + |cname| <= enc.buf.Length)
    ensures ok ==> enc.open == RtcpEncoder.Closed && enc.done == old(enc.done) + [NamePacket(ssrc, cname)]
                   && Codec.AllEncodable(enc.done) && enc.buf[..enc.write] == Codec.EncodeAll(enc.done)
  {
    hide RtcpEncoder.Partial, RtcpEncoder.Legal, Codec.EncodeAll;
    ok := enc.SdesBegin();
    if !ok {
      return;
    }
    ok := enc.ChunkBegin(ssrc);
    if !ok {
      return;
    }
    ok := enc.AddCname(cname);
    if !ok {
      return;
    }
    ok := enc.ChunkEnd();
    if !ok {
      return;
    }
    ghost var names: seq<Text> := [] + [cname];
    assert names == [cname];
    ghost var chunks: seq<Chunk> := [] + [Chunk(ssrc, names)];
    assert chunks == [Chunk(ssrc, [cname])];
    enc.EndPacket();
  }

  lemma NameSize(p: Codec.Built, ssrc: u32, cname: Text)
    requires Codec.AllEncodable([p])
    ensures var ps := [p] + [NamePacket(ssrc, cname)];
            Codec.AllEncodable(ps) ==> |Codec.EncodeAll([p])| + 11 + |cname| <= |Codec.EncodeAll(ps)|
  {
    var name := NamePacket(ssrc, cname);
    if Codec.AllEncodable([p] + [name]) {
      assert Codec.Encodable(([p] + [name])[1]);
      RtcpEncoder.AllSnoc([p], name);
      NameContent(ssrc, cname);
    }
  }

  lemma NameContent(ssrc: u32, cname: Text)
    ensures 7 + |cname| <= |Codec.EncodeContent(NamePacket(ssrc, cname))|
  {
    assert Codec.EncodeItems([cname]) == Codec.EncodeItem(cname) + Codec.EncodeItems([]);
    var c := Chunk(ssrc, [cname]);
    assert Codec.EncodeChunks([c]) == Codec.EncodeChunk(c) + Codec.EncodeChunks([]);
  }

  /** The first `k` members have been reported on, by `blocks`. */
  ghost predicate ReportedUpTo(s: State, slots: Slots, used: seq<Slot>, k: nat, blocks: seq<Block>, wall: Wall)
    requires k <= |used|
  {
    var (after, rest, fitted) := ReportBlocks(slots, used[k..], ReportRoom(s) - 24 * |blocks|, wall.dlsr, |s.out.reports|);
    ReportBlocks(s.slots, used, ReportRoom(s), wall.dlsr, |s.out.reports|) == (after, blocks + rest, fitted)
  }

  lemma ReportedStart(s: State, used: seq<Slot>, wall: Wall)
    ensures ReportedUpTo(s, s.slots, used, 0, [], wall)
  {
    hide ReportBlocks, ReportRoom;
    assert used[0..] == used;
    var all := ReportBlocks(s.slots, used, ReportRoom(s), wall.dlsr, |s.out.reports|);
    assert [] + all.1 == all.1;
  }

  lemma ReportedStep(s: State, slots: Slots, used: seq<Slot>, k: nat, blocks: seq<Block>, wall: Wall)
    requires k < |used| && ReportedUpTo(s, slots, used, k, blocks, wall)
    ensures var m := slots[used[k]];
            var r := Report(m.src).1;
            var next := slots[used[k] := Evolve(m, Summed(|s.out.reports|))];
            if m.isSelf || m.bye then ReportedUpTo(s, slots, used, k + 1, blocks, wall)
            else if ReportRoom(s) - 24 * |blocks| < 24 then
              ReportBlocks(s.slots, used, ReportRoom(s), wall.dlsr, |s.out.reports|) == (next, blocks, false)
            else ReportedUpTo(s, next, used, k + 1, blocks + [ReportBlock(m, r, wall.dlsr(used[k]))], wall)
  {
    hide Report, ReportRoom, ReportBlock;
    assert used[k..][1..] == used[k + 1..];
    var m, room := slots[used[k]], ReportRoom(s) - 24 * |blocks|;
    if !(m.isSelf || m.bye) {
      if room < 24 {
        assert blocks + [] == blocks;
      } else {
        var block := ReportBlock(m, Report(m.src).1, wall.dlsr(used[k]));
        var rest := ReportBlocks(slots[used[k] := Evolve(m, Summed(|s.out.reports|))], used[k + 1..], room - 24, wall.dlsr, |s.out.reports|).1;
        assert blocks + ([block] + rest) == (blocks + [block]) + rest;
      }
    }
  }

  lemma ReportedEnd(s: State, slots: Slots, used: seq<Slot>, blocks: seq<Block>, wall: Wall)
    requires ReportedUpTo(s, slots, used, |used|, blocks, wall)
    ensures ReportBlocks(s.slots, used, ReportRoom(s), wall.dlsr, |s.out.reports|) == (slots, blocks, true)
  {
    assert blocks + [] == blocks;
  }

  lemma LeaveKeepsTime(s: State, aMember: bool, aSender: bool)
    ensures Leave(s, aMember, aSender).timers.now == s.timers.now
    ensures Leave(s, aMember, aSender).slots == s.slots
  {
  }

  lemma FirstOfRest(msg: seq<u8>, at: nat)
    requires at + 4 <= |msg| && Codec.DecodeAll(msg, at).Some?
    ensures Codec.DecodeAt(msg, at).Some? && Codec.DecodeAll(msg, Codec.Next(msg, at)).Some?
    ensures var all := Codec.DecodeAll(msg, at).value;
            all[0] == Codec.DecodeAt(msg, at).value && all[1..] == Codec.DecodeAll(msg, Codec.Next(msg, at)).value
  {
    hide Codec.DecodeAt, Codec.Next;
  }

  lemma OwnTimerOnly(s: State)
    ensures var t := Session.HeardSelf(s); t == s.(slots := t.slots, timers := t.timers) && t.timers.now == s.timers.now
  {
    hide Rearm;
  }

  lemma SentFromHere(s: State, payload: seq<u8>)
    ensures var t := Session.CountSent(Session.BeginSending(s), payload);
            t.seqno == s.seqno && t.cfg == s.cfg && t.self == s.self && t.slots[t.self].ssrc == s.slots[s.self].ssrc
  {
  }

  /** What is sent fits the packet buffer, or is refused because it is too big for any. */
  ghost predicate FitsBuffer(s: State, payload: seq<u8>, ts: u32, csrcs: CsrcList) {
    var p := RtpPacket.Packet(s.seqno, ts, s.slots[s.self].ssrc, csrcs, payload);
    RtpPacket.MAX_RTP_PKT_SIZE < RtpPacket.PacketSize(p) || |RtpPacket.Encode(p, s.cfg.pt, s.cfg.align)| <= RTP_PKT_LEN
  }

  lemma CacheKeepsTime(c: Conflicts, t: Timers, addr: Addr)
    ensures LookupAddr(c, t, addr).1.now == t.now && AddAddr(c, t, addr).1.now == t.now
    ensures !LookupAddr(c, t, addr).2 ==> LookupAddr(c, t, addr) == (c, t, false)
  {
  }

  /** A session in which nobody takes part yet. */
  ghost function Empty(cfg: Config): State {
    State(cfg, Flat(TICK_RATE, 0, [], []), seq(MAX_MEMBERS, _ => BLANK_MEMBER), [],
          seq(MAX_MEMBERS, i requires 0 <= i < MAX_MEMBERS => i), 0, 0,
          Control(0.0, 0.0, 1, 1, 0, cfg.bandwidth, 256.0, false, true), EMPTY, 2, 0, Wrap16(cfg.random32(0)),
          0, 0, 0, 0, RtpNoError, RtcpNoError, Output([], [], [], [], [], NO_TALLY))
  }

  ghost function WithSelf(s: State): State
    requires s.free != []
  {
    var i, s1 := s.free[0], Alloc(s, s.cfg.random32(1));
    SetSlot(s1, i, s1.slots[i].(isSelf := true, cname := s.cfg.cname, rtpAddr := s.cfg.rtpAddr, rtcpAddr := s.cfg.rtcpAddr))
      .(self := i)
  }

  lemma InitShape(cfg: Config)
    ensures var s := WithSelf(Empty(cfg));
            Init(cfg) == Schedule(s.(drandAt := 1), 0.0, 0.0 + Interval(s.control, cfg.drand(0)))
  {
    hide Arm, DeltaMillis, Interval;
    var s := WithSelf(Empty(cfg));
    var m := BLANK_MEMBER.(ssrc := cfg.random32(1), isSelf := true, cname := cfg.cname, rtpAddr := cfg.rtpAddr, rtcpAddr := cfg.rtcpAddr);
    assert s.slots == seq(MAX_MEMBERS, i requires 0 <= i < MAX_MEMBERS => if i == 0 then m else BLANK_MEMBER);
    assert s.free == seq(MAX_MEMBERS - 1, i requires 0 <= i < MAX_MEMBERS - 1 => i + 1);
    assert s.used == [0];
  }

  /** The times to the next transmission and since the last one, scaled by members over pmembers. */
  method ScaleTimes(members: u32, pmembers: u32, tc: real, tp: real, tn: real, ghost c: Control) returns (next: real, last: real)
    requires 0 < pmembers && c.members == members && c.pmembers == pmembers && c.tp == tp && c.tn == tn
    ensures next == ScaledNext(c, tc) && last == ScaledLast(c, tc)
  {
    hide Ahead, Back;
    var ratio := members as real / pmembers as real;
    assert ratio == Ratio(c);
    hide Ratio;
    next := Ahead(tc, tn, ratio);
    last := Back(tc, tp, ratio);
  }

  /** The interval, computed step by step. */
  method ComputeInterval(c: Control, draw: Draw) returns (t: real)
    ensures t == Interval(c, draw)
  {
    var minTime := 5.0;
    if c.initial {
      minTime := minTime / 2.0;
    }
    var bw: real := c.bw;
    var n: int := c.members;
    if c.senders as real <= c.members as real * 0.25 {
      if c.weSent {
        bw := bw * 0.25;
        n := c.senders;
      } else {
        bw := bw * 0.75;
        n := n - c.senders;
      }
    }
    assert bw == EffectiveBandwidth(c) && n == EffectiveMembers(c) && minTime == MinInterval(c);
    t := c.avgSize * n as real / bw;
    assert t == Computed(c);
    hide Computed, MinInterval;
    if t < minTime {
      t := minTime;
    }
    t := t * (draw + 0.5);
    t := t / COMPENSATION;
  }

  /** The 32-bit tick gives the same 32-bit time as the unbounded one. */
  lemma TickWord(now: nat)
    ensures (now % 0x1_0000_0000 * 100) % 0x1_0000_0000 == (now * 100) % 0x1_0000_0000
  {
    var turns := now / 0x1_0000_0000;
    assert now * 100 == now % 0x1_0000_0000 * 100 + (turns * 100) * 0x1_0000_0000;
  }
}
