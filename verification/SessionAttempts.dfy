/**
 Attempts to report, over whole ticks and runs: a tick makes one if and only if the timer is due and the
 interval drawn has passed, and what is sent is, octet by octet, what there was to report.
 */
module SessionAttempts {
  import opened Words
  import opened SoftTimer
  import opened SessionTimers
  import opened Session
  import opened SessionInterval
  import opened SessionInvariant
  import opened SessionReports
  import opened SessionHistory
  import opened SessionSteps
  import opened SessionResults
  import opened SessionSums
  import Codec = RtcpCodec
  import Layout = RtcpLayout

  // ---------------------------------------------------------------- what is sent

  /** In every run, every report that was sent has a block on each member there was but ourselves and those
      that had left, with the member's figures at that time, and our name, and these stand in its octets one
      after the other. */
  lemma ReportsStand(s: State, r: ReportSent)
    requires Reachable(s) && r in s.out.reports && r.message != []
    ensures Stands(r) && Layout.AllBuiltAt(r.message, 0, r.packets)
  {
    hide Reachable, Inv, SeqsOk, AllReportedOk, RenumberOk, SpacingOk, Stands, Layout.AllBuiltAt, DeliveryGood, SentOk, Tallied;
    ReachableIsGood(s);
    assert ReportReadable(r);
    StandsBuilt(r);
  }

  lemma StandsBuilt(r: ReportSent)
    requires Stands(r)
    ensures Layout.AllBuiltAt(r.message, 0, r.packets)
  {
    hide Others, BlockOn, HeadOf, Codec.EncodeAll, Codec.AllEncodable, Codec.AllCounted, Layout.AllBuiltAt;
    Layout.CompoundWritten(r.packets);
  }

  // ---------------------------------------------------------------- when

  /** The RTCP timer, the interval and what was reported stay as they are; members and senders may go. */
  ghost predicate Idle(s: State, t: State) {
    && t.cfg == s.cfg && t.drandAt == s.drandAt && t.out.reports == s.out.reports && t.timers.now == s.timers.now
    && DueAt(t.timers, RtcpTimer) == DueAt(s.timers, RtcpTimer)
    && SameButCounts(s.control, t.control)
  }

  ghost predicate SameButCounts(c: Control, d: Control) {
    d == c.(members := d.members, senders := d.senders, weSent := d.weSent)
  }

  /** An attempt, or none, by the control variables `c` at the time: if the interval drawn has passed since the
      last attempt, one more is made, the average takes its size in, and another interval is drawn;
      otherwise the rest of the interval is waited for. */
  ghost predicate AttemptedBy(c: Control, s: State, t: State, wall: Wall) {
    var tc, interval, n := (s.timers.now * 100) as real / 1000.0, Drawn(c, s.cfg.drand(s.drandAt)), |s.out.reports|;
    if c.tp + interval <= tc then
      && |t.out.reports| == n + 1 && t.out.reports[..n] == s.out.reports
      && var r := t.out.reports[n];
         && r.at == tc && r.control == c && r.seen.wall == wall
         && var after := c.(tp := tc, avgSize := (|r.message| as real + 15.0 * c.avgSize) / 16.0);
            && SameButCounts(after.(tn := tc + Drawn(after, s.cfg.drand(s.drandAt + 1)), initial := false), t.control)
            && t.drandAt == s.drandAt + 2
    else
      && t.out.reports == s.out.reports && t.drandAt == s.drandAt + 1
      && SameButCounts(c.(tn := c.tp + interval), t.control)
  }

  ghost predicate Attempted(s: State, t: State, wall: Wall) {
    exists c :: SameButCounts(s.control, c) && AttemptedBy(c, s, t, wall)
  }

  lemma OthersIdle(s: State, e: TimerId, wall: Wall)
    requires TableOk(s) && CountersOk(s) && Expected(s, e) && e != RtcpTimer
    ensures Idle(s, HandleExpiry(s, e, wall))
  {
    hide TableOk, CountersOk, Disarm, Leave, DueAt;
    match e
    case MemberTimer(i) => MemberIdle(s, i);
    case SenderTimer(i) => SenderIdle(s, i);
    case LeaveTimer(_) =>
    case ConflictTimer(_) =>
  }

  lemma MemberIdle(s: State, i: Slot)
    requires TableOk(s) && CountersOk(s) && i in s.used && i != s.self && !s.slots[i].bye
    ensures Idle(s, MemberTimedOut(s, i))
  {
    LeaveIsCounting(s, i);
    hide TableOk, CountersOk, Disarm, Leave, DueAt;
  }

  lemma SenderIdle(s: State, i: Slot)
    requires TableOk(s) && CountersOk(s)
    ensures Idle(s, SenderTimedOut(s, i))
  {
    OneLive(s);
    hide TableOk, DueAt;
  }

  lemma AttemptNow(s: State, wall: Wall)
    requires DueAt(s.timers, RtcpTimer).None? && EarlyEnough(s.timers.now) && NoDup(s.used)
    ensures var t := RtcpTimedOut(s, wall);
            && AttemptedBy(s.control, s, t, wall)
            && t.cfg == s.cfg && t.timers.now == s.timers.now
            && DueAt(t.timers, RtcpTimer).Some? && s.timers.now < DueAt(t.timers, RtcpTimer).value
  {
    hide RtcpTimedOut, DueAt, Interval, Drawn, SendReport, ReportBlocks, Now, EarlyEnough, NoDup, Stands;
    NextAttemptInTime(s, wall);
    RtcpTimedOutShape(s, wall);
    EarlyNow(s.timers);
    IntervalIs(s.control, s.cfg.drand(s.drandAt));
    ReportStands(s, Interval(s.control, s.cfg.drand(s.drandAt)), wall);
    LaterDue(s, wall);
  }

  lemma LaterDue(s: State, wall: Wall)
    requires DueAt(s.timers, RtcpTimer).None?
    ensures var due := DueAt(RtcpTimedOut(s, wall).timers, RtcpTimer); due.Some? && s.timers.now < due.value
  {
    hide Interval, DueAt, ReportBlocks, ReportMessage, ReportPackets, DeltaMillis, Now, Delay;
  }

  lemma {:induction false} DispatchAttempts(s: State, wall: Wall)
    requires Inv(s, {}) && EarlyEnough(s.timers.now)
    ensures var t := DispatchAll(s, wall);
            if DueAt(s.timers, RtcpTimer) == Some(s.timers.now) then Attempted(s, t, wall) else Idle(s, t)
    decreases |Due(s.timers)|
  {
    hide TimersOk, CountersOk, ConflictsOk, TableOk, HandleExpiry, Attempted, Idle, DueAt;
    if Due(s.timers) == [] {
      NothingDue(s.timers);
      RtcpNotDue(s);
    } else {
      var s1, e := s.(timers := TakeFirst(s.timers)), Due(s.timers)[0];
      TakeFirstKeeps(s);
      ExpiredKeeps(s1, e, wall);
      ExpiredKeepsDue(s1, e, wall);
      var s2 := HandleExpiry(s1, e, wall);
      DispatchAttempts(s2, wall);
      if e == RtcpTimer {
        AttemptTaken(s, s1, s2, DispatchAll(s2, wall), wall);
      } else {
        OthersIdle(s1, e, wall);
        IdleTaken(s, s1, e);
        IdleFirst(s, s1, s2, DispatchAll(s2, wall), wall);
      }
    }
  }

  lemma RtcpNotDue(s: State)
    requires Settled(s.timers)
    ensures DueAt(s.timers, RtcpTimer) != Some(s.timers.now) && Idle(s, s)
  {
    if DueAt(s.timers, RtcpTimer).Some? {
      NotOverdue(s.timers, RtcpTimer);
    }
  }

  lemma IdleTaken(s: State, t: State, e: TimerId)
    requires Due(s.timers) != [] && e == Due(s.timers)[0] && e != RtcpTimer && t == s.(timers := TakeFirst(s.timers))
    ensures Idle(s, t)
  {
    hide DueAt;
  }

  lemma IdleFirst(s: State, t: State, u: State, v: State, wall: Wall)
    requires Idle(s, t) && Idle(t, u)
    requires if DueAt(u.timers, RtcpTimer) == Some(u.timers.now) then Attempted(u, v, wall) else Idle(u, v)
    ensures if DueAt(s.timers, RtcpTimer) == Some(s.timers.now) then Attempted(s, v, wall) else Idle(s, v)
  {
    hide AttemptedBy;
    if DueAt(u.timers, RtcpTimer) == Some(u.timers.now) {
      var c :| SameButCounts(u.control, c) && AttemptedBy(c, u, v, wall);
      SameAttempt(c, s, u, v, wall);
    }
  }

  lemma SameAttempt(c: Control, s: State, u: State, v: State, wall: Wall)
    requires AttemptedBy(c, u, v, wall) && u.cfg == s.cfg && u.drandAt == s.drandAt
    requires u.out.reports == s.out.reports && u.timers.now == s.timers.now
    ensures AttemptedBy(c, s, v, wall)
  {
    hide Drawn;
  }

  lemma AttemptTaken(s: State, s1: State, s2: State, t: State, wall: Wall)
    requires Inv(s, {}) && Due(s.timers) != [] && Due(s.timers)[0] == RtcpTimer && s1 == s.(timers := TakeFirst(s.timers))
    requires s2 == HandleExpiry(s1, RtcpTimer, wall) && EarlyEnough(s.timers.now)
    requires if DueAt(s2.timers, RtcpTimer) == Some(s2.timers.now) then Attempted(s2, t, wall) else Idle(s2, t)
    ensures DueAt(s.timers, RtcpTimer) == Some(s.timers.now) && Attempted(s, t, wall)
  {
    hide RtcpTimedOut, TimersOk, CountersOk, ConflictsOk, AttemptedBy, DueAt;
    AttemptNow(s1, wall);
    SameAttempt(s1.control, s, s1, s2, wall);
    hide TableOk;
    IdleAfter(s.control, s, s2, t, wall);
  }

  lemma IdleAfter(c: Control, s: State, t: State, u: State, wall: Wall)
    requires AttemptedBy(c, s, t, wall) && Idle(t, u)
    ensures AttemptedBy(c, s, u, wall)
  {
    hide Drawn, DueAt;
  }

  /** A tick makes an attempt to report if and only if the RTCP timer is due in it and the interval drawn then
      has passed since the last attempt.  The members and senders counted may have become fewer by then in
      the same tick. */
  lemma TickAttempts(s: State, wall: Wall)
    requires Good(s) && EarlyEnough(s.timers.now + 1)
    ensures var s1, t := s.(timers := AdvanceTimers(s.timers)), SessionTick(s, wall);
            if DueAt(s.timers, RtcpTimer) == Some(s.timers.now + 1) then Attempted(s1, t, wall) else Idle(s1, t)
  {
    hide TimersOk, CountersOk, ConflictsOk, TableOk, SeqsOk, AllReportedOk, OutputGood, RenumberOk, SpacingOk, DueAt, Idle, Attempted;
    var s1 := s.(timers := AdvanceTimers(s.timers));
    AdvanceKeepsInv(s, s1);
    DispatchAttempts(s1, wall);
  }
}
