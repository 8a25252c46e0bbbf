/**
 What a session's reports say over whole runs: the figures they carry, what these add up to, what the
 sender's own counts mean, and when the next attempt to report is due.
 */
module SessionSums {
  import opened Words
  import opened SessionTimers
  import opened RtcpTypes
  import opened RtpSource
  import opened SourceLife
  import opened Session
  import opened SessionInterval
  import opened SessionInvariant
  import opened SessionHistory
  import opened SessionSteps
  import opened SessionResults

  // ---------------------------------------------------------------- figures

  /** Whether an attempt to report was sent. */
  function Sent(reports: seq<ReportSent>): nat -> bool {
    (attempt: nat) => attempt < |reports| && reports[attempt].message != []
  }

  /** In every reachable state, each computation of a member's figures was for an attempt of its own to
      report, and if that report was sent, it holds a block with these figures on the member. */
  lemma FiguresAreReported(s: State, i: Slot, p: nat)
    requires Reachable(s) && i in s.used && i != s.self
    requires p < |s.slots[i].hist.life| && s.slots[i].hist.life[p].Summed?
    ensures var m, reports := s.slots[i], s.out.reports;
            var life := m.hist.life;
            && life[p].attempt < |reports|
            && (Sent(reports)(life[p].attempt) ==>
                  Shows(reports[life[p].attempt], m.ssrc, Life(m.hist.inherited, life[..p]), i))
            && (forall q | p < q < |life| && life[q].Summed? :: life[p].attempt < life[q].attempt)
  {
    ReachableIsGood(s);
    hide Reachable, SeqsOk, OutputGood, RenumberOk, SpacingOk, Shows, Report, Life;
    var m := s.slots[i];
    assert !m.isSelf;
    assert ReportedOk(m, i, s.out.reports);
    assert ComputedFor(m, i, p, s.out.reports);
  }

  /** The part of a member's life from `k` up to `p` starts with its validation: no figures have been
      computed since, and none of the packets restarts the count. */
  ghost predicate CountedFrom(m: Member, k: nat, p: nat)
    requires k <= p <= |m.hist.life|
  {
    var start := Life(m.hist.inherited, m.hist.life[..k]);
    JustValidated(start) && NoRestart(start, m.hist.life[k..p])
  }

  /** Conservation in every reachable state: from a member's validation up to any later attempt to report,
      the interval figures add up to the cumulative ones.  If that attempt's report was sent, the figures
      in it are those of the same record; and the intervals of the attempts whose reports were sent add up
      to its counts, as long as the counts have not wrapped around, if and only if nothing was accepted,
      or nothing moved the highest sequence number, in the intervals before the other attempts. */
  lemma FiguresAddUpIff(s: State, i: Slot, k: nat, p: nat)
    requires Reachable(s) && i in s.used && i != s.self
    requires k <= p < |s.slots[i].hist.life| && s.slots[i].hist.life[p].Summed?
    requires CountedFrom(s.slots[i], k, p)
    ensures var m, sent := s.slots[i], Sent(s.out.reports);
            var start, ops, r := Life(m.hist.inherited, m.hist.life[..k]), m.hist.life[k..p], Life(m.hist.inherited, m.hist.life[..p]);
            var all, sum := SumOfReports(start, m.hist.life[k..p + 1]), SumWhere(start, m.hist.life[k..p + 1], sent, true);
            && r == Life(start, ops)
            && Wrap32(all.expected) == ExpectedCount(r) && Wrap32(all.received) == r.received
            && (sent(m.hist.life[p].attempt) ==> Shows(s.out.reports[m.hist.life[p].attempt], m.ssrc, r, i))
            && (sent(m.hist.life[p].attempt) && AllTraffic(start, ops).moved < 0x1_0000_0000
                && AllTraffic(start, ops).accepted < 0x1_0000_0000 ==>
                  && (Wrap32(sum.received) == r.received <==> NothingAcceptedUnsent(start, ops, sent))
                  && (Wrap32(sum.expected) == ExpectedCount(r) <==> NothingMovedUnsent(start, ops, sent)))
  {
    hide Reachable, SumOfReports, SumWhere, Life, NoRestart, AllTraffic, NothingAcceptedUnsent, NothingMovedUnsent,
         ExpectedCount, Wrap32, Shows, Report;
    FiguresAreReported(s, i, p);
    var life, inherited, sent := s.slots[i].hist.life, s.slots[i].hist.inherited, Sent(s.out.reports);
    var start, ops, attempt := Life(inherited, life[..k]), life[k..p], life[p].attempt;
    LifeAppend(inherited, life[..k], ops);
    assert life[..k] + ops == life[..p] && ops + [Summed(attempt)] == life[k..p + 1];
    LossAddsUp(start, ops, attempt);
    if sent(attempt) && AllTraffic(start, ops).moved < 0x1_0000_0000 && AllTraffic(start, ops).accepted < 0x1_0000_0000 {
      SentAddUpIff(start, ops, sent, attempt);
    }
  }

  // ---------------------------------------------------------------- the sender's own counts

  /** In every reachable state, the counts a sender report gives are the numbers of packets and payload
      octets sent since we took our SSRC, modulo 2^32, if and only if the packets refused as too big
      since then, or their octets, are zero modulo 2^32. */
  lemma SenderCountsIff(s: State, blocks: seq<Block>, wall: Wall)
    requires Reachable(s) && s.slots[s.self].sender
    ensures var p, tally := ReportPackets(s, blocks, wall)[0].packet, s.out.tally;
            && p.SenderReport? && tally.before <= |s.out.sent|
            && (p.psent == Wrap32(|s.out.sent| - tally.before) <==> Wrap32(tally.refused) == 0)
            && (p.osent == Wrap32(tally.octets) <==> Wrap32(tally.refusedOctets) == 0)
  {
    hide Reachable, Tallied, Wrap32;
    ReachableTallied(s);
    CountsOfTally(s);
  }

  lemma ReachableTallied(s: State)
    requires Reachable(s)
    ensures Tallied(s)
  {
    hide Reachable, SeqsOk, RenumberOk, SpacingOk, DeliveryGood, SentOk, ReportReadable, Inv, AllReportedOk, Tallied;
    ReachableIsGood(s);
  }

  lemma CountsOfTally(s: State)
    requires Tallied(s)
    ensures var tally := s.out.tally;
            && tally.before <= |s.out.sent|
            && (s.txPkts == Wrap32(|s.out.sent| - tally.before) <==> Wrap32(tally.refused) == 0)
            && (s.txOctets == Wrap32(tally.octets) <==> Wrap32(tally.refusedOctets) == 0)
  {
    hide Wrap32;
    var tally := s.out.tally;
    SameRest(|s.out.sent| - tally.before, tally.refused);
    SameRest(tally.octets, tally.refusedOctets);
  }

  lemma SameRest(n: nat, more: nat)
    ensures Wrap32(n + more) == Wrap32(n) <==> Wrap32(more) == 0
  {
    var turns := (n + more) / 0x1_0000_0000 - n / 0x1_0000_0000;
    assert more == turns * 0x1_0000_0000 + Wrap32(n + more) - Wrap32(n);
  }

  // ---------------------------------------------------------------- the next attempt

  /** In every reachable state, as long as the millisecond clock has not wrapped, the RTCP timer is due
      in a later tick: the first that does not come before the scheduled time, cut to whole milliseconds. */
  lemma AttemptInTime(s: State)
    requires Reachable(s) && EarlyEnough(s.timers.now)
    ensures var due, tn := DueAt(s.timers, RtcpTimer), s.control.tn * 1000.0;
            && due.Some? && s.timers.now < due.value
            && ((due.value - 1) * 100) as real < tn
            && (tn < 2147483648.0 ==> tn - 1.0 < (due.value * 100) as real)
  {
    TimersFollowLife(s, 0, 0);
    ReachableIsGood(s);
    NotOverdue(s.timers, RtcpTimer);
    hide Reachable, Inv, SeqsOk, AllReportedOk, OutputGood, RenumberOk, DueAt;
  }

  /** When the timer has expired, an attempt is made if and only if the interval drawn now has passed
      since the last one.  If not, the next expiry is scheduled for the end of that interval; if so, for
      the end of another one, drawn with the average size that the attempt left, and the minimum is no
      longer halved.  Either way the timer is due in time. */
  lemma NextAttemptInTime(s: State, wall: Wall)
    requires DueAt(s.timers, RtcpTimer).None? && EarlyEnough(s.timers.now)
    ensures var t, tc := RtcpTimedOut(s, wall), (s.timers.now * 100) as real / 1000.0;
            var interval, due, tn := Drawn(s.control, s.cfg.drand(s.drandAt)), DueAt(t.timers, RtcpTimer), t.control.tn * 1000.0;
            && (|t.out.reports| == |s.out.reports| + 1 <==> s.control.tp + interval <= tc)
            && due.Some? && ((due.value - 1) * 100) as real < tn
            && (tn < 2147483648.0 ==> tn - 1.0 < (due.value * 100) as real)
            && if s.control.tp + interval <= tc then
                 var size := |t.out.reports[|s.out.reports|].message|;
                 var after := s.control.(tp := tc, avgSize := (size as real + 15.0 * s.control.avgSize) / 16.0);
                 var next := tc + Drawn(after, s.cfg.drand(s.drandAt + 1));
                 t.control == after.(tn := next, initial := false) && t.drandAt == s.drandAt + 2
               else t.control == s.control.(tn := s.control.tp + interval) && t.drandAt == s.drandAt + 1
  {
    hide RtcpTimedOut, DueAt, Interval, EarlyEnough, Drawn, SendReport, ReportBlocks, Now;
    EarlyNow(s.timers);
    RtcpTimedOutInTime(s, wall);
    RtcpTimedOutArms(s, wall);
    RtcpTimedOutShape(s, wall);
    IntervalIs(s.control, s.cfg.drand(s.drandAt));
    ScheduledFor(s, wall);
  }

  lemma EarlyNow(t: Timers)
    requires EarlyEnough(t.now)
    ensures Now(t) == (t.now * 100) as real / 1000.0
  {
  }

  lemma ScheduledFor(s: State, wall: Wall)
    ensures var t, interval, tc := RtcpTimedOut(s, wall), Interval(s.control, s.cfg.drand(s.drandAt)), Now(s.timers);
            if s.control.tp + interval <= tc then
              var size := SendReport(s, interval, wall).1;
              var after := s.control.(tp := tc, avgSize := (size as real + 15.0 * s.control.avgSize) / 16.0);
              && t.control == after.(tn := tc + Drawn(after, s.cfg.drand(s.drandAt + 1)), initial := false)
              && t.drandAt == s.drandAt + 2
              && |t.out.reports| == |s.out.reports| + 1 && size == |t.out.reports[|s.out.reports|].message|
            else t.control == s.control.(tn := s.control.tp + interval) && t.drandAt == s.drandAt + 1
  {
    hide Interval, Now, Drawn, Arm, DeltaMillis, ReportBlocks, ReportPackets, ReportMessage;
    var tc, interval, s1 := Now(s.timers), Interval(s.control, s.cfg.drand(s.drandAt)), s.(drandAt := s.drandAt + 1);
    if s.control.tp + interval <= tc {
      var s2, size := ReportNow(s1, tc, interval, wall), SendReport(s, interval, wall).1;
      SmoothedSize(s.control.avgSize, size);
      ReportedNow(s, tc, interval, wall);
      var after := s.control.(tp := tc, avgSize := (size as real + 15.0 * s.control.avgSize) / 16.0);
      hide ReportNow, SendReport;
      assert s2.control == after;
      IntervalIs(after, s.cfg.drand(s.drandAt + 1));
      assert RtcpTimedOut(s, wall) == ScheduleNext(s2, tc);
    }
  }

  lemma ReportedNow(s: State, tc: real, interval: real, wall: Wall)
    ensures var t, (u, size) := ReportNow(s.(drandAt := s.drandAt + 1), tc, interval, wall), SendReport(s, interval, wall);
            && t.control == s.control.(tp := tc, avgSize := (1.0 / 16.0) * size as real + (15.0 / 16.0) * s.control.avgSize)
            && t.drandAt == s.drandAt + 1 && t.cfg == s.cfg && t.timers == s.timers && t.out == u.out
            && |u.out.reports| == |s.out.reports| + 1 && size == |u.out.reports[|s.out.reports|].message|
  {
    hide ReportBlocks, ReportMessage, Now;
    var s1 := s.(drandAt := s.drandAt + 1);
    var blocks := ReportBlocks(s.slots, s.used, ReportRoom(s), wall.dlsr, |s.out.reports|).1;
    assert ReportPackets(s1, blocks, wall) == ReportPackets(s, blocks, wall);
    hide ReportPackets;
    assert SendReport(s1, interval, wall).1 == SendReport(s, interval, wall).1;
  }

  lemma SmoothedSize(avg: real, size: nat)
    ensures (1.0 / 16.0) * size as real + (15.0 / 16.0) * avg == (size as real + 15.0 * avg) / 16.0
  {
  }
}
