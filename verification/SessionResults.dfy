/** The promises of a session, for every run from its initialisation on. */
module SessionResults {
  import opened Words
  import opened SoftTimer
  import opened SessionTimers
  import opened ConflictTable
  import opened RtcpTypes
  import opened RtpSource
  import opened SourceLife
  import opened Session
  import opened SessionInterval
  import opened SessionInvariant
  import opened SessionReports
  import opened SessionHistory
  import opened SessionSteps
  import RtpPacket
  import Codec = RtcpCodec

  // ---------------------------------------------------------------- the beginning

  lemma InitTimers(s: State)
    requires s.used == [0] && s.self == 0 && !s.slots[0].bye && !s.control.weSent && s.conflicts == EMPTY
    requires exists millis :: s.timers == Arm(Flat(TICK_RATE, 0, [], []), RtcpTimer, millis)
    ensures TimersOk(s, {}) && Settled(s.timers)
  {
    var none: Timers := Flat(TICK_RATE, 0, [], []);
    var millis :| s.timers == Arm(none, RtcpTimer, millis);
    forall e ensures TimerOk(s, {}, e) {
      assert DueAt(none, e) == None;
    }
  }

  lemma InitTable(cfg: Config)
    ensures TableOk(Init(cfg)) && CountersOk(Init(cfg))
  {
    hide Arm, Interval, DeltaMillis;
    var s := Init(cfg);
    assert Live(s) == {0} && Speakers(s) == {};
    forall i: Slot ensures i in s.used <==> i !in s.free {
      if i != 0 { assert s.free[i - 1] == i; }
    }
  }

  lemma NoConflicts()
    ensures ConflictsOk(EMPTY, 0)
  {
    assert EMPTY.free == seq(CONFLICT_TABLE_SIZE, i requires 0 <= i < CONFLICT_TABLE_SIZE => i);
    forall j: Entry ensures j in EMPTY.free {
      assert EMPTY.free[j] == j;
    }
  }

  lemma InitInTime(cfg: Config)
    ensures DueInTime(Init(cfg))
  {
    hide Interval, Larger, DeltaMillis, Arm;
    var s := Init(cfg).(timers := Flat(TICK_RATE, 0, [], []));
    var c := Control(0.0, 0.0, 1, 1, 0, cfg.bandwidth, 256.0, false, true);
    IntervalWithin(c, cfg.drand(0));
    assert DueAt(s.timers, RtcpTimer) == None;
    hide DueAt;
    ScheduledInTime(s, 0.0, Interval(c, cfg.drand(0)));
  }

  lemma InitHistory(cfg: Config)
    ensures var s := Init(cfg);
            && s.timers.now == 0 && s.cfg == cfg && s.conflicts == EMPTY
            && SeqsOk(s.slots, None) && AllReportedOk(s.slots, s.out.reports)
            && OutputGood(s) && RenumberOk(s) && SpacingOk(s)
  {
    hide Arm, Interval, DeltaMillis, DueInTime;
    InitInTime(cfg);
  }

  /** The state a session starts in: we alone, with the second random word for our SSRC and the first for our
      first sequence number; one member, no sender, an average of 256 octets, and the first report due after
      a halved interval. */
  lemma InitIs(cfg: Config)
    ensures var s := Init(cfg);
            var me, tn := s.slots[0], Drawn(Control(0.0, 0.0, 1, 1, 0, cfg.bandwidth, 256.0, false, true), cfg.drand(0));
            && s.used == [0] && s.self == 0 && s.numMembers == 1
            && (forall k | 0 <= k < |s.free| :: s.free[k] == k + 1) && |s.free| == 31
            && me.ssrc == cfg.random32(1) && me.isSelf && me.cname == cfg.cname
            && me.rtpAddr == cfg.rtpAddr && me.rtcpAddr == cfg.rtcpAddr && !me.sender && !me.bye && !me.rtpHeard
            && s.control == Control(0.0, tn, 1, 1, 0, cfg.bandwidth, 256.0, false, true)
            && s.seqno == cfg.random32(0) % 0x1_0000 && s.randomAt == 2 && s.drandAt == 1
            && s.txPkts == 0 && s.txOctets == 0 && s.invalidRtp == 0 && s.invalidRtcp == 0
            && s.conflicts.used == [] && s.timers.now == 0 && s.out == Output([], [], [], [], [], NO_TALLY)
  {
    hide Arm, Interval, DeltaMillis, Drawn;
    IntervalIs(Control(0.0, 0.0, 1, 1, 0, cfg.bandwidth, 256.0, false, true), cfg.drand(0));
  }

  lemma InitGood(cfg: Config)
    ensures Good(Init(cfg)) && Init(cfg).timers.now == 0 && Init(cfg).cfg == cfg
  {
    InitTimers(Init(cfg));
    InitTable(cfg);
    NoConflicts();
    InitHistory(cfg);
    hide TableOk, CountersOk, TimersOk, ConflictsOk, Settled, SeqsOk, AllReportedOk, OutputGood, RenumberOk, SpacingOk, Arm, Interval;
  }

  /** The events lead from the initialisation of a session to `s`, and the environment behaves at
      every step. */
  ghost predicate Leads(cfg: Config, events: seq<Event>, s: State)
    decreases |events|
  {
    if events == [] then s == Init(cfg)
    else
      var n := |events| - 1;
      exists before :: Leads(cfg, events[..n], before) && Follows(before, events[n], s)
  }

  ghost predicate Follows(s: State, event: Event, t: State) {
    Settled(s.timers) && Admissible(s, event) && t == Step(s, event)
  }

  ghost predicate Reachable(s: State) {
    exists cfg, events :: Leads(cfg, events, s)
  }

  lemma {:induction false} LeadsToGood(cfg: Config, events: seq<Event>, s: State)
    requires Leads(cfg, events, s)
    ensures Good(s)
    decreases |events|
  {
    hide Good, Init, Admissible, Step, Settled;
    if events == [] {
      InitGood(cfg);
    } else {
      var n := |events| - 1;
      var before :| Leads(cfg, events[..n], before) && Follows(before, events[n], s);
      LeadsToGood(cfg, events[..n], before);
      StepGood(before, events[n]);
    }
  }

  lemma ReachableIsGood(s: State)
    requires Reachable(s)
    ensures Good(s)
  {
    hide Good, Leads;
    var cfg, events :| Leads(cfg, events, s);
    LeadsToGood(cfg, events, s);
  }

  lemma InitReachable(cfg: Config)
    ensures Reachable(Init(cfg))
  {
    hide Init;
    assert Leads(cfg, [], Init(cfg));
  }

  lemma StepReachable(s: State, event: Event)
    requires Reachable(s) && Admissible(s, event)
    ensures Good(s) && Follows(s, event, Step(s, event)) && Reachable(Step(s, event))
  {
    hide Good, Admissible, Step, Settled, Leads;
    ReachableIsGood(s);
    GoodSettled(s);
    var cfg, events :| Leads(cfg, events, s);
    assert Follows(s, event, Step(s, event));
    LeadsFurther(cfg, events, s, event, Step(s, event));
  }

  lemma GoodSettled(s: State)
    requires Good(s)
    ensures Settled(s.timers)
  {
    hide Inv, SeqsOk, AllReportedOk, OutputGood, RenumberOk, SpacingOk, Settled;
  }

  lemma LeadsFurther(cfg: Config, events: seq<Event>, s: State, event: Event, t: State)
    requires Leads(cfg, events, s) && Follows(s, event, t)
    ensures Leads(cfg, events + [event], t)
  {
    hide Follows, Init;
    var longer := events + [event];
    assert longer[..|events|] == events && longer[|events|] == event;
  }

  // ---------------------------------------------------------------- counters

  /** In every reachable state the incrementally maintained counters are plain counts over the
      member table, and neither has ever wrapped around. */
  lemma CountersAreCounts(s: State)
    requires Reachable(s)
    ensures s.control.members == |set i: Slot | i in s.used && !s.slots[i].bye|
    ensures s.control.senders ==
            |set i: Slot | i in s.used && i != s.self && !s.slots[i].bye && s.slots[i].rtpHeard|
            + (if s.control.weSent then 1 else 0)
    ensures 1 <= s.control.members <= 32 && s.control.senders <= 33
    ensures s.numMembers == |s.used| <= 32
  {
    ReachableIsGood(s);
    OneLive(s);
    FewSlots(Live(s));
    FewSlots(Speakers(s));
    NoDupShort(s.used);
  }

  /** In no reachable state does reverse reconsideration do anything: pmembers is still one. */
  lemma ReconsiderationUnreachable(s: State)
    requires Reachable(s)
    ensures s.control.pmembers == 1 && Reconsider(s) == s
  {
    ReachableIsGood(s);
    OneLive(s);
  }

  /** Where it does act, reverse reconsideration moves the last transmission time forward but
      not past the present, and scales the time to the next one by members over pmembers. */
  lemma ReconsiderScales(s: State)
    requires s.control.members < s.control.pmembers && s.control.tp <= Now(s.timers)
    ensures var r, tc := Reconsider(s).control, Now(s.timers);
            var ratio := Ratio(s.control);
            && s.control.tp <= r.tp <= tc
            && r.tn - r.tp == ratio * (s.control.tn - s.control.tp)
            && r.pmembers == r.members == s.control.members
  {
    hide Now, Reconsider, Ratio;
    ReconsiderShape(s);
    RatioBelowOne(s.control);
    var ratio := Ratio(s.control);
    var r := Reconsider(s).control;
    Scaled(ratio, Now(s.timers), s.control.tp, s.control.tn, r.tp, r.tn);
  }

  lemma Scaled(ratio: real, tc: real, tp: real, tn: real, newTp: real, newTn: real)
    requires 0.0 <= ratio <= 1.0 && tp <= tc
    requires newTp == tc - ratio * (tc - tp) && newTn == tc + ratio * (tn - tc)
    ensures tp <= newTp <= tc && newTn - newTp == ratio * (tn - tp)
  {
    var step := Shrink(ratio, tc - tp);
    assert newTp == tc - step;
    assert newTn - newTp == ratio * (tn - tc) + ratio * (tc - tp);
  }

  lemma ReconsiderShape(s: State)
    requires s.control.members < s.control.pmembers
    ensures var r, tc := Reconsider(s).control, Now(s.timers);
            var ratio := Ratio(s.control);
            && r.tn == tc + ratio * (s.control.tn - tc)
            && r.tp == tc - ratio * (tc - s.control.tp)
            && r.pmembers == r.members == s.control.members
  {
    hide Now, Rearm, DeltaMillis, Ratio;
  }

  lemma Shrink(ratio: real, d: real) returns (r: real)
    requires 0.0 <= ratio <= 1.0 && 0.0 <= d
    ensures r == ratio * d && 0.0 <= r <= d
  {
    r := ratio * d;
    assert ratio * d <= 1.0 * d;
  }

  lemma RatioBelowOne(c: Control)
    requires c.members < c.pmembers
    ensures 0.0 <= Ratio(c) < 1.0
  {
    Fraction(Ratio(c), c.members as real, c.pmembers as real);
  }

  lemma Fraction(x: real, a: real, b: real)
    requires 0.0 <= a < b && x == a / b
    ensures 0.0 <= x < 1.0
  {
    assert x * b == a;
    assert x < 0.0 ==> x * b < 0.0;
    assert 1.0 <= x ==> b <= x * b;
  }

  // ---------------------------------------------------------------- ageing

  /** No member outlives its time: between steps the time of its last refreshing packet is less
      than 100 ticks back, that of a sender's last RTP packet less than 50, and that of a BYE
      less than 30. */
  lemma NoneOutlives(s: State, i: Slot)
    requires Good(s) && i in s.used
    ensures !s.slots[i].bye && i != s.self ==> s.timers.now < s.slots[i].hist.refreshed + 100
    ensures !s.slots[i].bye && i != s.self && s.slots[i].rtpHeard ==> s.timers.now < s.slots[i].hist.heard + 50
    ensures i == s.self && s.control.weSent ==> s.timers.now < s.slots[i].hist.heard + 50
    ensures s.slots[i].bye ==> s.timers.now < s.slots[i].hist.left + 30
  {
    hide DueAt;
    forall e | Expected(s, e) && !e.RtcpTimer? ensures s.timers.now < DueTick(s, e) {
      assert TimerOk(s, {}, e);
      NotOverdue(s.timers, e);
    }
    assert Expected(s, MemberTimer(i)) || Expected(s, LeaveTimer(i)) || i == s.self;
    assert Expected(s, SenderTimer(i)) ==> s.timers.now < DueTick(s, SenderTimer(i));
  }

  /** Which timers run, in every reachable state: the RTCP timer always; of another member, its
      member timer while it has not said goodbye, its sender timer while it also sends, and its
      leave timer afterwards; of ourselves the sender timer while we send; of a free slot none; and
      one for every used conflict entry. */
  lemma TimersFollowLife(s: State, i: Slot, j: Entry)
    requires Reachable(s)
    ensures DueAt(s.timers, RtcpTimer).Some?
    ensures DueAt(s.timers, MemberTimer(i)).Some? <==> i in s.used && i != s.self && !s.slots[i].bye
    ensures DueAt(s.timers, SenderTimer(i)).Some? <==>
            i in s.used && !s.slots[i].bye && if i == s.self then s.control.weSent else s.slots[i].rtpHeard
    ensures DueAt(s.timers, LeaveTimer(i)).Some? <==> i in s.used && s.slots[i].bye
    ensures DueAt(s.timers, ConflictTimer(j)).Some? <==> j in s.conflicts.used
  {
    ReachableIsGood(s);
    hide Reachable, TimersOk, TableOk, CountersOk, ConflictsOk, SeqsOk, AllReportedOk, OutputGood, RenumberOk, SpacingOk, DueAt, Settled;
    LifeTimers(s, i, j);
  }

  lemma LifeTimers(s: State, i: Slot, j: Entry)
    requires TimersOk(s, {})
    ensures DueAt(s.timers, RtcpTimer).Some?
    ensures DueAt(s.timers, MemberTimer(i)).Some? <==> i in s.used && i != s.self && !s.slots[i].bye
    ensures DueAt(s.timers, SenderTimer(i)).Some? <==>
            i in s.used && !s.slots[i].bye && if i == s.self then s.control.weSent else s.slots[i].rtpHeard
    ensures DueAt(s.timers, LeaveTimer(i)).Some? <==> i in s.used && s.slots[i].bye
    ensures DueAt(s.timers, ConflictTimer(j)).Some? <==> j in s.conflicts.used
  {
    hide TimersOk, DueAt;
    RunsIfExpected(s, RtcpTimer);
    RunsIfExpected(s, MemberTimer(i));
    RunsIfExpected(s, SenderTimer(i));
    RunsIfExpected(s, LeaveTimer(i));
    RunsIfExpected(s, ConflictTimer(j));
  }

  lemma RunsIfExpected(s: State, e: TimerId)
    requires TimersOk(s, {})
    ensures DueAt(s.timers, e).Some? <==> Expected(s, e)
  {
    hide DueAt, Expected, DueTick;
    assert TimerOk(s, {}, e);
  }

  /** A tick removes a member if and only if its time is up, takes sender status away if and only
      if 50 ticks have passed, and adds nobody. */
  lemma TickIsExact(s: State, wall: Wall)
    requires Good(s)
    ensures var t, now := SessionTick(s, wall), s.timers.now + 1;
            && Good(t)
            && (forall i | i in t.used :: i in s.used)
            && (forall i | i in s.used :: i in t.used <==> !TimeUp(s.slots[i], now))
            && (forall i | i in t.used && i != s.self && !s.slots[i].bye ::
                  t.slots[i].rtpHeard <==> s.slots[i].rtpHeard && s.slots[i].hist.heard + 50 != now)
            && (t.control.weSent <==> s.control.weSent && s.slots[s.self].hist.heard + 50 != now)
            && (forall i | i in t.used :: Aged(s.slots[i], t.slots[i], now))
  {
    TickGood(s, wall);
    var t := SessionTick(s, wall);
    hide SessionTick, AdvanceTimers, TimersOk, CountersOk, ConflictsOk, SeqsOk, AllReportedOk, RenumberOk, SpacingOk;
    forall i | i in t.used
      ensures !TimeUp(s.slots[i], t.timers.now)
      ensures t.slots[i].rtpHeard && i != s.self && !s.slots[i].bye ==> s.slots[i].hist.heard + 50 != t.timers.now
    {
      NoneOutlives(t, i);
    }
    NoneOutlives(t, t.self);
  }

  lemma TickGood(s: State, wall: Wall)
    requires Good(s)
    ensures var t := SessionTick(s, wall);
            Good(t) && Ages(s.(timers := AdvanceTimers(s.timers)), t) && t.timers.now == s.timers.now + 1
  {
    hide Inv, SeqsOk, AllReportedOk, OutputGood, RenumberOk, SpacingOk, SessionTick;
    TickKeeps(s, wall);
    AdvanceHistory(s, s.(timers := AdvanceTimers(s.timers)));
  }

  /** Goodbye is final: whatever arrives afterwards, the member's entry stays as it is for
      exactly 30 ticks after the first BYE. */
  lemma {:induction false} ByeStays(s: State, events: seq<Event>, i: Slot)
    requires Good(s) && Run(s, events) && i in s.used && s.slots[i].bye
    ensures var t := RunEnd(s, events);
            t.timers.now < s.slots[i].hist.left + 30 ==> i in t.used && t.slots[i] == s.slots[i]
    decreases |events|
  {
    hide Inv, SeqsOk, AllReportedOk, OutputGood, RenumberOk, SpacingOk, Quick, Ages, Admissible;
    if events != [] {
      var s1 := Step(s, events[0]);
      StepGood(s, events[0]);
      TimeGoesOn(s1, events[1..]);
      if s1.timers.now < s.slots[i].hist.left + 30 {
        ByeStep(s, events[0], i);
        ByeStays(s1, events[1..], i);
      }
    }
  }

  lemma ByeStep(s: State, event: Event, i: Slot)
    requires Good(s) && Admissible(s, event) && i in s.used && s.slots[i].bye
    requires Step(s, event).timers.now < s.slots[i].hist.left + 30
    ensures i in Step(s, event).used && Step(s, event).slots[i] == s.slots[i]
  {
    StepGood(s, event);
    hide Good, RxRtp, RxRtcp, Tx, SessionTick, Codec.Receive, SeqsOk, AllReportedOk, RenumberOk, SpacingOk, OutputGood;
    match event
    case TimePasses(wall) => TickIsExact(s, wall);
    case RtpArrives(_, _, _) =>
    case RtcpArrives(_, _, _) =>
    case UserSends(_, _, _) =>
  }

  lemma {:induction false} TimeGoesOn(s: State, events: seq<Event>)
    requires Good(s) && Run(s, events)
    ensures s.timers.now <= RunEnd(s, events).timers.now
    decreases |events|
  {
    hide Inv, SeqsOk, AllReportedOk, OutputGood, RenumberOk, SpacingOk, Quick, Ages, Admissible;
    if events != [] {
      StepGood(s, events[0]);
      TimeGoesOn(Step(s, events[0]), events[1..]);
    }
  }

  /** And it is removed in exactly the 30th tick after the first BYE. */
  lemma ByeRemoved(s: State, events: seq<Event>, i: Slot, wall: Wall)
    requires Good(s) && Run(s, events) && i in s.used && s.slots[i].bye
    requires RunEnd(s, events).timers.now + 1 == s.slots[i].hist.left + 30
    ensures i !in SessionTick(RunEnd(s, events), wall).used
  {
    ByeStays(s, events, i);
    TickIsExact(RunEnd(s, events), wall);
  }

  /** No packet that arrives in the run refreshes member `i` or says its goodbye. */
  ghost predicate QuietRun(s: State, events: seq<Event>, i: Slot)
    requires Good(s) && Run(s, events)
    decreases |events|
  {
    events == [] ||
    (StepGood(s, events[0]);
     var s1 := Step(s, events[0]);
     (i in s1.used ==> s1.slots[i].hist.refreshed == s.slots[i].hist.refreshed && !s1.slots[i].bye) &&
     QuietRun(s1, events[1..], i))
  }

  /** A member nobody hears of stays for exactly 100 ticks after its last refreshing packet. */
  lemma {:induction false} QuietMemberStays(s: State, events: seq<Event>, i: Slot)
    requires Good(s) && Run(s, events) && QuietRun(s, events, i) && i in s.used && i != s.self && !s.slots[i].bye
    ensures var t := RunEnd(s, events);
            t.timers.now < s.slots[i].hist.refreshed + 100 ==>
              i in t.used && i != t.self && !t.slots[i].bye && t.slots[i].ssrc == s.slots[i].ssrc
              && t.slots[i].hist.refreshed == s.slots[i].hist.refreshed
    decreases |events|
  {
    hide Inv, SeqsOk, AllReportedOk, OutputGood, RenumberOk, SpacingOk, Quick, Ages, Admissible;
    if events != [] {
      var s1 := Step(s, events[0]);
      StepGood(s, events[0]);
      TimeGoesOn(s1, events[1..]);
      if s1.timers.now < s.slots[i].hist.refreshed + 100 {
        QuietStep(s, events[0], i);
        QuietMemberStays(s1, events[1..], i);
      }
    }
  }

  lemma QuietStep(s: State, event: Event, i: Slot)
    requires Good(s) && Admissible(s, event) && i in s.used && i != s.self && !s.slots[i].bye
    requires Step(s, event).timers.now < s.slots[i].hist.refreshed + 100
    ensures var t := Step(s, event);
            i in t.used && i != t.self && t.slots[i].ssrc == s.slots[i].ssrc
  {
    StepGood(s, event);
    assert s.slots[i].isSelf <==> i == s.self;
    hide Good, RxRtp, RxRtcp, Tx, SessionTick, Codec.Receive, SeqsOk, AllReportedOk, RenumberOk, SpacingOk, OutputGood;
    match event
    case TimePasses(wall) => TickIsExact(s, wall);
    case RtpArrives(_, _, _) =>
    case RtcpArrives(_, _, _) =>
    case UserSends(_, _, _) =>
  }

  lemma QuietMemberRemoved(s: State, events: seq<Event>, i: Slot, wall: Wall)
    requires Good(s) && Run(s, events) && QuietRun(s, events, i) && i in s.used && i != s.self && !s.slots[i].bye
    requires RunEnd(s, events).timers.now + 1 == s.slots[i].hist.refreshed + 100
    ensures i !in SessionTick(RunEnd(s, events), wall).used
  {
    QuietMemberStays(s, events, i);
    var t := RunEnd(s, events);
    assert !t.slots[i].isSelf by { assert TableOk(t); }
    TickIsExact(t, wall);
  }

  /** No RTP packet of member `i` arrives in the run, and it stays in the table. */
  ghost predicate SilentRun(s: State, events: seq<Event>, i: Slot)
    requires Good(s) && Run(s, events)
    decreases |events|
  {
    events == [] ||
    (StepGood(s, events[0]);
     var s1 := Step(s, events[0]);
     i in s1.used && !s1.slots[i].bye && s1.slots[i].hist.heard == s.slots[i].hist.heard &&
     SilentRun(s1, events[1..], i))
  }

  /** A sender is a sender for exactly 50 ticks after its last RTP packet. */
  lemma {:induction false} SilentSender(s: State, events: seq<Event>, i: Slot)
    requires Good(s) && Run(s, events) && SilentRun(s, events, i) && i in s.used && i != s.self && !s.slots[i].bye
    requires s.slots[i].rtpHeard <==> s.timers.now < s.slots[i].hist.heard + 50
    ensures var t := RunEnd(s, events);
            t.slots[i].rtpHeard <==> t.timers.now < s.slots[i].hist.heard + 50
    decreases |events|
  {
    hide Inv, SeqsOk, AllReportedOk, OutputGood, RenumberOk, SpacingOk, Quick, Ages, Admissible;
    if events != [] {
      StepGood(s, events[0]);
      SilentStep(s, events[0], i);
      SilentSender(Step(s, events[0]), events[1..], i);
    }
  }

  lemma SilentStep(s: State, event: Event, i: Slot)
    requires Good(s) && Admissible(s, event) && i in s.used && i != s.self && !s.slots[i].bye
    requires s.slots[i].rtpHeard <==> s.timers.now < s.slots[i].hist.heard + 50
    requires var t := Step(s, event);
             i in t.used && !t.slots[i].bye && t.slots[i].hist.heard == s.slots[i].hist.heard
    ensures var t := Step(s, event);
            && i != t.self
            && (t.slots[i].rtpHeard <==> t.timers.now < t.slots[i].hist.heard + 50)
  {
    StepGood(s, event);
    hide Good, RxRtp, RxRtcp, Tx, SessionTick, SeqsOk, AllReportedOk, RenumberOk, SpacingOk, OutputGood, Codec.Receive;
    match event
    case TimePasses(wall) => TickIsExact(s, wall);
    case RtpArrives(_, _, _) =>
    case RtcpArrives(_, _, _) =>
    case UserSends(_, _, _) =>
  }

  /** The ticks since the user last sent something, if ever. */
  function SinceSend(events: seq<Event>): Option<nat> {
    if events == [] then None
    else
      var before := SinceSend(events[..|events| - 1]);
      match events[|events| - 1]
      case UserSends(_, _, _) => Some(0)
      case TimePasses(_) => if before.Some? then Some(before.value + 1) else None
      case RtpArrives(_, _, _) => before
      case RtcpArrives(_, _, _) => before
  }

  /** We ourselves count as a sender if and only if the user has sent something within the last 50
      ticks, over any run from the initialisation on. */
  lemma {:induction false} OwnSender(cfg: Config, events: seq<Event>, s: State)
    requires Leads(cfg, events, s)
    ensures s.control.weSent <==> SinceSend(events).Some? && SinceSend(events).value < 50
    ensures SinceSend(events).Some? ==> s.slots[s.self].hist.heard + SinceSend(events).value == s.timers.now
    decreases |events|
  {
    hide Good, Admissible, Step, Settled, Init;
    if events == [] {
      InitIsSilent(cfg);
    } else {
      var n := |events| - 1;
      var before :| Leads(cfg, events[..n], before) && Follows(before, events[n], s);
      OwnSender(cfg, events[..n], before);
      LeadsToGood(cfg, events[..n], before);
      OwnSenderStep(before, events[n], s);
    }
  }

  lemma InitIsSilent(cfg: Config)
    ensures !Init(cfg).control.weSent && Init(cfg).control.members == 1 && Init(cfg).used == [0] && Init(cfg).cfg == cfg
  {
    hide Interval, Arm, DeltaMillis;
  }

  lemma OwnSenderStep(s: State, event: Event, t: State)
    requires Good(s) && Follows(s, event, t)
    ensures event.UserSends? ==> t.control.weSent && t.slots[t.self].hist.heard == t.timers.now
    ensures !event.UserSends? ==> t.slots[t.self].hist.heard == s.slots[s.self].hist.heard
    ensures event.RtpArrives? || event.RtcpArrives? ==> t.control.weSent == s.control.weSent && t.timers.now == s.timers.now
    ensures event.TimePasses? ==>
              && t.timers.now == s.timers.now + 1
              && (s.control.weSent ==> s.timers.now < s.slots[s.self].hist.heard + 50)
              && (t.control.weSent <==> s.control.weSent && s.slots[s.self].hist.heard + 50 != t.timers.now)
  {
    StepGood(s, event);
    if event.TimePasses? {
      TickIsExact(s, event.wall);
      NoneOutlives(s, s.self);
    }
    hide Admissible, Step, SeqsOk, AllReportedOk, OutputGood, RenumberOk, SpacingOk, TimersOk, CountersOk, ConflictsOk, Settled;
  }

  // ---------------------------------------------------------------- reports, deliveries, collisions

  /** In every run, as long as the millisecond clock has not wrapped, any two attempts to report keep
      their distance, whether or not their reports fitted the buffer and were sent. */
  lemma {:induction false} ReportsAreSpaced(s: State, j: nat, k: nat)
    requires Reachable(s) && EarlyEnough(s.timers.now) && j < k < |s.out.reports|
    ensures var a, b := s.out.reports[j], s.out.reports[k];
            && 2.5 / 1.21828 <= b.at - a.at
            && 0.5 * Allowed(b.control) / 1.21828 <= b.at - a.at
            && 1 <= Sharers(b.control)
    decreases k
  {
    ReachableIsGood(s);
    assert KeepsDistance(s.out.reports[k - 1], s.out.reports[k]);
    if j < k - 1 {
      ReportsAreSpaced(s, j, k - 1);
    }
  }

  /** In every run, every packet handed to the user came from the address its source was bound to
      when it was last first heard, while the source had not said goodbye; and the first one
      after that hearing is numbered q + 1, where q, below 65535, was checked just before. */
  lemma DeliveriesAreSafe(s: State, d: Delivery)
    requires Reachable(s) && d in s.out.delivered
    ensures d.from == d.source.hist.bound && d.packet.ssrc == d.source.ssrc && !d.source.bye && !d.source.isSelf
    ensures !d.source.hist.delivered ==>
              exists q: u16 :: q < 0xFFFF && d.source.hist.checked == Some(q) && d.packet.seqno == q + 1
  {
    ReachableIsGood(s);
    assert DeliveryGood(d);
    if !d.source.hist.delivered {
      assert d.source.hist.checked == Some(d.source.hist.checked.value);
    }
  }

  /** In every reachable state, a member's reception record is what was found in its slot, changed by
      what has happened to the member since.  The sequence and loss figures of a report on it do not
      depend on what was found there if and only if it has been heard on RTP since its slot was
      allocated, as it has if it counts as a sender; its jitter does not if and only if a packet has
      arrived since and the difference it was found with has died out. */
  lemma FiguresAreOwn(s: State, i: Slot)
    requires Reachable(s)
    ensures var m := s.slots[i];
            var life := m.hist.life;
            && m.src == Life(m.hist.inherited, life)
            && ((forall left: Source :: Report(Life(left, life)).1 == Report(m.src).1) <==> HeardIn(life))
            && (m.rtpHeard ==> HeardIn(life))
            && ((forall left: Source :: Life(left, life).jitter == m.src.jitter) <==>
                  ArrivedIn(life) && Life(Smallest(life), life).jitter == Life(Largest(life), life).jitter)
  {
    ReachableIsGood(s);
    assert SeqOk(s.slots[i]);
    hide Reachable, Inv, SeqsOk, AllReportedOk, OutputGood, RenumberOk, SpacingOk, Report, Life, HeardIn, ArrivedIn, InOrder;
    FiguresOwnIffHeard(s.slots[i].hist.life);
    JitterOwnIffForgotten(s.slots[i].hist.life);
  }

  /** What a new member takes over from the former occupant of its slot: if it joins by RTCP, all the
      figures the next report on it will give; if by RTP, transit time and jitter. */
  lemma NewcomerInherits(s: State, ssrc: u32, seqno: u16, from: Addr, csrc: bool, size: u32)
    requires s.free != []
    ensures var former, byRtcp := s.slots[s.free[0]], JoinByRtcp(s, ssrc, from, size).0.slots[s.free[0]];
            byRtcp.ssrc == ssrc && byRtcp.src == former.src && byRtcp.hist.life == []
    ensures var former, byRtp := s.slots[s.free[0]], JoinByRtp(s, ssrc, seqno, from, csrc).0.slots[s.free[0]];
            && byRtp.ssrc == ssrc && byRtp.hist.inherited == former.src && byRtp.hist.life == [Heard(seqno)]
            && byRtp.src.transit == former.src.transit && byRtp.src.jitter == former.src.jitter
  {
    hide Arm;
  }

  /** The middle 32 bits of a 64-bit NTP timestamp. */
  function MiddleBits(sec: u32, frac: u32): u32 {
    (sec * 0x1_0000_0000 + frac) / 0x1_0000 % 0x1_0000_0000
  }

  /** The report block about a source echoes the middle of its last sender report's timestamp. */
  lemma SenderReportEchoed(s: State, p: RtcpPacket, from: Addr, size: u32, clock: (u32, u32), r: LossReport, dlsr: u32)
    requires Good(s) && Fair(s.cfg.random32) && RtcpForeign(s, from) && p.SenderReport?
    ensures var i := HandleRtcpSsrc(s, p.ssrc, from, size).1;
            i.Some? ==>
              var block := ReportBlock(HandleSr(s, p, from, size, clock).slots[i.value], r, dlsr);
              block.ssrc == p.ssrc && block.lsr == MiddleBits(p.ntpSec, p.ntpFrac)
  {
    HandledIsSource(s, p.ssrc, from, size);
    hide HandleRtcpSsrc, Good, Fair;
    Middle(p.ntpSec, p.ntpFrac);
  }

  lemma HandledIsSource(s: State, ssrc: u32, from: Addr, size: u32)
    requires TableOk(s)
    ensures var (t, i) := HandleRtcpSsrc(s, ssrc, from, size); i.Some? ==> t.slots[i.value].ssrc == ssrc
  {
    hide Arm, Rearm, Collide;
  }

  lemma Middle(sec: u32, frac: u32)
    ensures (sec % 0x1_0000) * 0x1_0000 + frac / 0x1_0000 == MiddleBits(sec, frac)
  {
    var high, low := sec / 0x1_0000, sec % 0x1_0000;
    assert (sec * 0x1_0000_0000 + frac) / 0x1_0000 == sec * 0x1_0000 + frac / 0x1_0000;
    assert sec * 0x1_0000 + frac / 0x1_0000 == high * 0x1_0000_0000 + (low * 0x1_0000 + frac / 0x1_0000);
  }

  /** In every run, the packets we send are numbered consecutively, modulo 65536, and are accepted
      by every receiver of our payload type. */
  lemma SentInSequence(s: State, k: nat)
    requires Reachable(s) && s.cfg.pt < 128 && k < |s.out.sent|
    ensures var r := RtpPacket.Check(s.out.sent[k], s.cfg.pt);
            r.Accepted? && r.packet.seqno == Wrap16(s.cfg.random32(0) + k)
  {
    ReachableIsGood(s);
    hide RtpPacket.Check;
    SentCarries(s, k);
  }

  lemma SentCarries(s: State, k: nat)
    requires OutputGood(s) && s.cfg.pt < 128 && k < |s.out.sent|
    ensures Carries(s.out.sent[k], s.cfg.pt, Wrap16(s.cfg.random32(0) + k))
  {
  }

  /** In every run, every report that fitted the encoder's buffer is accepted by a receiver and
      decoded to exactly the packets that were put in. */
  lemma ReportsAreReadable(s: State, r: ReportSent)
    requires Reachable(s) && r in s.out.reports && r.message != []
    ensures |r.message| <= 256
    ensures Codec.Receive(r.message) == Codec.Compound(Codec.Packets(r.packets))
  {
    ReachableIsGood(s);
    assert ReportReadable(r);
  }

  /** In every run, a report was sent if and only if a block for each other member counted and our name
      fitted 256 octets.  So with ten other members or more none is ever sent. */
  lemma ReportsAreSentIff(s: State, r: ReportSent)
    requires Reachable(s) && r in s.out.reports
    ensures r.message != [] <==> ReportSize(r.control.weSent, r.control.members - 1, |r.seen.slots[r.seen.self].cname|) <= 256
    ensures 11 <= r.control.members ==> r.message == []
  {
    ReachableIsGood(s);
    assert ReportReadable(r);
  }

  /** A datagram with an empty receiver report. */
  function Hello(ssrc: u32): Datagram {
    HelloFits(ssrc);
    Codec.EncodeAll([Codec.Built(ReceiverReport(ssrc, []), None)])
  }

  lemma HelloFits(ssrc: u32)
    ensures var ps := [Codec.Built(ReceiverReport(ssrc, []), None)];
            Codec.AllEncodable(ps) && |Codec.EncodeAll(ps)| == 8
  {
    var p := Codec.Built(ReceiverReport(ssrc, []), None);
    assert |Codec.EncodeContent(p)| == 4;
    hide Codec.EncodeContent;
    assert [p][1..] == [];
  }

  lemma HelloReceived(ssrc: u32)
    ensures Codec.Receive(Hello(ssrc)) == Codec.Compound([ReceiverReport(ssrc, [])])
  {
    HelloFits(ssrc);
    var p := Codec.Built(ReceiverReport(ssrc, []), None);
    hide Codec.Receive, Codec.EncodeAll, Codec.AllEncodable, Codec.AllReadable;
    Codec.SmallIsReadable([p]);
    Codec.CompoundRoundTrip([p]);
    assert [p][1..] == [];
  }

  /** A receiver report from an unknown source adds a member. */
  lemma HelloJoins(s: State, ssrc: u32, from: Addr, clock: (u32, u32))
    requires Good(s) && Fair(s.cfg.random32) && from != s.cfg.rtcpAddr && ssrc !in Ssrcs(s) && |s.used| < 32
    ensures var event := RtcpArrives(Hello(ssrc), from, clock);
            && Admissible(s, event)
            && Step(s, event).control.members == s.control.members + 1 && |Step(s, event).used| == |s.used| + 1
            && Step(s, event).cfg == s.cfg
  {
    HelloReceived(ssrc);
    FewSlots(Live(s));
    Partition(s.used, s.free);
    SmallIsItself(s.control.members + 1);
    UnknownSource(s.(rtcpStatus := RtcpNoError), ssrc);
    hide Good, Hello, Codec.Receive, Fair, RxRtcp, Admissible, CompoundForeign, Wrap32;
    HelloAdmissible(s, ssrc, from, clock);
    HelloHandled(s, ssrc, from, |Hello(ssrc)|, clock);
  }

  lemma HelloAdmissible(s: State, ssrc: u32, from: Addr, clock: (u32, u32))
    requires Fair(s.cfg.random32) && from != s.cfg.rtcpAddr
    requires Codec.Receive(Hello(ssrc)) == Codec.Compound([ReceiverReport(ssrc, [])])
    ensures Admissible(s, RtcpArrives(Hello(ssrc), from, clock))
  {
    hide Hello, Codec.Receive, Fair, HandleRtcp;
    var rr, s1, size := ReceiverReport(ssrc, []), s.(rtcpStatus := RtcpNoError), |Hello(ssrc)|;
    assert [rr][0] == rr && [rr][1..] == [];
    assert ByeForeign(s1, rr) && ByesForeign(HandleRtcp(s1, rr, from, size, clock), [], from, size, clock);
    assert ByesForeign(s1, [rr], from, size, clock);
  }

  lemma HelloHandled(s: State, ssrc: u32, from: Addr, size: u32, clock: (u32, u32))
    requires Lookup(s.(rtcpStatus := RtcpNoError), ssrc) == None && s.free != []
    ensures var t := RxRtcp(s, Codec.Compound([ReceiverReport(ssrc, [])]), from, size, clock);
            t.control.members == Wrap32(s.control.members + 1) && |t.used| == |s.used| + 1 && t.cfg == s.cfg
  {
    hide Lookup, Arm, Fresh, Wrap32, Averaged;
    var rr := ReceiverReport(ssrc, []);
    assert [rr][0] == rr && [rr][1..] == [];
    var s1 := s.(rtcpStatus := RtcpNoError);
    assert HandleRtcpSsrc(s1, ssrc, from, size) == JoinByRtcp(s1, ssrc, from, size);
    JoinedCounts(s1, ssrc, from, size);
    hide JoinByRtcp, HandleRtcpSsrc;
    var t := HandleRr(s1, rr, from, size);
    assert HandleAll(s1, [rr], from, size, clock) == HandleAll(t, [], from, size, clock) == t;
  }

  lemma JoinedCounts(s: State, ssrc: u32, from: Addr, size: u32)
    requires s.free != []
    ensures var (t, i) := JoinByRtcp(s, ssrc, from, size);
            i.Some? && t.control.members == Wrap32(s.control.members + 1) && |t.used| == |s.used| + 1 && t.cfg == s.cfg
  {
    hide Arm, Fresh;
  }

  lemma UnknownSource(s: State, ssrc: u32)
    requires ssrc !in Ssrcs(s)
    ensures Lookup(s, ssrc) == None
  {
  }

  /** A session with any number of other members, up to 31, is reached by as many datagrams. */
  lemma {:induction false} Crowd(cfg: Config, from: Addr, clock: (u32, u32), n: nat) returns (events: seq<Event>, s: State)
    requires Fair(cfg.random32) && from != cfg.rtcpAddr && n < 32
    ensures Leads(cfg, events, s) && s.cfg == cfg && s.control.members == n + 1 && |s.used| == n + 1
  {
    if n == 0 {
      events, s := [], Init(cfg);
      InitIsSilent(cfg);
    } else {
      var earlier, before := Crowd(cfg, from, clock, n - 1);
      LeadsToGood(cfg, earlier, before);
      SsrcsFew(before.slots, before.used);
      assert Escapes(cfg.random32, 0, Ssrcs(before));
      var k: nat :| cfg.random32(k) !in Ssrcs(before);
      var event := RtcpArrives(Hello(cfg.random32(k)), from, clock);
      HelloJoins(before, cfg.random32(k), from, clock);
      s := Step(before, event);
      assert Settled(before.timers);
      hide Good, Step, Admissible, Hello, Init;
      LeadsFurther(cfg, earlier, before, event, s);
      events := earlier + [event];
    }
  }

  lemma GoodCounted(s: State)
    requires Good(s)
    ensures NoDup(s.used) && |Others(s.slots, s.used)| == s.control.members - 1
  {
    hide SeqsOk, AllReportedOk, OutputGood, RenumberOk, SpacingOk, TimersOk, ConflictsOk, Settled, Others;
    OthersCounted(s);
  }

  /** An input for which a report is never sent: ten others have joined.  All their interval counters
      are moved on. */
  lemma TenOthersSilenceUs(cfg: Config, from: Addr, clock: (u32, u32), interval: real, wall: Wall)
      returns (events: seq<Event>, s: State)
    requires Fair(cfg.random32) && from != cfg.rtcpAddr
    ensures Leads(cfg, events, s) && |Others(s.slots, s.used)| == 10
    ensures var (t, sent) := SendReport(s, interval, wall);
            sent == 0 && forall i | i in Others(s.slots, s.used) :: t.slots[i] == Evolve(s.slots[i], Summed(|s.out.reports|))
  {
    hide Leads, Others, ReportBlocks, ReportPackets, ReportMessage, Good, Fair, Codec.AllCounted;
    events, s := Crowd(cfg, from, clock, 10);
    LeadsToGood(cfg, events, s);
    GoodCounted(s);
    ReportSentIff(s, interval, wall);
  }

  /** The conflict table is a cache: in every reachable state an address is found exactly if it
      was entered or found within the last 50 ticks. */
  lemma ConflictsAreCached(s: State, addr: Addr)
    requires Reachable(s)
    ensures LookupAddr(s.conflicts, s.timers, addr).2 <==>
            addr in s.conflicts.touched && s.timers.now < s.conflicts.touched[addr] + 50
  {
    ReachableIsGood(s);
    CacheMeans(s, addr);
  }

  lemma CacheMeans(s: State, addr: Addr)
    requires TimersOk(s, {}) && ConflictsOk(s.conflicts, s.timers.now) && Settled(s.timers)
    ensures LookupAddr(s.conflicts, s.timers, addr).2 <==>
            addr in s.conflicts.touched && s.timers.now < s.conflicts.touched[addr] + 50
  {
    hide DueAt, Rearm, Settled;
    var c := s.conflicts;
    var found := Find(c.addrs, c.used, addr);
    if found.Some? {
      assert TimerOk(s, {}, ConflictTimer(found.value));
      NotOverdue(s.timers, ConflictTimer(found.value));
    } else {
      assert !Held(c, addr);
    }
  }

  /** Our own SSRC changes because of an address only after the address has been quiet for 50 ticks:
      every change comes at least 50 ticks after the last time the address was entered into the
      conflict table or found in it; and once a change has entered it, there is such a time, not
      before that change. */
  lemma RenumberedSeldom(s: State, j: nat, k: nat)
    requires Reachable(s) && j <= k < |s.out.renumbered|
    requires s.out.renumbered[j].addr == s.out.renumbered[k].addr
    ensures var first, last := s.out.renumbered[j], s.out.renumbered[k];
            && (last.before.Some? ==> last.before.value + 50 <= last.tick)
            && (j < k && first.recorded ==> last.before.Some? && first.tick <= last.before.value)
  {
    ReachableIsGood(s);
  }

  /** A packet with our SSRC from a foreign address changes our SSRC if and only if the address was not
      touched within the last 50 ticks.  If it does not, all that changes is the time of the last
      touch; if it does, the new SSRC is used by nobody and the address is entered unless the table is
      full. */
  lemma CollisionRenumbersIff(s: State, from: Addr)
    requires Good(s) && Fair(s.cfg.random32)
    ensures var (t, isNew) := Collide(s, s.self, from);
            && (isNew <==> !(from in s.conflicts.touched && s.timers.now < s.conflicts.touched[from] + 50))
            && (!isNew ==>
                  && t == s.(conflicts := t.conflicts, timers := t.timers)
                  && t.conflicts == s.conflicts.(touched := s.conflicts.touched[from := s.timers.now]))
            && (isNew ==>
                  && t.slots[s.self].ssrc !in Ssrcs(s)
                  && t.out.renumbered ==
                     s.out.renumbered + [Renumbering(from, s.timers.now, LastTouch(s, from), s.conflicts.free != [])]
                  && t.conflicts.touched ==
                     if s.conflicts.free != [] then s.conflicts.touched[from := s.timers.now] else s.conflicts.touched)
  {
    hide SeqsOk, AllReportedOk, OutputGood, RenumberOk, SpacingOk;
    CacheMeans(s, from);
    if Find(s.conflicts.addrs, s.conflicts.used, from).Some? {
      KnownCollisionShape(s, from);
      hide Collide;
    } else {
      NewCollisionShape(s, from);
      NewSsrcIsFresh(s, from);
      hide Collide, Arm;
    }
  }

  lemma NewSsrcIsFresh(s: State, from: Addr)
    requires TableOk(s) && Fair(s.cfg.random32) && Find(s.conflicts.addrs, s.conflicts.used, from).None?
    ensures Collide(s, s.self, from).0.slots[s.self].ssrc !in Ssrcs(s)
    ensures Collide(s, s.self, from).1
  {
    var (c1, t1, recorded) := AddAddr(s.conflicts, s.timers, from);
    RenumberIsFresh(s.(conflicts := c1, timers := t1), s.self);
    hide Renumber, Arm;
  }

  /** At every point of the run the address was touched less than 50 ticks before. */
  ghost predicate LoopingRun(s: State, events: seq<Event>, addr: Addr)
    requires Good(s) && Run(s, events)
    decreases |events|
  {
    && addr in s.conflicts.touched && s.timers.now < s.conflicts.touched[addr] + 50
    && (events != [] ==> (StepGood(s, events[0]); LoopingRun(Step(s, events[0]), events[1..], addr)))
  }

  /** Over any run in which a looping source is never quiet for 50 ticks, it does not change our SSRC
      again. */
  lemma {:induction false} LooperRenumbersOnce(s: State, events: seq<Event>, addr: Addr)
    requires Good(s) && Run(s, events) && LoopingRun(s, events, addr)
    ensures var was, later := s.out.renumbered, RunEnd(s, events).out.renumbered;
            && |was| <= |later| && later[..|was|] == was
            && forall k | |was| <= k < |later| :: later[k].addr != addr
    decreases |events|
  {
    hide Inv, SeqsOk, AllReportedOk, OutputGood, RenumberingsOk, SpacingOk, Tickless, Quick, Ages, Admissible;
    if events != [] {
      StepGood(s, events[0]);
      LoopingStep(s, events[0], addr);
      LooperRenumbersOnce(Step(s, events[0]), events[1..], addr);
      var was, mid, later := s.out.renumbered, Step(s, events[0]).out.renumbered, RunEnd(s, events).out.renumbered;
      assert later[..|was|] == mid[..|was|];
      forall k | |was| <= k < |later| ensures later[k].addr != addr {
        assert k < |mid| ==> later[k] == mid[k];
      }
    }
  }

  lemma LoopingStep(s: State, event: Event, addr: Addr)
    requires Good(s) && Admissible(s, event)
    requires addr in s.conflicts.touched && s.timers.now < s.conflicts.touched[addr] + 50
    ensures var was, later := s.out.renumbered, Step(s, event).out.renumbered;
            && |was| <= |later| && later[..|was|] == was
            && forall k | |was| <= k < |later| :: later[k].addr != addr
  {
    hide Inv, SeqsOk, AllReportedOk, OutputGood, SpacingOk, RenumberOk, Renumbers, Step, Admissible, MembersKept, MembersAged, AdvanceTimers;
    StepGood(s, event);
    var t := Step(s, event);
    if event.TimePasses? {
      assert t.out.renumbered == s.out.renumbered;
    } else {
      NoneByLooper(s, t, addr);
    }
  }

  lemma NoneByLooper(s: State, t: State, addr: Addr)
    requires Renumbers(s, t) && RenumberOk(t) && t.timers.now == s.timers.now
    requires addr in s.conflicts.touched && s.timers.now < s.conflicts.touched[addr] + 50
    ensures var was, later := s.out.renumbered, t.out.renumbered;
            && |was| <= |later| && later[..|was|] == was
            && forall k | |was| <= k < |later| :: later[k].addr != addr
  {
  }

  /** No two members ever share an SSRC, and the slots in use and the free ones partition the
      table. */
  lemma TableIsPartitioned(s: State)
    requires Reachable(s)
    ensures forall i: Slot :: i in s.used <==> i !in s.free
    ensures |s.used| + |s.free| == 32
    ensures forall i, j | i in s.used && j in s.used && i != j :: s.slots[i].ssrc != s.slots[j].ssrc
  {
    ReachableIsGood(s);
    Partition(s.used, s.free);
  }

  /** The conflict table holds up to sixteen addresses, each once. */
  lemma ConflictsArePartitioned(s: State)
    requires Reachable(s)
    ensures |s.conflicts.used| + |s.conflicts.free| == 16
    ensures forall j, k | j in s.conflicts.used && k in s.conflicts.used && j != k :: s.conflicts.addrs[j] != s.conflicts.addrs[k]
  {
    hide Reachable, TimersOk, CountersOk, TableOk, SeqsOk, AllReportedOk, OutputGood, RenumberOk, SpacingOk;
    ReachableIsGood(s);
    EntriesPartition(s.conflicts.used, s.conflicts.free);
  }

  lemma EntriesPartition(used: seq<Entry>, free: seq<Entry>)
    requires NoDup(used) && NoDup(free) && forall j: Entry :: j in used <==> j !in free
    ensures |used| + |free| == CONFLICT_TABLE_SIZE
  {
    NoDupAsSet(used);
    NoDupAsSet(free);
    assert AsSet(used) + AsSet(free) == SlotsBelow(CONFLICT_TABLE_SIZE);
    assert AsSet(used) !! AsSet(free);
  }

  lemma Partition(used: seq<Slot>, free: seq<Slot>)
    requires NoDup(used) && NoDup(free) && forall i: Slot :: i in used <==> i !in free
    ensures |used| + |free| == MAX_MEMBERS
  {
    NoDupAsSet(used);
    NoDupAsSet(free);
    assert AsSet(used) + AsSet(free) == SlotsBelow(MAX_MEMBERS);
    assert AsSet(used) !! AsSet(free);
  }

  // ---------------------------------------------------------------- the end

  lemma {:induction false} DisarmMembersMeans(t: Timers, members: seq<Slot>)
    ensures forall e :: DueAt(DisarmMembers(t, members), e) ==
                        if (e.MemberTimer? || e.SenderTimer? || e.LeaveTimer?) && e.slot in members then None else DueAt(t, e)
    decreases |members|
  {
    hide DueAt, Disarm;
    if members != [] {
      var i := members[0];
      DisarmMembersMeans(Disarm(Disarm(Disarm(t, MemberTimer(i)), SenderTimer(i)), LeaveTimer(i)), members[1..]);
    }
  }

  lemma {:induction false} DisarmConflictsMeans(t: Timers, entries: seq<Entry>)
    ensures forall e :: DueAt(DisarmConflicts(t, entries), e) ==
                        if e.ConflictTimer? && e.entry in entries then None else DueAt(t, e)
    decreases |entries|
  {
    hide DueAt, Disarm;
    if entries != [] {
      DisarmConflictsMeans(Disarm(t, ConflictTimer(entries[0])), entries[1..]);
    }
  }

  /** Tearing a session down leaves no timer armed: every timer belongs to the session, a used
      member or a used conflict entry. */
  lemma DeinitDisarmsAll(s: State)
    requires Reachable(s)
    ensures Deinit(s).timers.armed == []
  {
    ReachableIsGood(s);
    DeinitMeans(s);
    NoneArmed(Deinit(s).timers);
  }

  lemma DeinitMeans(s: State)
    requires TimersOk(s, {})
    ensures forall e :: DueAt(Deinit(s).timers, e) == None
  {
    hide DueAt, Disarm, DisarmMembers, DisarmConflicts;
    var t1 := Disarm(s.timers, RtcpTimer);
    DisarmMembersMeans(t1, s.used);
    DisarmConflictsMeans(DisarmMembers(t1, s.used), s.conflicts.used);
    forall e ensures DueAt(Deinit(s).timers, e) == None {
      assert TimerOk(s, {}, e);
    }
  }

  lemma NoneArmed(t: Timers)
    requires forall e :: DueAt(t, e) == None
    ensures t.armed == []
  {
    assert t.armed != [] ==> DueAt(t, t.armed[0].elem).Some?;
  }
}
