/**
 What every step of a session keeps: the member table, the counters the RTCP interval is
 computed from, the timers of every member, and the conflict table.
 */
module SessionInvariant {
  import opened Words
  import opened SoftTimer
  import opened SessionTimers
  import opened ConflictTable
  import opened RtpSource
  import opened Session

  // ---------------------------------------------------------------- the invariant

  ghost predicate NoDup<T>(s: seq<T>) {
    forall i, j | 0 <= i < j < |s| :: s[i] != s[j]
  }

  /** Used and free slots partition the table, we are in it, and no two used slots share an SSRC. */
  ghost predicate TableOk(s: State) {
    && NoDup(s.used) && NoDup(s.free)
    && (forall i: Slot :: i in s.used <==> i !in s.free)
    && s.numMembers == |s.used|
    && s.self in s.used && !s.slots[s.self].bye && !s.slots[s.self].rtpHeard
    && s.slots[s.self].rtpAddr == s.cfg.rtpAddr && s.slots[s.self].rtcpAddr == s.cfg.rtcpAddr
    && (forall i | i in s.used :: s.slots[i].isSelf <==> i == s.self)
    && (forall i, j | i in s.used && j in s.used && i != j :: s.slots[i].ssrc != s.slots[j].ssrc)
  }

  /** The members that have not said goodbye. */
  ghost function Live(s: State): set<Slot> {
    LiveIn(s.slots, s.used)
  }

  ghost function LiveIn(slots: Slots, used: seq<Slot>): set<Slot> {
    set i: Slot | i in used && !slots[i].bye
  }

  /** The other members currently known to send RTP. */
  ghost function Speakers(s: State): set<Slot> {
    SpeakersIn(s.slots, s.used, s.self)
  }

  ghost function SpeakersIn(slots: Slots, used: seq<Slot>, self: Slot): set<Slot> {
    set i: Slot | i in used && i != self && !slots[i].bye && slots[i].rtpHeard
  }

  /** The incrementally updated counters are plain counts over the table. */
  ghost predicate CountersOk(s: State) {
    && s.control.members == |Live(s)|
    && s.control.senders == |Speakers(s)| + (if s.control.weSent then 1 else 0)
    && s.control.pmembers == 1
    && s.slots[s.self].sender == s.control.weSent
  }

  /** Which timers run. */
  ghost predicate Expected(s: State, e: TimerId) {
    match e
    case RtcpTimer => true
    case MemberTimer(i) => i in s.used && i != s.self && !s.slots[i].bye
    case SenderTimer(i) =>
      i in s.used && !s.slots[i].bye && (if i == s.self then s.control.weSent else s.slots[i].rtpHeard)
    case LeaveTimer(i) => i in s.used && s.slots[i].bye
    case ConflictTimer(j) => j in s.conflicts.used
  }

  /** When they are due, in terms of what was last heard. */
  ghost function DueTick(s: State, e: TimerId): nat {
    match e
    case RtcpTimer => 0
    case MemberTimer(i) => s.slots[i].hist.refreshed + 100
    case SenderTimer(i) => s.slots[i].hist.heard + 50
    case LeaveTimer(i) => s.slots[i].hist.left + 30
    case ConflictTimer(j) =>
      var addr := s.conflicts.addrs[j];
      if addr in s.conflicts.touched then s.conflicts.touched[addr] + 50 else 0
  }

  /** `firing` are the timers that have just been taken out to be handled. */
  ghost predicate TimersOk(s: State, firing: set<TimerId>) {
    forall e :: TimerOk(s, firing, e)
  }

  ghost predicate TimerOk(s: State, firing: set<TimerId>, e: TimerId) {
    var due := DueAt(s.timers, e);
    if Expected(s, e) && e !in firing then due.Some? && (e.RtcpTimer? || due.value == DueTick(s, e))
    else due.None?
  }

  ghost predicate Held(c: Conflicts, addr: Addr) {
    exists j :: j in c.used && c.addrs[j] == addr
  }

  ghost predicate ConflictsOk(c: Conflicts, now: nat) {
    && NoDup(c.used) && NoDup(c.free)
    && (forall j: Entry :: j in c.used <==> j !in c.free)
    && (forall i, j | i in c.used && j in c.used && i != j :: c.addrs[i] != c.addrs[j])
    && (forall j | j in c.used :: c.addrs[j] in c.touched)
    && (forall addr | addr in c.touched :: Held(c, addr) || c.touched[addr] + 50 <= now)
  }

  ghost predicate Inv(s: State, firing: set<TimerId>) {
    && TableOk(s)
    && CountersOk(s)
    && TimersOk(s, firing)
    && ConflictsOk(s.conflicts, s.timers.now)
  }

  // ---------------------------------------------------------------- counting

  ghost function SlotsBelow(n: nat): (r: set<Slot>)
    requires n <= MAX_MEMBERS
    ensures |r| == n
    ensures forall i: Slot :: i in r <==> i < n
  {
    if n == 0 then {} else SlotsBelow(n - 1) + {n - 1}
  }

  lemma {:induction false} SubsetSize<T>(a: set<T>, b: set<T>)
    requires a <= b
    ensures |a| <= |b|
  {
    if a != {} {
      var x :| x in a;
      SubsetSize(a - {x}, b - {x});
    }
  }

  lemma FewSlots(a: set<Slot>)
    ensures |a| <= MAX_MEMBERS
  {
    SubsetSize(a, SlotsBelow(MAX_MEMBERS));
  }

  lemma {:induction false} RemoveNoDup<T(!new)>(s: seq<T>, e: T)
    requires NoDup(s)
    ensures NoDup(Remove(s, e))
    ensures |Remove(s, e)| == if e in s then |s| - 1 else |s|
  {
    if s != [] {
      RemoveNoDup(s[1..], e);
      var rest := Remove(s[1..], e);
      if s[0] == e {
        assert e !in s[1..];
        RemoveAbsent(s[1..], e);
        assert Remove(s, e) == s[1..];
      } else {
        assert Remove(s, e) == [s[0]] + rest;
        assert s[0] !in s[1..];
        assert s[0] !in rest;
      }
    }
  }

  /** Distinct slots in a list are at most as many as there are slots. */
  lemma {:induction false} NoDupSize(used: seq<Slot>, all: set<Slot>)
    requires NoDup(used) && forall i | i in used :: i in all
    ensures |used| <= |all|
  {
    if used != [] {
      assert forall i | i in used[1..] :: i in all - {used[0]};
      NoDupSize(used[1..], all - {used[0]});
    }
  }

  lemma NoDupShort(used: seq<Slot>)
    requires NoDup(used)
    ensures |used| <= MAX_MEMBERS
  {
    NoDupSize(used, SlotsBelow(MAX_MEMBERS));
  }

  ghost function AsSet(s: seq<Slot>): set<Slot> {
    set i | i in s
  }

  lemma {:induction false} NoDupAsSet(s: seq<Slot>)
    requires NoDup(s)
    ensures |AsSet(s)| == |s|
  {
    if s != [] {
      NoDupAsSet(s[1..]);
      assert s[0] !in s[1..];
      assert AsSet(s) == AsSet(s[1..]) + {s[0]};
    }
  }

  lemma JoinSets(slots: Slots, used: seq<Slot>, self: Slot, i: Slot, m: Member)
    requires i !in used && i != self && !m.bye
    ensures LiveIn(slots[i := m], used + [i]) == LiveIn(slots, used) + {i}
    ensures SpeakersIn(slots[i := m], used + [i], self) == SpeakersIn(slots, used, self) + if m.rtpHeard then {i} else {}
    ensures i !in LiveIn(slots, used) && i !in SpeakersIn(slots, used, self)
  {
  }

  lemma UpdateSets(slots: Slots, used: seq<Slot>, self: Slot, i: Slot, m: Member)
    requires i in used && i != self
    ensures LiveIn(slots[i := m], used) == if m.bye then LiveIn(slots, used) - {i} else LiveIn(slots, used) + {i}
    ensures SpeakersIn(slots[i := m], used, self) ==
            if !m.bye && m.rtpHeard then SpeakersIn(slots, used, self) + {i} else SpeakersIn(slots, used, self) - {i}
    ensures i in LiveIn(slots, used) <==> !slots[i].bye
    ensures i in SpeakersIn(slots, used, self) <==> !slots[i].bye && slots[i].rtpHeard
  {
  }

  lemma PlusOne<T>(a: set<T>, x: T)
    ensures |a + {x}| == |a| + if x in a then 0 else 1
    ensures |a - {x}| == |a| - if x in a then 1 else 0
  {
    if x in a {
      assert a + {x} == a;
    } else {
      assert a - {x} == a;
    }
  }

  lemma Plus<T>(a: set<T>, x: T)
    requires x !in a
    ensures |a + {x}| == |a| + 1 && |a + {}| == |a|
  {
    assert a + {} == a;
  }

  lemma UpdateSizes(slots: Slots, used: seq<Slot>, self: Slot, i: Slot, n: Member)
    requires i in used && i != self
    ensures var m := slots[i];
            && |LiveIn(slots[i := n], used)| == |LiveIn(slots, used)| + (if n.bye then 0 else 1) - (if m.bye then 0 else 1)
            && |SpeakersIn(slots[i := n], used, self)| ==
               |SpeakersIn(slots, used, self)| + (if !n.bye && n.rtpHeard then 1 else 0) - (if !m.bye && m.rtpHeard then 1 else 0)
    ensures |LiveIn(slots[i := n], used)| <= 32 && |SpeakersIn(slots[i := n], used, self)| <= 32
  {
    hide LiveIn, SpeakersIn;
    UpdateSets(slots, used, self, i, n);
    PlusOne(LiveIn(slots, used), i);
    PlusOne(SpeakersIn(slots, used, self), i);
    FewSlots(LiveIn(slots[i := n], used));
    FewSlots(SpeakersIn(slots[i := n], used, self));
  }

  lemma RemoveSets(slots: Slots, used: seq<Slot>, self: Slot, i: Slot)
    requires i in used && i != self
    ensures LiveIn(slots, Remove(used, i)) == LiveIn(slots, used) - {i}
    ensures SpeakersIn(slots, Remove(used, i), self) == SpeakersIn(slots, used, self) - {i}
    ensures i in LiveIn(slots, used) <==> !slots[i].bye
    ensures i in SpeakersIn(slots, used, self) <==> !slots[i].bye && slots[i].rtpHeard
  {
  }

  // ---------------------------------------------------------------- steps that change nothing that counts

  ghost predicate SameMember(m: Member, n: Member) {
    && m.ssrc == n.ssrc && m.isSelf == n.isSelf && m.bye == n.bye && m.rtpHeard == n.rtpHeard && m.sender == n.sender
    && m.rtpAddr == n.rtpAddr && m.rtcpAddr == n.rtcpAddr
    && m.hist.refreshed == n.hist.refreshed && m.hist.heard == n.hist.heard && m.hist.left == n.hist.left
  }

  ghost predicate Same(s: State, t: State) {
    && s.timers == t.timers && s.used == t.used && s.free == t.free && s.numMembers == t.numMembers
    && s.self == t.self && s.conflicts == t.conflicts && s.cfg == t.cfg
    && s.control.members == t.control.members && s.control.senders == t.control.senders
    && s.control.pmembers == t.control.pmembers && s.control.weSent == t.control.weSent
    && (forall i: Slot :: SameMember(s.slots[i], t.slots[i]))
  }

  lemma SameKeeps(s: State, t: State, firing: set<TimerId>)
    requires Inv(s, firing) && Same(s, t)
    ensures Inv(t, firing)
  {
    assert Live(t) == Live(s);
    assert Speakers(t) == Speakers(s);
    forall e ensures TimerOk(t, firing, e) {
      assert TimerOk(s, firing, e);
      assert e.MemberTimer? || e.SenderTimer? || e.LeaveTimer? ==> SameMember(s.slots[e.slot], t.slots[e.slot]);
    }
  }

  // ---------------------------------------------------------------- table and counters

  lemma AllocTable(s: State, ssrc: u32)
    requires TableOk(s) && s.free != [] && forall i | i in s.used :: s.slots[i].ssrc != ssrc
    ensures TableOk(Alloc(s, ssrc))
    ensures s.free[0] !in s.used
  {
    var t := Alloc(s, ssrc);
    assert s.free[0] in s.free;
    NoDupShort(t.used);
  }

  lemma JoinTable(s: State, ssrc: u32, t: State)
    requires TableOk(s) && s.free != [] && forall i | i in s.used :: s.slots[i].ssrc != ssrc
    requires var a := Alloc(s, ssrc); var i := s.free[0];
             && t.slots == a.slots[i := t.slots[i]] && t.used == a.used && t.free == a.free && t.self == s.self
             && t.cfg == s.cfg
             && t.numMembers == a.numMembers
             && t.slots[i].ssrc == ssrc && !t.slots[i].isSelf
    ensures TableOk(t)
  {
    AllocTable(s, ssrc);
  }

  lemma JoinCounters(s: State, t: State, i: Slot)
    requires TableOk(s) && CountersOk(s) && i !in s.used
    requires t.used == s.used + [i] && t.self == s.self && t.slots == s.slots[i := t.slots[i]] && !t.slots[i].bye
    requires t.control.members == Wrap32(s.control.members + 1)
    requires t.control.senders == Wrap32(s.control.senders + if t.slots[i].rtpHeard then 1 else 0)
    requires t.control.weSent == s.control.weSent && t.control.pmembers == s.control.pmembers
    ensures CountersOk(t)
  {
    hide LiveIn, SpeakersIn, Wrap32;
    var m := t.slots[i];
    JoinSets(s.slots, s.used, s.self, i, m);
    FewSlots(Live(t));
    FewSlots(Speakers(t));
    Plus(Live(s), i);
    Plus(Speakers(s), i);
    SmallIsItself(s.control.members + 1);
    SmallIsItself(s.control.senders + if m.rtpHeard then 1 else 0);
  }

  /** One other member's entry changes, and the counters follow. */
  lemma UpdateCounters(s: State, t: State, i: Slot)
    requires TableOk(s) && CountersOk(s) && i in s.used && i != s.self
    requires t.used == s.used && t.self == s.self && t.slots == s.slots[i := t.slots[i]]
    requires var m, n := s.slots[i], t.slots[i];
             && t.control.members == Wrap32(s.control.members + (if n.bye then 0 else 1) - (if m.bye then 0 else 1))
             && t.control.senders == Wrap32(s.control.senders + (if !n.bye && n.rtpHeard then 1 else 0)
                                                              - (if !m.bye && m.rtpHeard then 1 else 0))
    requires t.control.weSent == s.control.weSent && t.control.pmembers == s.control.pmembers
    ensures CountersOk(t)
  {
    hide LiveIn, SpeakersIn, Wrap32;
    UpdateSizes(s.slots, s.used, s.self, i, t.slots[i]);
    SmallIsItself(|Live(t)|);
    SmallIsItself(|Speakers(t)| + if t.control.weSent then 1 else 0);
  }

  lemma UpdateTable(s: State, t: State, i: Slot)
    requires TableOk(s)
    requires t.used == s.used && t.free == s.free && t.self == s.self && t.numMembers == s.numMembers
    requires t.cfg == s.cfg
    requires t.slots == s.slots[i := t.slots[i]]
    requires t.slots[i].ssrc == s.slots[i].ssrc && t.slots[i].isSelf == s.slots[i].isSelf
    requires i == s.self ==> !t.slots[i].bye && !t.slots[i].rtpHeard
    requires i == s.self ==> t.slots[i].rtpAddr == s.slots[i].rtpAddr && t.slots[i].rtcpAddr == s.slots[i].rtcpAddr
    ensures TableOk(t)
  {
  }

  /** At least two live members: ourselves and `i`. */
  lemma TwoLive(s: State, i: Slot)
    requires TableOk(s) && CountersOk(s) && i in s.used && i != s.self && !s.slots[i].bye
    ensures 2 <= s.control.members
    ensures s.slots[i].rtpHeard ==> 1 <= s.control.senders
  {
    SubsetSize({s.self, i}, Live(s));
    if s.slots[i].rtpHeard {
      assert i in Speakers(s);
    }
  }

  lemma OneLive(s: State)
    requires TableOk(s) && CountersOk(s)
    ensures 1 <= s.control.members
  {
    assert s.self in Live(s);
  }

  /** pmembers starts at one and is never raised, so it never exceeds members: in every state
      the program can reach, reverse reconsideration does nothing. */
  lemma ReconsiderIsIdle(s: State)
    requires s.control.pmembers == 1 && 1 <= s.control.members
    ensures Reconsider(s) == s
  {
  }

  lemma LeaveIsCounting(s: State, i: Slot)
    requires TableOk(s) && CountersOk(s) && i in s.used && i != s.self && !s.slots[i].bye
    ensures Leave(s, true, s.slots[i].rtpHeard) == s.(control := CountOut(s.control, true, s.slots[i].rtpHeard))
  {
    TwoLive(s, i);
    ReconsiderIsIdle(s.(control := CountOut(s.control, true, s.slots[i].rtpHeard)));
  }

  // ---------------------------------------------------------------- what each step does to the timers

  lemma JoinByRtpTimers(s: State, ssrc: u32, seqno: u16, from: Addr, csrc: bool)
    requires TimersOk(s, {}) && s.free != [] && s.free[0] !in s.used && s.self in s.used
    ensures TimersOk(JoinByRtp(s, ssrc, seqno, from, csrc).0, {})
  {
    hide Arm, Delay, InitSeq, DueAt;
    TimeoutTicks();
    forall e ensures TimerOk(JoinByRtp(s, ssrc, seqno, from, csrc).0, {}, e) {
      assert TimerOk(s, {}, e);
    }
  }

  lemma FirstRtpTimers(s: State, i: Slot, seqno: u16, from: Addr)
    requires TimersOk(s, {}) && i in s.used && i != s.self && !s.slots[i].bye && !s.slots[i].rtpHeard
    ensures TimersOk(FirstRtp(s, i, seqno, from), {})
  {
    hide Arm, Rearm, Delay, InitSeq, DueAt;
    TimeoutTicks();
    forall e ensures TimerOk(FirstRtp(s, i, seqno, from), {}, e) {
      assert TimerOk(s, {}, e);
    }
  }

  lemma RefreshByRtpTimers(s: State, i: Slot)
    requires TimersOk(s, {}) && i in s.used && i != s.self && !s.slots[i].bye
    ensures TimersOk(RefreshByRtp(s, i), {})
  {
    hide Rearm, Delay, DueAt;
    TimeoutTicks();
    forall e ensures TimerOk(RefreshByRtp(s, i), {}, e) {
      assert TimerOk(s, {}, e);
    }
  }

  lemma JoinByRtcpTimers(s: State, ssrc: u32, from: Addr, size: u32)
    requires TimersOk(s, {}) && s.free != [] && s.free[0] !in s.used && s.self in s.used
    ensures TimersOk(JoinByRtcp(s, ssrc, from, size).0, {})
  {
    hide Arm, Delay, DueAt;
    TimeoutTicks();
    forall e ensures TimerOk(JoinByRtcp(s, ssrc, from, size).0, {}, e) {
      assert TimerOk(s, {}, e);
    }
  }

  lemma RefreshByRtcpTimers(s: State, i: Slot, from: Addr)
    requires TimersOk(s, {}) && i in s.used && i != s.self && !s.slots[i].bye
    ensures TimersOk(RefreshByRtcp(s, i, from), {})
  {
    hide Rearm, Delay, DueAt;
    TimeoutTicks();
    forall e ensures TimerOk(RefreshByRtcp(s, i, from), {}, e) {
      assert TimerOk(s, {}, e);
    }
  }

  lemma ByeOneTimers(s: State, i: Slot)
    requires TimersOk(s, {}) && i in s.used && i != s.self && !s.slots[i].bye
    requires Leave(s, true, s.slots[i].rtpHeard) == s.(control := CountOut(s.control, true, s.slots[i].rtpHeard))
    ensures TimersOk(ByeOne(s, i), {})
  {
    hide Arm, Disarm, Delay, DueAt, Leave;
    TimeoutTicks();
    forall e ensures TimerOk(ByeOne(s, i), {}, e) {
      assert TimerOk(s, {}, e);
    }
  }

  lemma DeallocTimers(s: State, i: Slot, fired: TimerId)
    requires TimersOk(s, {fired}) && (fired == LeaveTimer(i) || fired == MemberTimer(i))
    ensures TimersOk(Dealloc(s, i), {})
  {
    hide Disarm, DueAt;
    forall e ensures TimerOk(Dealloc(s, i), {}, e) {
      assert TimerOk(s, {fired}, e);
    }
  }

  lemma SenderTimedOutTimers(s: State, t: State, i: Slot)
    requires TimersOk(s, {SenderTimer(i)})
    requires t.timers == s.timers && t.used == s.used && t.self == s.self && t.conflicts == s.conflicts
    requires t.slots == s.slots[i := s.slots[i].(rtpHeard := false, sender := t.slots[i].sender)]
    requires t.control.weSent == if i == s.self then false else s.control.weSent
    ensures TimersOk(t, {})
  {
    hide DueAt;
    forall e ensures TimerOk(t, {}, e) {
      assert TimerOk(s, {SenderTimer(i)}, e);
    }
  }

  lemma ConflictTimedOutTimers(s: State, j: Entry)
    requires TimersOk(s, {ConflictTimer(j)})
    ensures TimersOk(ConflictTimedOut(s, j), {})
  {
    hide DueAt;
    forall e ensures TimerOk(ConflictTimedOut(s, j), {}, e) {
      assert TimerOk(s, {ConflictTimer(j)}, e);
    }
  }

  /** Only the RTCP timer is touched. */
  lemma RtcpTimerOnly(s: State, t: State, firing: set<TimerId>)
    requires TimersOk(s, firing) && (firing == {} || firing == {RtcpTimer})
    requires t.used == s.used && t.self == s.self && t.conflicts == s.conflicts && t.control.weSent == s.control.weSent
    requires forall i: Slot :: SameMember(s.slots[i], t.slots[i])
    requires forall e :: e != RtcpTimer ==> DueAt(t.timers, e) == DueAt(s.timers, e)
    requires DueAt(t.timers, RtcpTimer).Some?
    ensures TimersOk(t, {})
  {
    hide DueAt;
    forall e ensures TimerOk(t, {}, e) {
      assert TimerOk(s, firing, e);
      assert e.MemberTimer? || e.SenderTimer? || e.LeaveTimer? ==> SameMember(s.slots[e.slot], t.slots[e.slot]);
    }
  }

  lemma SelfSenderTimers(s: State, t: State)
    requires TimersOk(s, {}) && s.self in s.used && !s.slots[s.self].bye
    requires t.used == s.used && t.self == s.self && t.conflicts == s.conflicts && t.control.weSent
    requires t.timers == Rearm(s.timers, SenderTimer(s.self), SENDER_TIMEOUT)
    requires var m := s.slots[s.self];
             t.slots == s.slots[s.self := m.(sender := true, hist := m.hist.(heard := s.timers.now))]
    ensures TimersOk(t, {})
  {
    hide Rearm, Delay, DueAt;
    TimeoutTicks();
    forall e ensures TimerOk(t, {}, e) {
      assert TimerOk(s, {}, e);
    }
  }

  // ---------------------------------------------------------------- RTP steps

  lemma JoinByRtpKeeps(s: State, ssrc: u32, seqno: u16, from: Addr, csrc: bool)
    requires Inv(s, {}) && s.free != [] && forall i | i in s.used :: s.slots[i].ssrc != ssrc
    ensures Inv(JoinByRtp(s, ssrc, seqno, from, csrc).0, {})
  {
    hide TimersOk, Arm, ConflictsOk;
    var t := JoinByRtp(s, ssrc, seqno, from, csrc).0;
    AllocTable(s, ssrc);
    JoinTable(s, ssrc, t);
    JoinCounters(s, t, s.free[0]);
    JoinByRtpTimers(s, ssrc, seqno, from, csrc);
  }

  lemma FirstRtpKeeps(s: State, i: Slot, seqno: u16, from: Addr)
    requires Inv(s, {}) && i in s.used && i != s.self && !s.slots[i].bye && !s.slots[i].rtpHeard
    ensures Inv(FirstRtp(s, i, seqno, from), {})
  {
    hide TimersOk, Arm, Rearm, ConflictsOk;
    var t := FirstRtp(s, i, seqno, from);
    UpdateTable(s, t, i);
    UpdateCounters(s, t, i);
    FirstRtpTimers(s, i, seqno, from);
  }

  lemma RefreshByRtpKeeps(s: State, i: Slot)
    requires Inv(s, {}) && i in s.used && i != s.self && !s.slots[i].bye && s.slots[i].rtpHeard
    ensures Inv(RefreshByRtp(s, i), {})
  {
    hide TimersOk, Rearm, ConflictsOk;
    var t := RefreshByRtp(s, i);
    UpdateTable(s, t, i);
    UpdateCounters(s, t, i);
    RefreshByRtpTimers(s, i);
  }

  // ---------------------------------------------------------------- RTCP steps

  lemma JoinByRtcpKeeps(s: State, ssrc: u32, from: Addr, size: u32)
    requires Inv(s, {}) && s.free != [] && forall i | i in s.used :: s.slots[i].ssrc != ssrc
    ensures Inv(JoinByRtcp(s, ssrc, from, size).0, {})
  {
    hide TimersOk, Arm, ConflictsOk;
    var t := JoinByRtcp(s, ssrc, from, size).0;
    AllocTable(s, ssrc);
    JoinTable(s, ssrc, t);
    JoinCounters(s, t, s.free[0]);
    JoinByRtcpTimers(s, ssrc, from, size);
  }

  lemma RefreshByRtcpKeeps(s: State, i: Slot, from: Addr)
    requires Inv(s, {}) && i in s.used && i != s.self && !s.slots[i].bye
    ensures Inv(RefreshByRtcp(s, i, from), {})
  {
    hide TimersOk, Rearm, ConflictsOk;
    var t := RefreshByRtcp(s, i, from);
    UpdateTable(s, t, i);
    UpdateCounters(s, t, i);
    RefreshByRtcpTimers(s, i, from);
  }

  lemma ByeOneKeeps(s: State, i: Slot)
    requires Inv(s, {}) && i in s.used && i != s.self && !s.slots[i].bye
    ensures Inv(ByeOne(s, i), {})
  {
    hide TimersOk, Arm, Disarm, ConflictsOk, Leave;
    LeaveIsCounting(s, i);
    TwoLive(s, i);
    var t := ByeOne(s, i);
    UpdateTable(s, t, i);
    UpdateCounters(s, t, i);
    ByeOneTimers(s, i);
  }

  // ---------------------------------------------------------------- expiry steps

  lemma DeallocTable(s: State, i: Slot)
    requires TableOk(s) && i in s.used && i != s.self
    ensures TableOk(Dealloc(s, i))
  {
    hide Disarm;
    RemoveNoDup(s.used, i);
    NoDupShort(s.used);
  }

  lemma LeaveTimedOutKeeps(s: State, i: Slot)
    requires Inv(s, {LeaveTimer(i)}) && i in s.used && s.slots[i].bye
    ensures Inv(Dealloc(s, i), {})
  {
    hide TimersOk, Disarm, ConflictsOk;
    DeallocTable(s, i);
    RemoveSets(s.slots, s.used, s.self, i);
    DeallocTimers(s, i, LeaveTimer(i));
  }

  lemma MemberTimedOutKeeps(s: State, i: Slot)
    requires Inv(s, {MemberTimer(i)}) && i in s.used && i != s.self && !s.slots[i].bye
    ensures Inv(MemberTimedOut(s, i), {})
  {
    LeaveIsCounting(s, i);
    var s1 := s.(control := CountOut(s.control, true, s.slots[i].rtpHeard));
    DeallocOnly(s1, i);
    hide TableOk, CountersOk, TimersOk, ConflictsOk, Leave, Dealloc, CountOut;
    TableIgnoresCounters(s, s1);
    DeallocTable(s1, i);
    TimedOutCounters(s, i);
    CountingTimers(s, s1, {MemberTimer(i)});
    DeallocTimers(s1, i, MemberTimer(i));
  }

  lemma DeallocOnly(s: State, i: Slot)
    ensures var t := Dealloc(s, i);
            && t.slots == s.slots && t.used == Remove(s.used, i) && t.self == s.self && t.control == s.control
            && t.conflicts == s.conflicts && t.timers.now == s.timers.now
  {
    hide Disarm;
  }

  lemma TableIgnoresCounters(s: State, t: State)
    requires TableOk(s) && t == s.(control := t.control)
    ensures TableOk(t)
  {
  }

  lemma RemoveSizes(slots: Slots, used: seq<Slot>, self: Slot, i: Slot)
    requires i in used && i != self && !slots[i].bye
    ensures |LiveIn(slots, Remove(used, i))| == |LiveIn(slots, used)| - 1
    ensures |SpeakersIn(slots, Remove(used, i), self)| == |SpeakersIn(slots, used, self)| - if slots[i].rtpHeard then 1 else 0
    ensures |LiveIn(slots, used)| <= 32 && |SpeakersIn(slots, used, self)| <= 32
  {
    hide LiveIn, SpeakersIn, Remove;
    RemoveSets(slots, used, self, i);
    PlusOne(LiveIn(slots, used), i);
    PlusOne(SpeakersIn(slots, used, self), i);
    FewSlots(LiveIn(slots, used));
    FewSlots(SpeakersIn(slots, used, self));
  }

  lemma TimedOutCounters(s: State, i: Slot)
    requires TableOk(s) && CountersOk(s) && i in s.used && i != s.self && !s.slots[i].bye
    ensures CountersOk(Dealloc(s.(control := CountOut(s.control, true, s.slots[i].rtpHeard)), i))
  {
    hide TableOk, LiveIn, SpeakersIn, Dealloc, Wrap32, Remove;
    var d := if s.slots[i].rtpHeard then 1 else 0;
    TwoLive(s, i);
    DeallocOnly(s.(control := CountOut(s.control, true, s.slots[i].rtpHeard)), i);
    RemoveSizes(s.slots, s.used, s.self, i);
    SmallIsItself(s.control.members - 1);
    SmallIsItself(s.control.senders - d);
  }

  lemma CountingTimers(s: State, t: State, firing: set<TimerId>)
    requires TimersOk(s, firing)
    requires t == s.(control := t.control) && t.control.weSent == s.control.weSent
    ensures TimersOk(t, firing)
  {
    hide DueAt;
    forall e ensures TimerOk(t, firing, e) {
      assert TimerOk(s, firing, e);
    }
  }

  lemma SenderTimedOutKeeps(s: State, i: Slot)
    requires Inv(s, {SenderTimer(i)}) && Expected(s, SenderTimer(i))
    ensures Inv(SenderTimedOut(s, i), {})
  {
    hide TimersOk, ConflictsOk;
    OneLive(s);
    var t := SenderTimedOut(s, i);
    if i == s.self {
      assert Live(t) == Live(s) && Speakers(t) == Speakers(s);
    } else {
      TwoLive(s, i);
      UpdateCounters(s, t, i);
    }
    UpdateTable(s, t, i);
    SenderTimedOutTimers(s, t, i);
  }

  lemma ExpireConflict(c: Conflicts, j: Entry, now: nat)
    requires ConflictsOk(c, now) && j in c.used && c.touched[c.addrs[j]] + 50 <= now
    ensures ConflictsOk(Expire(c, j), now)
  {
    var d := Expire(c, j);
    RemoveNoDup(c.used, j);
    forall addr | addr in d.touched ensures Held(d, addr) || d.touched[addr] + 50 <= now {
      if k :| k in c.used && c.addrs[k] == addr {
        assert k == j || k in d.used;
      }
    }
  }

  lemma ConflictTimedOutKeeps(s: State, j: Entry)
    requires Inv(s, {ConflictTimer(j)}) && j in s.conflicts.used
    requires DueTick(s, ConflictTimer(j)) <= s.timers.now
    ensures Inv(ConflictTimedOut(s, j), {})
  {
    hide TimersOk, LiveIn, SpeakersIn;
    ExpireConflict(s.conflicts, j, s.timers.now);
    ConflictTimedOutTimers(s, j);
  }

  // ---------------------------------------------------------------- collisions

  lemma TouchConflict(c: Conflicts, j: Entry, now: nat)
    requires ConflictsOk(c, now) && j in c.used
    ensures ConflictsOk(c.(touched := c.touched[c.addrs[j] := now]), now)
  {
    var d := c.(touched := c.touched[c.addrs[j] := now]);
    assert Held(d, c.addrs[j]);
    forall addr | addr in d.touched && addr != c.addrs[j] ensures Held(d, addr) || d.touched[addr] + 50 <= now {
      assert Held(c, addr) ==> Held(d, addr);
    }
  }

  lemma AddConflict(c: Conflicts, t: Timers, addr: Addr)
    requires ConflictsOk(c, t.now) && forall j | j in c.used :: c.addrs[j] != addr
    ensures ConflictsOk(AddAddr(c, t, addr).0, t.now)
  {
    hide Arm;
    if c.free != [] {
      var d, j := AddAddr(c, t, addr).0, c.free[0];
      assert j in c.free;
      assert Held(d, addr) by { assert j in d.used; }
      forall a | a in d.touched && a != addr ensures Held(d, a) || d.touched[a] + 50 <= t.now {
        if k :| k in c.used && c.addrs[k] == a {
          assert k in d.used && d.addrs[k] == a;
        }
      }
    }
  }

  lemma TouchTimers(s: State, t: State, j: Entry)
    requires TimersOk(s, {}) && ConflictsOk(s.conflicts, s.timers.now) && j in s.conflicts.used
    requires var c := s.conflicts;
             t == s.(conflicts := c.(touched := c.touched[c.addrs[j] := s.timers.now]),
                     timers := Rearm(s.timers, ConflictTimer(j), CONFLICT_TIMEOUT))
    ensures TimersOk(t, {})
  {
    hide Rearm, Delay, DueAt;
    TimeoutTicks();
    forall e ensures TimerOk(t, {}, e) {
      assert TimerOk(s, {}, e);
    }
  }

  lemma AddTimers(s: State, addr: Addr)
    requires TimersOk(s, {}) && ConflictsOk(s.conflicts, s.timers.now)
    requires forall j | j in s.conflicts.used :: s.conflicts.addrs[j] != addr
    ensures var (c, t, _) := AddAddr(s.conflicts, s.timers, addr); TimersOk(s.(conflicts := c, timers := t), {})
  {
    hide Arm, Delay, DueAt;
    TimeoutTicks();
    if s.conflicts.free != [] {
      assert s.conflicts.free[0] in s.conflicts.free;
    }
    var (c, t, _) := AddAddr(s.conflicts, s.timers, addr);
    forall e ensures TimerOk(s.(conflicts := c, timers := t), {}, e) {
      assert TimerOk(s, {}, e);
    }
  }

  lemma {:induction false} SsrcsFew(slots: Slots, used: seq<Slot>)
    ensures |set i | i in used :: slots[i].ssrc| <= |used|
  {
    if used != [] {
      SsrcsFew(slots, used[1..]);
      var rest := set i | i in used[1..] :: slots[i].ssrc;
      var all := set i | i in used :: slots[i].ssrc;
      assert all == rest + {slots[used[0]].ssrc};
    }
  }

  /** The retry loop finds an SSRC that nobody in the table uses. */
  lemma RenumberIsFresh(s: State, i: Slot)
    requires TableOk(s) && Fair(s.cfg.random32) && i in s.used
    ensures Renumber(s, i).slots[i].ssrc !in Ssrcs(s)
    ensures Renumber(s, i).slots == s.slots[i := s.slots[i].(ssrc := Renumber(s, i).slots[i].ssrc)]
    ensures Renumber(s, i) == s.(slots := Renumber(s, i).slots, randomAt := Renumber(s, i).randomAt)
  {
    SsrcsFew(s.slots, s.used);
    NoDupShort(s.used);
    assert Escapes(s.cfg.random32, s.randomAt, Ssrcs(s));
  }

  lemma RenumberKeeps(s: State)
    requires Inv(s, {}) && Fair(s.cfg.random32)
    ensures Inv(Renumber(s, s.self), {})
  {
    hide ConflictsOk;
    RenumberIsFresh(s, s.self);
    hide Renumber, DueAt;
    var t := Renumber(s, s.self);
    forall i, j | i in t.used && j in t.used && i != j ensures t.slots[i].ssrc != t.slots[j].ssrc {
      assert s.slots[i].ssrc in Ssrcs(s) && s.slots[j].ssrc in Ssrcs(s);
    }
    assert Live(t) == Live(s) && Speakers(t) == Speakers(s);
    forall e ensures TimerOk(t, {}, e) {
      assert TimerOk(s, {}, e);
    }
  }

  lemma KnownCollisionKeeps(s: State, from: Addr)
    requires Inv(s, {}) && Find(s.conflicts.addrs, s.conflicts.used, from).Some?
    ensures Inv(Collide(s, s.self, from).0, {})
  {
    KnownCollisionShape(s, from);
    hide TableOk, CountersOk, TimersOk, ConflictsOk, Rearm, Collide, Find;
    var j, t := Find(s.conflicts.addrs, s.conflicts.used, from).value, Collide(s, s.self, from).0;
    TouchConflict(s.conflicts, j, s.timers.now);
    TouchTimers(s, t, j);
    TableIgnoresConflicts(s, t);
  }

  lemma TableIgnoresConflicts(s: State, t: State)
    requires TableOk(s) && CountersOk(s) && t == s.(conflicts := t.conflicts, timers := t.timers)
    ensures TableOk(t) && CountersOk(t)
  {
  }

  /** A collision with a known address only restarts its quiet time. */
  lemma KnownCollisionShape(s: State, from: Addr)
    requires Find(s.conflicts.addrs, s.conflicts.used, from).Some?
    ensures var c, j := s.conflicts, Find(s.conflicts.addrs, s.conflicts.used, from).value;
            Collide(s, s.self, from) ==
            (s.(conflicts := c.(touched := c.touched[c.addrs[j] := s.timers.now]),
                timers := Rearm(s.timers, ConflictTimer(j), CONFLICT_TIMEOUT)), false)
  {
    hide Rearm;
  }

  lemma NewCollisionKeeps(s: State, from: Addr)
    requires Inv(s, {}) && Fair(s.cfg.random32) && Find(s.conflicts.addrs, s.conflicts.used, from).None?
    ensures Inv(Collide(s, s.self, from).0, {})
  {
    AddConflict(s.conflicts, s.timers, from);
    AddTimers(s, from);
    hide TimersOk, LiveIn, SpeakersIn, Renumber, AddAddr, SameMember;
    var (c1, t1, _) := AddAddr(s.conflicts, s.timers, from);
    var s1 := s.(conflicts := c1, timers := t1);
    assert t1.now == s.timers.now by { AddAddrNow(s.conflicts, s.timers, from); }
    RenumberKeeps(s1);
    SameMemberRefl(Renumber(s1, s.self).slots);
    SameKeeps(Renumber(s1, s.self), Collide(s, s.self, from).0, {});
  }

  lemma AddAddrNow(c: Conflicts, t: Timers, addr: Addr)
    ensures AddAddr(c, t, addr).1.now == t.now
  {
  }

  lemma SameMemberRefl(slots: Slots)
    ensures forall i: Slot :: SameMember(slots[i], slots[i])
  {
  }

  lemma CollideKeeps(s: State, from: Addr)
    requires Inv(s, {}) && Fair(s.cfg.random32)
    ensures Inv(Collide(s, s.self, from).0, {})
  {
    hide Inv, Collide;
    if Find(s.conflicts.addrs, s.conflicts.used, from).Some? {
      KnownCollisionKeeps(s, from);
    } else {
      NewCollisionKeeps(s, from);
    }
  }
}
