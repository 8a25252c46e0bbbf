/**
 What a received RTCP datagram does: what becomes of the entries of the members it comes from, describes or
 says goodbye for, who joins, and what the user is told.
 */
module SessionFeedback {
  import opened Words
  import opened SoftTimer
  import opened SessionTimers
  import opened ConflictTable
  import opened RtcpTypes
  import opened Session
  import opened SessionInvariant
  import opened SessionHistory
  import opened SessionSteps
  import opened SessionResults
  import opened SessionMentions
  import opened SessionReception
  import opened SessionJoining
  import Codec = RtcpCodec

  // ---------------------------------------------------------------- the source of a packet

  /** An entry listens to an address on RTCP: it has not said goodbye and, once heard, is bound to it. */
  predicate ListensTo(m: Member, from: Addr) {
    !m.bye && (m.rtcpHeard ==> m.rtcpAddr == from)
  }

  function HeardNow(m: Member, from: Addr, now: nat): Member {
    m.(rtcpHeard := true, rtcpAddr := from, hist := m.hist.(refreshed := now))
  }

  /** A slot that a source enters which was not known. */
  function EnteredByRtcp(former: Member, ssrc: u32, from: Addr, now: nat): Member {
    former.(ssrc := ssrc, isSelf := false, rtpHeard := false, rtcpHeard := true, bye := false, validated := false,
            sender := false, csrc := false, rtcpAddr := from, cname := [], lastSr := (0, 0), lastSrAt := (0, 0),
            hist := former.hist.(inherited := former.src, life := [], refreshed := now))
  }

  /** The average packet size after a packet of `size` octets. */
  function Smoothed(c: Control, size: u32): Control {
    c.(avgSize := (size as real + 15.0 * c.avgSize) / 16.0)
  }

  lemma AveragedIs(c: Control, size: u32)
    ensures Averaged(c, size as real) == Smoothed(c, size)
  {
  }

  /** A source that is known. */
  lemma KnownSource(s: State, from: Addr, size: u32, i: Slot)
    requires TableOk(s) && i in s.used && i != s.self
    ensures var m, (t, r) := s.slots[i], HandleRtcpSsrc(s, s.slots[i].ssrc, from, size);
            && r == (if ListensTo(m, from) then Some(i) else None)
            && t == s.(slots := t.slots, timers := t.timers, control := t.control, rtcpStatus := t.rtcpStatus)
            && t.slots == s.slots[i := if ListensTo(m, from) then HeardNow(m, from, s.timers.now) else m]
            && t.control == (if ListensTo(m, from) && m.rtcpHeard then Smoothed(s.control, size) else s.control)
            && t.rtcpStatus == (if m.bye then RtcpByeInProgress
                                else if !m.rtcpHeard then RtcpFirstHeard
                                else if m.rtcpAddr != from then RtcpThirdParty
                                else RtcpNoError)
            && t.timers.now == s.timers.now
  {
    hide Arm, Rearm, Collide, Averaged;
    FoundIsOnly(s, s.slots[i].ssrc, i);
    AveragedIs(s.control, size);
    hide Lookup;
  }

  /** A source that nothing is known of enters the first free slot, if there is one. */
  lemma UnknownSourceEnters(s: State, ssrc: u32, from: Addr, size: u32)
    requires Unknown(s, ssrc)
    ensures var (t, r) := HandleRtcpSsrc(s, ssrc, from, size);
            if s.free == [] then t == s.(rtcpStatus := RtcpAllocFailed) && r == None
            else
              var i := s.free[0];
              && r == Some(i) && t.used == s.used + [i] && t.free == s.free[1..]
              && t.slots == s.slots[i := EnteredByRtcp(s.slots[i], ssrc, from, s.timers.now)]
              && t.control == Smoothed(s.control.(members := (s.control.members + 1) % 0x1_0000_0000), size)
              && t.rtcpStatus == RtcpFirstHeard && t.out == s.out && t.conflicts == s.conflicts
  {
    hide Arm, Averaged;
    NobodyFound(s, ssrc);
    AveragedIs(s.control.(members := Wrap32(s.control.members + 1)), size);
    hide Lookup;
  }

  /** Our own SSRC from another address: as on RTP. */
  lemma OwnSource(s: State, from: Addr, size: u32)
    requires Good(s) && Fair(s.cfg.random32) && RtcpForeign(s, from)
    ensures var (t, r) := HandleRtcpSsrc(s, s.slots[s.self].ssrc, from, size);
            && r == None && OwnSsrcHeard(s, t, from)
            && t.rtcpStatus == if Recent(s, from) then RtcpInConflictList else RtcpSsrcConflict
  {
    hide SeqsOk, AllReportedOk, OutputGood, RenumberOk, SpacingOk, Fair, TimersOk, CountersOk, ConflictsOk, OwnSsrcHeard, Collide, Recent;
    FoundIsOnly(s, s.slots[s.self].ssrc, s.self);
    OwnCollides(s, from);
    StatusAside(s, Collide(s, s.self, from).0, HandleRtcpSsrc(s, s.slots[s.self].ssrc, from, size).0, from);
  }

  // ---------------------------------------------------------------- goodbye

  ghost function Leaving(s: State, ssrcs: seq<u32>): set<Slot> {
    set i: Slot | i in s.used && !s.slots[i].bye && s.slots[i].ssrc in ssrcs
  }

  ghost function Speaking(s: State, slots: set<Slot>): set<Slot> {
    set i | i in slots && s.slots[i].rtpHeard
  }

  function Left(m: Member, now: nat): Member {
    m.(bye := true, hist := m.hist.(left := now))
  }

  predicate TimerOf(e: TimerId, i: Slot) {
    e == MemberTimer(i) || e == SenderTimer(i) || e == LeaveTimer(i)
  }

  /** Of the timers of these members only the leave timer runs, for 30 ticks; all others run as before. */
  ghost predicate TimersLeft(t: Timers, u: Timers, leaving: set<Slot>) {
    && u.now == t.now
    && (forall i: Slot | i in leaving :: OnlyLeaveRuns(u, i, t.now + 30))
    && (forall e | NotOf(e, leaving) :: DueAt(u, e) == DueAt(t, e))
  }

  ghost predicate NotOf(e: TimerId, leaving: set<Slot>) {
    forall i: Slot | i in leaving :: !TimerOf(e, i)
  }

  ghost predicate OnlyLeaveRuns(t: Timers, i: Slot, due: nat) {
    DueAt(t, LeaveTimer(i)) == Some(due) && DueAt(t, MemberTimer(i)) == None && DueAt(t, SenderTimer(i)) == None
  }

  /** These members leave: each is marked and counted out, and only its leave timer runs; all else stays as
      it is. */
  ghost predicate HaveLeft(s: State, t: State, leaving: set<Slot>) {
    && t == s.(slots := t.slots, timers := t.timers, control := t.control)
    && TimersLeft(s.timers, t.timers, leaving)
    && t.control == s.control.(members := t.control.members, senders := t.control.senders)
    && t.control.members == s.control.members - |leaving|
    && t.control.senders == s.control.senders - |Speaking(s, leaving)|
    && (forall i: Slot :: t.slots[i] == if i in leaving then Left(s.slots[i], s.timers.now) else s.slots[i])
  }

  lemma OneLeaves(s: State, i: Slot)
    requires Inv(s, {}) && i in s.used && i != s.self && !s.slots[i].bye
    ensures HaveLeft(s, ByeOne(s, i), {i})
  {
    hide TimersOk, ConflictsOk, Leave, TimersLeft, ByeOne, HaveLeft;
    LeaveIsCounting(s, i);
    TwoLive(s, i);
    LeaveIdle(s, i);
    hide TableOk, CountersOk;
    OneLeavesTimers(s, i);
    OneLeavesTable(s, i);
  }

  lemma OneLeavesTable(s: State, i: Slot)
    requires Leave(s, true, s.slots[i].rtpHeard) == s.(control := CountOut(s.control, true, s.slots[i].rtpHeard))
    requires 1 <= s.control.members && (s.slots[i].rtpHeard ==> 1 <= s.control.senders)
    requires TimersLeft(s.timers, ByeOne(s, i).timers, {i})
    ensures HaveLeft(s, ByeOne(s, i), {i})
  {
    hide Leave, Arm, Disarm, TimersLeft;
    assert Speaking(s, {i}) == if s.slots[i].rtpHeard then {i} else {};
    assert ByeOne(s, i).slots == s.slots[i := Left(s.slots[i], s.timers.now)];
  }

  lemma OneLeavesTimers(s: State, i: Slot)
    requires Leave(s, true, s.slots[i].rtpHeard) == s.(control := CountOut(s.control, true, s.slots[i].rtpHeard))
    requires DueAt(s.timers, LeaveTimer(i)) == None
    ensures TimersLeft(s.timers, ByeOne(s, i).timers, {i})
  {
    hide Leave, Arm, Disarm, DueAt, Delay;
    TimeoutTicks();
    forall e | NotOf(e, {i}) ensures !TimerOf(e, i) {
      assert i in {i};
    }
  }

  lemma LeaveIdle(s: State, i: Slot)
    requires Inv(s, {}) && !s.slots[i].bye
    ensures DueAt(s.timers, LeaveTimer(i)) == None
  {
    hide TableOk, CountersOk, ConflictsOk, DueAt;
    assert TimerOk(s, {}, LeaveTimer(i));
  }

  lemma NobodyLeaves(s: State)
    ensures HaveLeft(s, s, {})
  {
    assert Speaking(s, {}) == {};
  }

  /** One after the other. */
  lemma LeftTrans(s: State, t: State, u: State, a: set<Slot>, b: set<Slot>)
    requires HaveLeft(s, t, a) && HaveLeft(t, u, b) && a !! b
    ensures HaveLeft(s, u, a + b)
  {
    hide TimersLeft, Speaking, Left;
    SameTime(s.timers, t.timers, a);
    TimersTrans(s.timers, t.timers, u.timers, a, b);
    SpeakingSum(s, t, a, b);
  }

  lemma SameTime(t: Timers, u: Timers, leaving: set<Slot>)
    requires TimersLeft(t, u, leaving)
    ensures u.now == t.now
  {
  }

  lemma SpeakingSum(s: State, t: State, a: set<Slot>, b: set<Slot>)
    requires a !! b && forall i: Slot | i in b :: t.slots[i] == s.slots[i]
    ensures |Speaking(s, a + b)| == |Speaking(s, a)| + |Speaking(t, b)| && |a + b| == |a| + |b|
  {
    assert Speaking(t, b) == Speaking(s, b);
    assert Speaking(s, a + b) == Speaking(s, a) + Speaking(s, b) && Speaking(s, a) !! Speaking(s, b);
  }

  lemma TimersTrans(s: Timers, t: Timers, u: Timers, a: set<Slot>, b: set<Slot>)
    requires TimersLeft(s, t, a) && TimersLeft(t, u, b) && a !! b
    ensures TimersLeft(s, u, a + b)
  {
    hide DueAt, OnlyLeaveRuns, NotOf;
    forall i: Slot | i in a ensures OnlyLeaveRuns(u, i, s.now + 30) {
      StillOnlyLeave(t, u, i, b, s.now + 30);
    }
    forall e | NotOf(e, a + b) ensures DueAt(u, e) == DueAt(s, e) {
      NotOfParts(e, a, b);
    }
  }

  lemma StillOnlyLeave(t: Timers, u: Timers, i: Slot, b: set<Slot>, due: nat)
    requires i !in b && OnlyLeaveRuns(t, i, due) && forall e | NotOf(e, b) :: DueAt(u, e) == DueAt(t, e)
    ensures OnlyLeaveRuns(u, i, due)
  {
    hide DueAt;
    assert NotOf(LeaveTimer(i), b) && NotOf(MemberTimer(i), b) && NotOf(SenderTimer(i), b);
  }

  lemma NotOfParts(e: TimerId, a: set<Slot>, b: set<Slot>)
    requires NotOf(e, a + b)
    ensures NotOf(e, a) && NotOf(e, b)
  {
    forall i: Slot | i in a ensures !TimerOf(e, i) {
      assert i in a + b;
    }
    forall i: Slot | i in b ensures !TimerOf(e, i) {
      assert i in a + b;
    }
  }

  /** A goodbye for any list of sources, ours not among them: exactly the members on the list that had not
      left yet leave. */
  lemma {:induction false} ByeLeaves(s: State, ssrcs: seq<u32>)
    requires Inv(s, {}) && s.slots[s.self].ssrc !in ssrcs
    ensures HaveLeft(s, HandleBye(s, ssrcs), Leaving(s, ssrcs))
    decreases |ssrcs|
  {
    hide Inv, ByeOne, HaveLeft, Leaving, Lookup;
    if ssrcs == [] {
      NobodyLeaves(s);
      EmptyList(s);
    } else {
      var r := Lookup(s, ssrcs[0]);
      LeavingFirst(s, ssrcs);
      if r.Some? && !s.slots[r.value].bye {
        var i, s1 := r.value, ByeOne(s, r.value);
        FoundOther(s, ssrcs, i);
        OneLeaves(s, i);
        ByeOneKeeps(s, i);
        OneLeft(s, s1, i, ssrcs[1..]);
        ByeLeaves(s1, ssrcs[1..]);
        LeftTrans(s, s1, HandleBye(s1, ssrcs[1..]), {i}, Leaving(s1, ssrcs[1..]));
        assert {i} + Leaving(s1, ssrcs[1..]) == Leaving(s, ssrcs);
      } else {
        ByeLeaves(s, ssrcs[1..]);
      }
    }
  }

  lemma EmptyList(s: State)
    ensures Leaving(s, []) == {}
  {
  }

  lemma FoundOther(s: State, ssrcs: seq<u32>, i: Slot)
    requires ssrcs != [] && Lookup(s, ssrcs[0]) == Some(i) && s.slots[s.self].ssrc !in ssrcs
    ensures i in s.used && i != s.self && s.slots[i].ssrc == ssrcs[0]
  {
  }

  lemma LeavingFirst(s: State, ssrcs: seq<u32>)
    requires Inv(s, {}) && ssrcs != []
    ensures var r := Lookup(s, ssrcs[0]);
            Leaving(s, ssrcs) ==
              if r.Some? && !s.slots[r.value].bye then Leaving(s, ssrcs[1..]) + {r.value} else Leaving(s, ssrcs[1..])
  {
    hide TimersOk, CountersOk, ConflictsOk, Lookup;
    assert ssrcs == [ssrcs[0]] + ssrcs[1..];
  }

  /** Whoever has left is not left again. */
  lemma OneLeft(s: State, t: State, i: Slot, ssrcs: seq<u32>)
    requires HaveLeft(s, t, {i}) && i in s.used
    ensures Leaving(t, ssrcs) + {i} == Leaving(s, ssrcs) + {i} && i !in Leaving(t, ssrcs)
    ensures t.slots[s.self].ssrc == s.slots[s.self].ssrc && t.self == s.self
  {
    hide DueAt;
  }

  // ---------------------------------------------------------------- entries

  function NamesOf(chunks: seq<Chunk>, ssrc: u32): seq<Text> {
    if chunks == [] then []
    else if chunks[0].ssrc == ssrc then chunks[0].names + NamesOf(chunks[1..], ssrc) else NamesOf(chunks[1..], ssrc)
  }

  predicate DescribedIn(chunks: seq<Chunk>, ssrc: u32) {
    exists k | 0 <= k < |chunks| :: chunks[k].ssrc == ssrc
  }

  /** An entry after a source description: the last name it gives stays, and validates the member. */
  function Described(m: Member, chunks: seq<Chunk>, from: Addr, now: nat): Member {
    if !DescribedIn(chunks, m.ssrc) || !ListensTo(m, from) then m
    else
      var n, names := HeardNow(m, from, now), NamesOf(chunks, m.ssrc);
      if names == [] then n else n.(cname := names[|names| - 1], validated := true)
  }

  /** The entry of another member after an RTCP packet. */
  function AfterRtcp(m: Member, p: RtcpPacket, from: Addr, now: nat, clock: (u32, u32)): Member {
    match p
    case SenderReport(ssrc, sec, frac, rtpTs, psent, osent, _) =>
      if m.ssrc == ssrc && ListensTo(m, from) then
        HeardNow(m, from, now).(lastSr := (sec, frac), lastSrAt := clock, rtpTs := rtpTs, pktCount := psent, octetCount := osent)
      else m
    case ReceiverReport(ssrc, _) => if m.ssrc == ssrc && ListensTo(m, from) then HeardNow(m, from, now) else m
    case SourceDescription(chunks) => Described(m, chunks, from, now)
    case Bye(ssrcs) => if m.ssrc in ssrcs && !m.bye then Left(m, now) else m
    case Other(_) => m
  }

  function AfterAll(m: Member, packets: seq<RtcpPacket>, from: Addr, now: nat, clock: (u32, u32)): Member
    decreases |packets|
  {
    if packets == [] then m else AfterAll(AfterRtcp(m, packets[0], from, now, clock), packets[1..], from, now, clock)
  }

  lemma DescribedMore(m: Member, chunks: seq<Chunk>, from: Addr, now: nat)
    requires chunks != []
    ensures var c, rest := chunks[0], chunks[1..];
            Described(m, chunks, from, now) ==
              if c.ssrc != m.ssrc then Described(m, rest, from, now)
              else if !ListensTo(m, from) then m
              else Described(SetNames(HeardNow(m, from, now), c.names), rest, from, now)
  {
    hide DescribedIn, NamesOf;
    var c, rest, names := chunks[0], chunks[1..], NamesOf(chunks[1..], m.ssrc);
    DescribedFirst(chunks, m.ssrc);
    NamesFirst(chunks, m.ssrc);
    if !DescribedIn(rest, m.ssrc) {
      NoNames(rest, m.ssrc);
      assert c.names + [] == c.names;
    }
    if c.ssrc == m.ssrc && ListensTo(m, from) {
      LastName(m, c.names, names, from, now);
      assert SetNames(HeardNow(m, from, now), c.names).ssrc == m.ssrc;
    }
  }

  lemma NamesFirst(chunks: seq<Chunk>, ssrc: u32)
    requires chunks != []
    ensures NamesOf(chunks, ssrc) == (if chunks[0].ssrc == ssrc then chunks[0].names else []) + NamesOf(chunks[1..], ssrc)
  {
    assert [] + NamesOf(chunks[1..], ssrc) == NamesOf(chunks[1..], ssrc);
  }

  /** Names after names. */
  lemma LastName(m: Member, first: seq<Text>, rest: seq<Text>, from: Addr, now: nat)
    requires ListensTo(m, from)
    ensures var n := SetNames(HeardNow(m, from, now), first);
            && ListensTo(n, from) && HeardNow(n, from, now) == n
            && SetNames(n, rest) == SetNames(HeardNow(m, from, now), first + rest)
  {
  }

  lemma DescribedFirst(chunks: seq<Chunk>, ssrc: u32)
    requires chunks != []
    ensures DescribedIn(chunks, ssrc) <==> chunks[0].ssrc == ssrc || DescribedIn(chunks[1..], ssrc)
  {
    if DescribedIn(chunks, ssrc) && chunks[0].ssrc != ssrc {
      var k :| 0 <= k < |chunks| && chunks[k].ssrc == ssrc;
      assert chunks[1..][k - 1].ssrc == ssrc;
    }
    if DescribedIn(chunks[1..], ssrc) {
      var k :| 0 <= k < |chunks[1..]| && chunks[1..][k].ssrc == ssrc;
      assert chunks[k + 1].ssrc == ssrc;
    }
  }

  lemma {:induction false} NoNames(chunks: seq<Chunk>, ssrc: u32)
    requires !DescribedIn(chunks, ssrc)
    ensures NamesOf(chunks, ssrc) == []
  {
    if chunks != [] {
      DescribedFirst(chunks, ssrc);
      NoNames(chunks[1..], ssrc);
    }
  }

  lemma {:induction false} SdesEntry(s: State, chunks: seq<Chunk>, from: Addr, size: u32, i: Slot)
    requires Inv(s, {}) && Fair(s.cfg.random32) && RtcpForeign(s, from) && i in s.used && i != s.self
    ensures HandleSdes(s, chunks, from, size).slots[i] == Described(s.slots[i], chunks, from, s.timers.now)
    decreases |chunks|
  {
    hide Inv, HandleRtcpSsrc, SetNames, Described, Fair, HeardNow, ListensTo;
    if chunks == [] {
      NotDescribed(s.slots[i], from, s.timers.now);
    } else {
      var c := chunks[0];
      var (s1, r) := HandleRtcpSsrc(s, c.ssrc, from, size);
      var s2 := if r.None? then s1 else SetSlot(s1, r.value, SetNames(s1.slots[r.value], c.names));
      ChunkKeeps(s, c, from, size, i);
      SdesEntry(s2, chunks[1..], from, size, i);
      DescribedMore(s.slots[i], chunks, from, s.timers.now);
      if s.slots[i].ssrc == c.ssrc {
        TableOf(s);
        KnownSource(s, from, size, i);
        if !ListensTo(s.slots[i], from) {
          Deaf(s.slots[i], chunks[1..], from, s.timers.now);
        }
      }
    }
  }

  lemma NotDescribed(m: Member, from: Addr, now: nat)
    ensures Described(m, [], from, now) == m
  {
  }

  lemma Deaf(m: Member, chunks: seq<Chunk>, from: Addr, now: nat)
    requires !ListensTo(m, from)
    ensures Described(m, chunks, from, now) == m
  {
  }

  lemma ChunkKeeps(s: State, c: Chunk, from: Addr, size: u32, i: Slot)
    requires Inv(s, {}) && Fair(s.cfg.random32) && RtcpForeign(s, from) && i in s.used && i != s.self
    ensures var (s1, r) := HandleRtcpSsrc(s, c.ssrc, from, size);
            var s2 := if r.None? then s1 else SetSlot(s1, r.value, SetNames(s1.slots[r.value], c.names));
            && Inv(s2, {}) && s2.cfg == s.cfg && s2.self == s.self && s2.timers.now == s.timers.now && i in s2.used
            && (s.slots[i].ssrc != c.ssrc ==> s2.slots[i] == s.slots[i])
  {
    hide HandleRtcpSsrc, TimersOk, CountersOk, ConflictsOk, Fair;
    HandleRtcpSsrcKeeps(s, c.ssrc, from, size);
    var (s1, r) := HandleRtcpSsrc(s, c.ssrc, from, size);
    StillUsed(s, s1, i);
    if s.slots[i].ssrc != c.ssrc {
      HandleRtcpSsrcAside(s, c.ssrc, from, size, i);
    }
    hide TableOk, Inv;
    if r.Some? {
      NamesKeep(s1, r.value, c.names);
    }
  }

  lemma NamesKeep(s: State, i: Slot, names: seq<Text>)
    requires Inv(s, {})
    ensures Inv(SetSlot(s, i, SetNames(s.slots[i], names)), {})
  {
    hide Inv;
    SameMemberRefl(s.slots);
    SameKeeps(s, SetSlot(s, i, SetNames(s.slots[i], names)), {});
  }

  lemma PacketEntry(s: State, p: RtcpPacket, from: Addr, size: u32, clock: (u32, u32), i: Slot)
    requires Inv(s, {}) && Fair(s.cfg.random32) && RtcpForeign(s, from) && ByeForeign(s, p) && i in s.used && i != s.self
    ensures HandleRtcp(s, p, from, size, clock).slots[i] == AfterRtcp(s.slots[i], p, from, s.timers.now, clock)
  {
    hide TimersOk, CountersOk, ConflictsOk, Fair, HandleRtcpSsrc, HandleSdes, HandleBye, Described, Leaving;
    NotFree(s, i);
    match p
    case SenderReport(ssrc, _, _, _, _, _, _) => SenderEntry(s, p, from, size, clock, i);
    case ReceiverReport(ssrc, _) =>
      if s.slots[i].ssrc == ssrc {
        KnownSource(s, from, size, i);
      } else {
        HandleRtcpSsrcAside(s, ssrc, from, size, i);
      }
    case SourceDescription(chunks) => SdesEntry(s, chunks, from, size, i);
    case Bye(ssrcs) =>
      ByeLeaves(s, ssrcs);
      LeavingIs(s, ssrcs, i);
    case Other(_) =>
  }

  lemma LeavingIs(s: State, ssrcs: seq<u32>, i: Slot)
    requires i in s.used
    ensures i in Leaving(s, ssrcs) <==> !s.slots[i].bye && s.slots[i].ssrc in ssrcs
  {
  }

  lemma SenderEntry(s: State, p: RtcpPacket, from: Addr, size: u32, clock: (u32, u32), i: Slot)
    requires TableOk(s) && p.SenderReport? && i in s.used && i != s.self && i !in s.free
    ensures HandleSr(s, p, from, size, clock).slots[i] == AfterRtcp(s.slots[i], p, from, s.timers.now, clock)
  {
    hide HandleRtcpSsrc, BlocksTold;
    if s.slots[i].ssrc == p.ssrc {
      KnownSource(s, from, size, i);
    } else {
      HandleSrAside(s, p, from, size, clock, i);
    }
  }

  lemma {:induction false} PacketsEntry(s: State, packets: seq<RtcpPacket>, from: Addr, size: u32, clock: (u32, u32), i: Slot)
    requires Inv(s, {}) && Fair(s.cfg.random32) && RtcpForeign(s, from) && ByesForeign(s, packets, from, size, clock)
    requires i in s.used && i != s.self
    ensures HandleAll(s, packets, from, size, clock).slots[i] == AfterAll(s.slots[i], packets, from, s.timers.now, clock)
    decreases |packets|
  {
    hide Inv, HandleRtcp, AfterRtcp, Fair, Quick;
    if packets != [] {
      var s1 := HandleRtcp(s, packets[0], from, size, clock);
      HandleRtcpKeeps(s, packets[0], from, size, clock);
      StillUsed(s, s1, i);
      PacketEntry(s, packets[0], from, size, clock, i);
      PacketsEntry(s1, packets[1..], from, size, clock, i);
    }
  }

  /** What becomes of the entry of every other member that was in the table, when a datagram is received. */
  lemma EntryAfterRtcp(s: State, msg: Datagram, packets: seq<RtcpPacket>, from: Addr, clock: (u32, u32), i: Slot)
    requires Good(s) && Admissible(s, RtcpArrives(msg, from, clock)) && Codec.Receive(msg) == Codec.Compound(packets)
    requires i in s.used && i != s.self
    ensures Step(s, RtcpArrives(msg, from, clock)).slots[i] == AfterAll(s.slots[i], packets, from, s.timers.now, clock)
  {
    hide Inv, SeqsOk, AllReportedOk, OutputGood, RenumberOk, SpacingOk, Fair, Codec.Receive, HandleAll, AfterAll, ByesForeign;
    var s1 := s.(rtcpStatus := RtcpNoError);
    StatusOnly(s, s1, None);
    PacketsEntry(s1, packets, from, |msg|, clock, i);
  }

  // ---------------------------------------------------------------- who has left

  /** Some goodbye among these packets names the source. */
  predicate SaysGoodbye(packets: seq<RtcpPacket>, ssrc: u32) {
    exists k | 0 <= k < |packets| :: packets[k].Bye? && ssrc in packets[k].ssrcs
  }

  lemma {:induction false} GoodbyeMarks(m: Member, packets: seq<RtcpPacket>, from: Addr, now: nat, clock: (u32, u32))
    ensures var n := AfterAll(m, packets, from, now, clock);
            && n.ssrc == m.ssrc && (n.bye <==> m.bye || SaysGoodbye(packets, m.ssrc))
            && (m.bye ==> n == m) && (n.bye && !m.bye ==> n.hist.left == now)
    decreases |packets|
  {
    hide AfterRtcp, SaysGoodbye;
    if packets == [] {
      NobodySays(m.ssrc);
    } else {
      GoodbyeMarksOne(m, packets[0], from, now, clock);
      GoodbyeFirst(packets, m.ssrc);
      GoodbyeMarks(AfterRtcp(m, packets[0], from, now, clock), packets[1..], from, now, clock);
    }
  }

  lemma NobodySays(ssrc: u32)
    ensures !SaysGoodbye([], ssrc)
  {
  }

  lemma GoodbyeMarksOne(m: Member, p: RtcpPacket, from: Addr, now: nat, clock: (u32, u32))
    ensures var n := AfterRtcp(m, p, from, now, clock);
            && n.ssrc == m.ssrc && (n.bye <==> m.bye || (p.Bye? && m.ssrc in p.ssrcs))
            && (m.bye ==> n == m) && (n.bye && !m.bye ==> n.hist.left == now)
  {
    hide Described, ListensTo, HeardNow;
    match p
    case SenderReport(_, _, _, _, _, _, _) => HeardKeeps(m, from, now);
    case ReceiverReport(_, _) => HeardKeeps(m, from, now);
    case SourceDescription(chunks) => DescribedKeeps(m, chunks, from, now);
    case Bye(_) =>
    case Other(_) =>
  }

  lemma HeardKeeps(m: Member, from: Addr, now: nat)
    ensures HeardNow(m, from, now).ssrc == m.ssrc && HeardNow(m, from, now).bye == m.bye && (m.bye ==> !ListensTo(m, from))
  {
  }

  lemma DescribedKeeps(m: Member, chunks: seq<Chunk>, from: Addr, now: nat)
    ensures var n := Described(m, chunks, from, now); n.ssrc == m.ssrc && n.bye == m.bye && (m.bye ==> n == m)
  {
    hide NamesOf, DescribedIn, HeardNow, ListensTo;
    HeardKeeps(m, from, now);
  }

  lemma GoodbyeFirst(packets: seq<RtcpPacket>, ssrc: u32)
    requires packets != []
    ensures SaysGoodbye(packets, ssrc) <==>
            (packets[0].Bye? && ssrc in packets[0].ssrcs) || SaysGoodbye(packets[1..], ssrc)
  {
    var first := packets[0].Bye? && ssrc in packets[0].ssrcs;
    if SaysGoodbye(packets, ssrc) && !first {
      var k :| 0 <= k < |packets| && packets[k].Bye? && ssrc in packets[k].ssrcs;
      assert packets[1..][k - 1] == packets[k];
    }
    if SaysGoodbye(packets[1..], ssrc) {
      var k :| 0 <= k < |packets[1..]| && packets[1..][k].Bye? && ssrc in packets[1..][k].ssrcs;
      assert packets[k + 1] == packets[1..][k];
    }
  }

  /** A received datagram makes a member leave if and only if some goodbye in it names the member.  From then
      on only its leave timer runs, for 30 ticks; and the counters count whoever has not left. */
  lemma LeavesIff(s: State, msg: Datagram, packets: seq<RtcpPacket>, from: Addr, clock: (u32, u32), i: Slot)
    requires Reachable(s) && Admissible(s, RtcpArrives(msg, from, clock)) && Codec.Receive(msg) == Codec.Compound(packets)
    requires i in s.used && i != s.self
    ensures Good(s) && Follows(s, RtcpArrives(msg, from, clock), Step(s, RtcpArrives(msg, from, clock)))
    ensures var m, t := s.slots[i], Step(s, RtcpArrives(msg, from, clock));
            && i in t.used
            && (t.slots[i].bye <==> m.bye || SaysGoodbye(packets, m.ssrc))
            && (t.slots[i].bye && !m.bye ==>
                  && t.slots[i].hist.left == s.timers.now && DueAt(t.timers, LeaveTimer(i)) == Some(s.timers.now + 30)
                  && DueAt(t.timers, MemberTimer(i)) == None && DueAt(t.timers, SenderTimer(i)) == None)
            && t.control.members == |set j: Slot | j in t.used && !t.slots[j].bye|
            && t.control.senders == |set j: Slot | j in t.used && j != t.self && !t.slots[j].bye && t.slots[j].rtpHeard|
                                    + (if t.control.weSent then 1 else 0)
  {
    hide Reachable, Good, Admissible, Step, Codec.Receive, AfterAll, DueAt, SaysGoodbye, Follows;
    var event := RtcpArrives(msg, from, clock);
    StepReachable(s, event);
    GoodSettled(s);
    var t := Step(s, event);
    EntryAfterRtcp(s, msg, packets, from, clock, i);
    GoodbyeMarks(s.slots[i], packets, from, s.timers.now, clock);
    CountersAreCounts(t);
    StaysUsed(s, event, i);
    TimersFollowLife(t, i, 0);
    LeaveDue(t, i);
  }

  lemma StaysUsed(s: State, event: Event, i: Slot)
    requires Good(s) && Admissible(s, event) && event.RtcpArrives? && i in s.used
    ensures i in Step(s, event).used && Step(s, event).timers.now == s.timers.now
  {
    StepGood(s, event);
    hide Good, Admissible, Step, OutputGood, SeqsOk, RenumberOk;
  }

  lemma LeaveDue(t: State, i: Slot)
    requires Reachable(t)
    ensures i in t.used && t.slots[i].bye ==> DueAt(t.timers, LeaveTimer(i)) == Some(t.slots[i].hist.left + 30)
  {
    hide Reachable, TableOk, CountersOk, ConflictsOk, SeqsOk, AllReportedOk, OutputGood, RenumberOk, SpacingOk, DueAt, Settled,
         TimersOk;
    ReachableIsGood(t);
    LeaveTicks(t, i);
  }

  lemma LeaveTicks(t: State, i: Slot)
    requires TimersOk(t, {})
    ensures i in t.used && t.slots[i].bye ==> DueAt(t.timers, LeaveTimer(i)) == Some(t.slots[i].hist.left + 30)
  {
    hide DueAt;
    assert TimerOk(t, {}, LeaveTimer(i));
  }
}
