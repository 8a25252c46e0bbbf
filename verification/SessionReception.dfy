/**
 What a received RTP datagram does: which packet reaches the user, what becomes of the entry of its
 source and of those of its contributors, and who joins.
 */
module SessionReception {
  import opened Words
  import opened SessionTimers
  import opened ConflictTable
  import opened Octets
  import opened RtpSource
  import opened SourceLife
  import opened Session
  import opened SessionInvariant
  import opened SessionHistory
  import opened SessionSteps
  import opened SessionMentions
  import RtpPacket
  import Wire = RtpLayout

  // ---------------------------------------------------------------- the packet

  /** Octets that pass the header check for payload type `pt`, and the fields that stand in them. */
  ghost predicate Carried(pkt: seq<u8>, pt: u8, p: RtpPacket.Packet) {
    && Wire.PacketAt(pkt, p) && Octet(pkt, 1) % 128 == pt
    && (Octet(pkt, 0) / 32 % 2 == 1 ==> p.payload != [])
  }

  lemma CarriedIs(pkt: seq<u8>, pt: u8, p: RtpPacket.Packet)
    ensures Carried(pkt, pt, p) <==> RtpPacket.Check(pkt, pt) == RtpPacket.Accepted(p)
  {
    hide RtpPacket.Check, Wire.PacketAt;
    Wire.CheckIs(pkt, pt, p);
  }

  /** The user gets a packet if it comes from the address that a member is bound to which sends, is not
      ourselves and has not said goodbye, and the member's record accepts its number. */
  predicate Taken(s: State, p: RtpPacket.Packet, from: Addr, i: Slot) {
    var m := s.slots[i];
    && i in s.used && i != s.self && m.ssrc == p.ssrc
    && !m.bye && m.rtpHeard && m.rtpAddr == from
    && UpdateSeq(m.src, p.seqno).1
  }

  /** When a record accepts a number: on probation, the second of two in sequence; afterwards, whatever
      is less than 3000 ahead or less than 100 behind, and the number after one that was refused. */
  lemma VerdictIs(s: Source, seqno: u16)
    ensures var ahead := (seqno as int - s.maxSeq) % 65536;
            UpdateSeq(s, seqno).1 <==>
              if s.probation != 0 then s.probation == 1 && seqno == s.maxSeq + 1
              else ahead < 3000 || 65436 < ahead || seqno == s.badSeq
  {
  }

  // ---------------------------------------------------------------- entries

  function Arrivals(ts: u32, arrival: u32, n: nat): (ops: seq<SourceOp>)
    ensures |ops| == n
  {
    seq(n, _ => Arrived(ts, arrival))
  }

  /** An entry listens to an address: it has not said goodbye and, if it is known to send, is bound to it. */
  predicate Listens(m: Member, from: Addr) {
    !m.bye && (m.rtpHeard ==> m.rtpAddr == from)
  }

  /** An entry that is heard from an address at tick `now`, and whose record undergoes `ops`. */
  function Touched(m: Member, from: Addr, now: nat, ops: seq<SourceOp>): Member {
    m.(rtpHeard := true, rtpAddr := from, src := Life(m.src, ops),
       hist := m.hist.(refreshed := now, heard := now, life := m.hist.life + ops,
                       bound := if m.rtpHeard then m.hist.bound else from,
                       checked := if m.rtpHeard then m.hist.checked else None,
                       delivered := m.rtpHeard && m.hist.delivered))
  }

  /** An entry that is named `n` times among the contributors of an accepted packet. */
  function Contributed(m: Member, p: RtpPacket.Packet, from: Addr, now: nat, arrival: u32, n: nat): Member {
    if n == 0 || !Listens(m, from) then m
    else Touched(m, from, now, if m.rtpHeard then Arrivals(p.ts, arrival, n)
                               else [Heard(p.seqno)] + Arrivals(p.ts, arrival, n - 1))
  }

  /** The entry of another member after a packet; `taken` if the user gets it. */
  function AfterPacket(m: Member, p: RtpPacket.Packet, from: Addr, now: nat, arrival: u32, taken: bool): Member {
    if m.ssrc != p.ssrc then
      if taken then Contributed(m, p, from, now, arrival, multiset(p.csrcs)[m.ssrc]) else m
    else if !Listens(m, from) then m
    else if !m.rtpHeard then Touched(m, from, now, [Heard(p.seqno)])
    else if !UpdateSeq(m.src, p.seqno).1 then CheckedNow(Touched(m, from, now, [Checked(p.seqno)]), p.seqno)
    else
      var ops := [Checked(p.seqno)] + Arrivals(p.ts, arrival, 1 + multiset(p.csrcs)[p.ssrc]);
      var n := CheckedNow(Touched(m, from, now, ops), p.seqno);
      n.(validated := true, hist := n.hist.(delivered := true))
  }

  function CheckedNow(m: Member, seqno: u16): Member {
    m.(hist := m.hist.(checked := Some(seqno)))
  }

  /** A slot that a source enters which was not known. */
  function Entered(former: Member, ssrc: u32, from: Addr, now: nat, ops: seq<SourceOp>, csrc: bool): Member {
    former.(ssrc := ssrc, isSelf := false, rtpHeard := true, rtcpHeard := false, bye := false, validated := csrc,
            sender := false, csrc := csrc, rtpAddr := from, cname := [], lastSr := (0, 0), lastSrAt := (0, 0),
            src := Life(former.src, ops),
            hist := History(now, now, former.hist.left, from, None, false, former.src, ops))
  }

  lemma OneOp(s: Source, op: SourceOp)
    ensures Life(s, [op]) == Undergo(s, op)
  {
    assert [op][..0] == [];
  }

  lemma FoundIsOnly(s: State, ssrc: u32, i: Slot)
    requires TableOk(s) && i in s.used && s.slots[i].ssrc == ssrc
    ensures Lookup(s, ssrc) == Some(i)
  {
  }

  /** An entry that is named once, as source or as contributor, before its record is asked. */
  lemma NamedOnce(s: State, seqno: u16, from: Addr, csrc: bool, i: Slot)
    requires TableOk(s) && i in s.used && i != s.self
    ensures var m, (t, r) := s.slots[i], HandleRtpSsrc(s, s.slots[i].ssrc, seqno, from, csrc);
            && (r == if m.rtpHeard && Listens(m, from) then Some(i) else None)
            && t.slots[i] == (if !Listens(m, from) then m
                              else Touched(m, from, s.timers.now, if m.rtpHeard then [] else [Heard(seqno)]))
            && i in t.used && t.self == s.self && t.timers.now == s.timers.now
  {
    hide Arm, Rearm, Undergo, Collide;
    var m := s.slots[i];
    FoundIsOnly(s, m.ssrc, i);
    OneOp(m.src, Heard(seqno));
    NothingHappens(m.src);
    assert m.hist.life + [] == m.hist.life;
    hide Life, Lookup;
  }

  /** A contributor that is known. */
  lemma ContributedOnce(s: State, p: RtpPacket.Packet, from: Addr, arrival: u32, i: Slot)
    requires TableOk(s) && i in s.used && i != s.self
    ensures var (t, r) := HandleRtpSsrc(s, s.slots[i].ssrc, p.seqno, from, true);
            var u := if r.Some? then Jitter(t, r.value, p.ts, arrival) else t;
            u.slots[i] == Contributed(s.slots[i], p, from, s.timers.now, arrival, 1)
  {
    hide HandleRtpSsrc;
    NamedOnce(s, p.seqno, from, true, i);
    NotedOnce(s.slots[i], p, from, s.timers.now, arrival);
    hide Touched, Evolve, Contributed;
    var m := s.slots[i];
    var (t, r) := HandleRtpSsrc(s, s.slots[i].ssrc, p.seqno, from, true);
    if m.rtpHeard && Listens(m, from) {
      assert Jitter(t, i, p.ts, arrival).slots[i] == Evolve(t.slots[i], Arrived(p.ts, arrival));
    }
  }

  lemma NotedOnce(m: Member, p: RtpPacket.Packet, from: Addr, now: nat, arrival: u32)
    ensures Contributed(m, p, from, now, arrival, 1) ==
            if !Listens(m, from) then m
            else if m.rtpHeard then Evolve(Touched(m, from, now, []), Arrived(p.ts, arrival))
            else Touched(m, from, now, [Heard(p.seqno)])
  {
    hide Undergo, Life;
    OneOp(m.src, Arrived(p.ts, arrival));
    NothingHappens(m.src);
    assert Arrivals(p.ts, arrival, 1) == [Arrived(p.ts, arrival)] && Arrivals(p.ts, arrival, 0) == [];
    assert [Heard(p.seqno)] + Arrivals(p.ts, arrival, 0) == [Heard(p.seqno)];
    assert m.hist.life + [] == m.hist.life;
  }

  lemma ContributedMore(m: Member, p: RtpPacket.Packet, from: Addr, now: nat, arrival: u32, n: nat)
    ensures Contributed(Contributed(m, p, from, now, arrival, 1), p, from, now, arrival, n)
            == Contributed(m, p, from, now, arrival, 1 + n)
    ensures Contributed(m, p, from, now, arrival, 1).ssrc == m.ssrc
  {
    hide Life;
    if n > 0 && Listens(m, from) {
      var first := if m.rtpHeard then Arrivals(p.ts, arrival, 1) else [Heard(p.seqno)] + Arrivals(p.ts, arrival, 0);
      var rest := Arrivals(p.ts, arrival, n);
      LifeAppend(m.src, first, rest);
      assert first + rest == if m.rtpHeard then Arrivals(p.ts, arrival, 1 + n) else [Heard(p.seqno)] + Arrivals(p.ts, arrival, n);
      assert (m.hist.life + first) + rest == m.hist.life + (first + rest);
    }
  }

  lemma FirstOfBag(csrcs: seq<u32>, ssrc: u32)
    requires csrcs != []
    ensures multiset(csrcs)[ssrc] == multiset(csrcs[1..])[ssrc] + if csrcs[0] == ssrc then 1 else 0
  {
    assert csrcs == [csrcs[0]] + csrcs[1..];
  }

  /** What a list of contributors does to an entry that is known. */
  lemma {:induction false} ContributorsTouch(s: State, p: RtpPacket.Packet, csrcs: seq<u32>, from: Addr, arrival: u32, i: Slot)
    requires Inv(s, {}) && Fair(s.cfg.random32) && RtpForeign(s, from) && i in s.used && i != s.self
    ensures var t := HandleCsrcs(s, csrcs, p.seqno, p.ts, from, arrival);
            t.slots[i] == Contributed(s.slots[i], p, from, s.timers.now, arrival, multiset(csrcs)[s.slots[i].ssrc])
    decreases |csrcs|
  {
    hide Inv, HandleRtpSsrc, Jitter, Contributed, Quick;
    if csrcs == [] {
      NoneContributed(s.slots[i], p, from, s.timers.now, arrival);
    } else {
      var c, m := csrcs[0], s.slots[i];
      var (s1, r) := HandleRtpSsrc(s, c, p.seqno, from, true);
      var s2 := if r.Some? then Jitter(s1, r.value, p.ts, arrival) else s1;
      ContributorKeeps(s, c, p, from, arrival, i);
      FirstOfBag(csrcs, m.ssrc);
      ContributorsTouch(s2, p, csrcs[1..], from, arrival, i);
      if m.ssrc == c {
        TableOf(s);
        ContributedOnce(s, p, from, arrival, i);
        ContributedMore(m, p, from, s.timers.now, arrival, multiset(csrcs[1..])[c]);
      }
    }
  }

  lemma NoneContributed(m: Member, p: RtpPacket.Packet, from: Addr, now: nat, arrival: u32)
    ensures Contributed(m, p, from, now, arrival, 0) == m
  {
  }

  lemma TableOf(s: State)
    requires Inv(s, {})
    ensures TableOk(s)
  {
    hide TimersOk, CountersOk, ConflictsOk, TableOk;
  }

  lemma ContributorKeeps(s: State, c: u32, p: RtpPacket.Packet, from: Addr, arrival: u32, i: Slot)
    requires Inv(s, {}) && Fair(s.cfg.random32) && RtpForeign(s, from) && i in s.used && i != s.self
    ensures var (s1, r) := HandleRtpSsrc(s, c, p.seqno, from, true);
            var s2 := if r.Some? then Jitter(s1, r.value, p.ts, arrival) else s1;
            && Inv(s2, {}) && s2.cfg == s.cfg && s2.self == s.self && s2.timers.now == s.timers.now && i in s2.used
            && (s.slots[i].ssrc != c ==> s2.slots[i] == s.slots[i])
            && s2.out.delivered == s.out.delivered
  {
    hide HandleRtpSsrc, TimersOk, CountersOk, ConflictsOk;
    HandleRtpSsrcKeeps(s, c, p.seqno, from, true, None);
    var (s1, r) := HandleRtpSsrc(s, c, p.seqno, from, true);
    StillUsed(s, s1, i);
    NothingDelivered(s, c, p.seqno, from, true);
    if s.slots[i].ssrc != c {
      HandleRtpSsrcAside(s, c, p.seqno, from, true, i);
    }
    hide TableOk, Inv;
    if r.Some? {
      JitterKeeps(s1, r.value, p.ts, arrival, None);
    }
  }

  lemma StillUsed(s: State, t: State, i: Slot)
    requires Quick(s, t, None) && i in s.used
    ensures i in t.used && t.cfg == s.cfg && t.self == s.self && t.timers.now == s.timers.now
  {
  }

  lemma NothingDelivered(s: State, ssrc: u32, seqno: u16, from: Addr, csrc: bool)
    ensures HandleRtpSsrc(s, ssrc, seqno, from, csrc).0.out.delivered == s.out.delivered
  {
    hide Arm, Rearm, FirstHeard, Fresh, DrawnAt, LookupAddr, AddAddr, Lookup;
  }

  // ---------------------------------------------------------------- the step

  /** Which member the packet is from, if it gets as far as its record. */
  lemma SourceFound(s: State, p: RtpPacket.Packet, from: Addr)
    requires TableOk(s) && RtpForeign(s, from)
    ensures var (t, r) := HandleRtpSsrc(s, p.ssrc, p.seqno, from, false);
            && (r.Some? ==>
                  && r.value in s.used && r.value != s.self && s.slots[r.value].ssrc == p.ssrc
                  && s.slots[r.value].rtpHeard && Listens(s.slots[r.value], from)
                  && t.slots[r.value] == Touched(s.slots[r.value], from, s.timers.now, [])
                  && t.slots[r.value].src == s.slots[r.value].src)
            && (forall j: Slot :: Taken(s, p, from, j) ==> r == Some(j))
  {
    hide HandleRtpSsrc, UpdateSeq;
    SourceIsOther(s, p, from);
    var r := HandleRtpSsrc(s, p.ssrc, p.seqno, from, false).1;
    if r.Some? {
      NamedOnce(s, p.seqno, from, false, r.value);
      NothingHappens(s.slots[r.value].src);
    }
    forall j: Slot | Taken(s, p, from, j) ensures r == Some(j) {
      NamedOnce(s, p.seqno, from, false, j);
    }
  }

  lemma SourceIsOther(s: State, p: RtpPacket.Packet, from: Addr)
    requires TableOk(s) && RtpForeign(s, from)
    ensures var r := HandleRtpSsrc(s, p.ssrc, p.seqno, from, false).1;
            r.Some? ==> r.value in s.used && r.value != s.self && s.slots[r.value].ssrc == p.ssrc
                        && s.slots[r.value].rtpHeard && Listens(s.slots[r.value], from)
  {
    hide Arm, Rearm, Collide, FirstHeard, Fresh;
  }

  /** The state in which the contributors of an accepted packet are looked at. */
  ghost function BeforeContributors(s: State, i: Slot, p: RtpPacket.Packet, arrival: u32): State {
    var s2 := Jitter(CheckSeq(s, i, p.seqno).0, i, p.ts, arrival);
    SetSlot(s2, i, s2.slots[i].(validated := true))
  }

  lemma AcceptedShape(s: State, i: Slot, p: RtpPacket.Packet, from: Addr, arrival: u32)
    requires UpdateSeq(s.slots[i].src, p.seqno).1
    ensures AcceptRtp(s, i, p, from, arrival) ==
            Deliver(HandleCsrcs(BeforeContributors(s, i, p, arrival), p.csrcs, p.seqno, p.ts, from, arrival), i, p, from, s.slots[i])
  {
    hide HandleCsrcs, Evolve, UpdateSeq, Deliver;
  }

  lemma BeforeContributorsKeeps(s: State, i: Slot, p: RtpPacket.Packet, arrival: u32)
    requires Inv(s, {})
    ensures var t := BeforeContributors(s, i, p, arrival);
            && Inv(t, {}) && t == s.(slots := t.slots) && t.slots == s.slots[i := t.slots[i]]
            && var m := s.slots[i];
               t.slots[i] == m.(src := Life(m.src, [Checked(p.seqno), Arrived(p.ts, arrival)]), validated := true,
                                hist := m.hist.(checked := Some(p.seqno), life := m.hist.life + [Checked(p.seqno), Arrived(p.ts, arrival)]))
  {
    hide Inv, Undergo;
    var t, m := BeforeContributors(s, i, p, arrival), s.slots[i];
    TwoOps(m.src, Checked(p.seqno), Arrived(p.ts, arrival));
    assert m.hist.life + [Checked(p.seqno)] + [Arrived(p.ts, arrival)] == m.hist.life + [Checked(p.seqno), Arrived(p.ts, arrival)];
    SameMemberRefl(s.slots);
    SameKeeps(s, t, {});
  }

  lemma TwoOps(s: Source, a: SourceOp, b: SourceOp)
    ensures Life(s, [a, b]) == Undergo(Undergo(s, a), b)
  {
    hide Life, Undergo;
    LifeSnoc(s, [a], b);
    OneOp(s, a);
    assert [a] + [b] == [a, b];
  }

  /** Which packets reach the user, in every state a run can lead to: exactly those that are taken, with the
      fields and the payload that stand in the datagram. */
  lemma DeliveredIff(s: State, pkt: seq<u8>, from: Addr, arrival: u32)
    requires Good(s) && Admissible(s, RtpArrives(pkt, from, arrival))
    ensures var was, later := s.out.delivered, Step(s, RtpArrives(pkt, from, arrival)).out.delivered;
            && (forall p: RtpPacket.Packet, i: Slot :: Carried(pkt, s.cfg.pt, p) && Taken(s, p, from, i) ==>
                  later == was + [Delivery(p, from, Touched(s.slots[i], from, s.timers.now, []))])
            && ((forall p: RtpPacket.Packet, i: Slot :: !(Carried(pkt, s.cfg.pt, p) && Taken(s, p, from, i))) ==> later == was)
  {
    hide TimersOk, CountersOk, ConflictsOk, SeqsOk, AllReportedOk, OutputGood, RenumberOk, SpacingOk, Fair;
    hide RtpPacket.Check, HandleRtpSsrc, AcceptRtp, Carried, Taken;
    var check := RtpPacket.Check(pkt, s.cfg.pt);
    forall p: RtpPacket.Packet ensures Carried(pkt, s.cfg.pt, p) <==> check == RtpPacket.Accepted(p) {
      CarriedIs(pkt, s.cfg.pt, p);
    }
    if check.Accepted? {
      var p := check.packet;
      SourceFound(s, p, from);
      NothingDelivered(s, p.ssrc, p.seqno, from, false);
      var (s1, r) := HandleRtpSsrc(s, p.ssrc, p.seqno, from, false);
      if r.Some? {
        TakenIs(s, p, from, r.value);
        HandleRtpSsrcKeeps(s, p.ssrc, p.seqno, from, false, None);
        KeptCfg(s, s1);
        DeliveredOne(s1, r.value, p, from, arrival);
      }
    }
  }

  lemma TakenIs(s: State, p: RtpPacket.Packet, from: Addr, i: Slot)
    requires i in s.used && i != s.self && s.slots[i].ssrc == p.ssrc && s.slots[i].rtpHeard && Listens(s.slots[i], from)
    ensures Taken(s, p, from, i) <==> UpdateSeq(s.slots[i].src, p.seqno).1
  {
    hide UpdateSeq;
  }

  lemma KeptCfg(s: State, t: State)
    requires Quick(s, t, None)
    ensures t.cfg == s.cfg && t.self == s.self && t.timers.now == s.timers.now
  {
  }

  lemma DeliveredOne(s: State, i: Slot, p: RtpPacket.Packet, from: Addr, arrival: u32)
    requires Inv(s, {}) && Fair(s.cfg.random32) && RtpForeign(s, from)
    ensures AcceptRtp(s, i, p, from, arrival).out.delivered ==
            s.out.delivered + if UpdateSeq(s.slots[i].src, p.seqno).1 then [Delivery(p, from, s.slots[i])] else []
  {
    hide Inv, Fair, UpdateSeq, HandleCsrcs, Undergo, BeforeContributors;
    if UpdateSeq(s.slots[i].src, p.seqno).1 {
      AcceptedShape(s, i, p, from, arrival);
      hide AcceptRtp;
      BeforeContributorsKeeps(s, i, p, arrival);
      CsrcsDeliverNothing(BeforeContributors(s, i, p, arrival), p.csrcs, p, from, arrival);
    } else {
      assert s.out.delivered + [] == s.out.delivered;
    }
  }

  lemma {:induction false} CsrcsDeliverNothing(s: State, csrcs: seq<u32>, p: RtpPacket.Packet, from: Addr, arrival: u32)
    ensures HandleCsrcs(s, csrcs, p.seqno, p.ts, from, arrival).out.delivered == s.out.delivered
    decreases |csrcs|
  {
    hide HandleRtpSsrc, Evolve;
    if csrcs != [] {
      NothingDelivered(s, csrcs[0], p.seqno, from, true);
      var (s1, r) := HandleRtpSsrc(s, csrcs[0], p.seqno, from, true);
      CsrcsDeliverNothing(if r.Some? then Jitter(s1, r.value, p.ts, arrival) else s1, csrcs[1..], p, from, arrival);
    }
  }

  /** What becomes of the entry of every other member that was in the table. */
  lemma EntryAfter(s: State, pkt: seq<u8>, p: RtpPacket.Packet, from: Addr, arrival: u32, i: Slot)
    requires Good(s) && Admissible(s, RtpArrives(pkt, from, arrival)) && Carried(pkt, s.cfg.pt, p)
    requires i in s.used && i != s.self
    ensures var t, taken := Step(s, RtpArrives(pkt, from, arrival)), exists j: Slot :: Taken(s, p, from, j);
            t.slots[i] == AfterPacket(s.slots[i], p, from, s.timers.now, arrival, taken)
  {
    hide TimersOk, CountersOk, ConflictsOk, SeqsOk, AllReportedOk, OutputGood, RenumberOk, SpacingOk, Fair;
    hide RtpPacket.Check, HandleRtpSsrc, AcceptRtp, Carried, Taken, AfterPacket, Touched;
    CarriedIs(pkt, s.cfg.pt, p);
    SourceFound(s, p, from);
    HandleRtpSsrcKeeps(s, p.ssrc, p.seqno, from, false, None);
    var (s1, r) := HandleRtpSsrc(s, p.ssrc, p.seqno, from, false);
    KeptCfg(s, s1);
    StillUsed(s, s1, i);
    if r.Some? {
      TakenIs(s, p, from, r.value);
    }
    if s.slots[i].ssrc == p.ssrc {
      NamedOnce(s, p.seqno, from, false, i);
      hide TableOk;
      OwnEntryAfter(s, s1, r, p, from, arrival, i, exists j: Slot :: Taken(s, p, from, j));
    } else {
      HandleRtpSsrcAside(s, p.ssrc, p.seqno, from, false, i);
      hide TableOk;
      OtherEntryAfter(s, s1, r, p, from, arrival, i, exists j: Slot :: Taken(s, p, from, j));
    }
  }

  lemma OwnEntryAfter(s: State, s1: State, r: Option<Slot>, p: RtpPacket.Packet, from: Addr, arrival: u32, i: Slot, taken: bool)
    requires Inv(s1, {}) && Fair(s1.cfg.random32) && RtpForeign(s1, from) && i in s1.used && i != s1.self
    requires s.slots[i].ssrc == p.ssrc && s1.timers.now == s.timers.now
    requires var m := s.slots[i];
             && r == (if m.rtpHeard && Listens(m, from) then Some(i) else None)
             && s1.slots[i] == (if !Listens(m, from) then m
                                else Touched(m, from, s.timers.now, if m.rtpHeard then [] else [Heard(p.seqno)]))
    ensures (if r.Some? then AcceptRtp(s1, r.value, p, from, arrival) else s1).slots[i]
            == AfterPacket(s.slots[i], p, from, s.timers.now, arrival, taken)
  {
    hide Inv, Fair, UpdateSeq, AcceptRtp, Life;
    if r.Some? {
      AcceptedEntry(s1, p, from, arrival, i);
      ListenedOnce(s.slots[i], p, from, s.timers.now, arrival, multiset(p.csrcs)[p.ssrc]);
    }
  }

  /** The entry of the packet's source, once it has been heard. */
  lemma AcceptedEntry(s: State, p: RtpPacket.Packet, from: Addr, arrival: u32, i: Slot)
    requires Inv(s, {}) && Fair(s.cfg.random32) && RtpForeign(s, from) && i in s.used && i != s.self
    requires s.slots[i].ssrc == p.ssrc && s.slots[i].rtpHeard && Listens(s.slots[i], from)
    ensures AcceptRtp(s, i, p, from, arrival).slots[i] == AskedEntry(s.slots[i], p, from, s.timers.now, arrival, multiset(p.csrcs)[p.ssrc])
  {
    hide Inv, Fair, UpdateSeq, HandleCsrcs, BeforeContributors, Contributed, Undergo, Life, AcceptRtp;
    if UpdateSeq(s.slots[i].src, p.seqno).1 {
      AcceptedShape(s, i, p, from, arrival);
      BeforeContributorsKeeps(s, i, p, arrival);
      ContributorsTouch(BeforeContributors(s, i, p, arrival), p, p.csrcs, from, arrival, i);
    } else {
      RejectedEntry(s, p, from, arrival, i);
    }
  }

  lemma RejectedEntry(s: State, p: RtpPacket.Packet, from: Addr, arrival: u32, i: Slot)
    requires !UpdateSeq(s.slots[i].src, p.seqno).1
    ensures AcceptRtp(s, i, p, from, arrival).slots[i] == AskedEntry(s.slots[i], p, from, s.timers.now, arrival, multiset(p.csrcs)[p.ssrc])
  {
    hide UpdateSeq, HandleCsrcs, Jitter, Deliver, Contributed, Undergo, Life;
    OneOp(s.slots[i].src, Checked(p.seqno));
  }

  /** An entry after its record has been asked for its verdict, and after its `n` mentions as contributor. */
  function AskedEntry(m: Member, p: RtpPacket.Packet, from: Addr, now: nat, arrival: u32, n: nat): Member {
    if !UpdateSeq(m.src, p.seqno).1 then
      m.(src := Life(m.src, [Checked(p.seqno)]),
         hist := m.hist.(checked := Some(p.seqno), life := m.hist.life + [Checked(p.seqno)]))
    else
      var ops := [Checked(p.seqno), Arrived(p.ts, arrival)];
      var m1 := m.(src := Life(m.src, ops), validated := true,
                   hist := m.hist.(checked := Some(p.seqno), life := m.hist.life + ops));
      var m2 := Contributed(m1, p, from, now, arrival, n);
      m2.(hist := m2.hist.(delivered := true))
  }

  lemma ListenedOnce(m: Member, p: RtpPacket.Packet, from: Addr, now: nat, arrival: u32, n: nat)
    requires m.rtpHeard && Listens(m, from) && m.ssrc == p.ssrc && n == multiset(p.csrcs)[p.ssrc]
    ensures AskedEntry(Touched(m, from, now, []), p, from, now, arrival, n) == AfterPacket(m, p, from, now, arrival, true)
                                                                          == AfterPacket(m, p, from, now, arrival, false)
  {
    hide UpdateSeq, Life;
    NothingHappens(m.src);
    assert m.hist.life + [] == m.hist.life;
    if UpdateSeq(m.src, p.seqno).1 {
      ListenedAccepted(m, p, from, now, arrival, n);
    }
  }

  lemma ListenedAccepted(m: Member, p: RtpPacket.Packet, from: Addr, now: nat, arrival: u32, n: nat)
    requires m.rtpHeard && Listens(m, from) && UpdateSeq(m.src, p.seqno).1
    ensures var ops := [Checked(p.seqno)] + Arrivals(p.ts, arrival, 1 + n);
            var o := CheckedNow(Touched(m, from, now, ops), p.seqno);
            AskedEntry(Touched(m, from, now, []), p, from, now, arrival, n)
            == o.(validated := true, hist := o.hist.(delivered := true))
  {
    hide UpdateSeq, Life, Arrivals, Contributed;
    NothingHappens(m.src);
    var first, rest := [Checked(p.seqno), Arrived(p.ts, arrival)], Arrivals(p.ts, arrival, n);
    var m0 := Touched(m, from, now, []);
    assert m.hist.life + [] == m.hist.life;
    var m1 := m0.(src := Life(m0.src, first), validated := true,
                  hist := m0.hist.(checked := Some(p.seqno), life := m0.hist.life + first));
    ContributedAgain(m1, p, from, now, arrival, n);
    LifeAppend(m.src, first, rest);
    ArrivalsAfter(p, arrival, n);
    assert (m.hist.life + first) + rest == m.hist.life + (first + rest);
  }

  lemma ContributedAgain(m: Member, p: RtpPacket.Packet, from: Addr, now: nat, arrival: u32, n: nat)
    requires m.rtpHeard && Listens(m, from) && m.hist.refreshed == now && m.hist.heard == now
    ensures var ops := Arrivals(p.ts, arrival, n);
            Contributed(m, p, from, now, arrival, n) == m.(src := Life(m.src, ops), hist := m.hist.(life := m.hist.life + ops))
  {
    hide Life;
    NothingHappens(m.src);
    assert m.hist.life + [] == m.hist.life;
    assert Arrivals(p.ts, arrival, 0) == [];
  }

  lemma ArrivalsAfter(p: RtpPacket.Packet, arrival: u32, n: nat)
    ensures [Checked(p.seqno), Arrived(p.ts, arrival)] + Arrivals(p.ts, arrival, n) == [Checked(p.seqno)] + Arrivals(p.ts, arrival, 1 + n)
  {
  }

  lemma OtherEntryAfter(s: State, s1: State, r: Option<Slot>, p: RtpPacket.Packet, from: Addr, arrival: u32, i: Slot, taken: bool)
    requires Inv(s1, {}) && Fair(s1.cfg.random32) && RtpForeign(s1, from) && i in s1.used && i != s1.self
    requires s.slots[i].ssrc != p.ssrc && s1.timers.now == s.timers.now && s1.slots[i] == s.slots[i] && r != Some(i)
    requires taken <==> r.Some? && UpdateSeq(s1.slots[r.value].src, p.seqno).1
    ensures (if r.Some? then AcceptRtp(s1, r.value, p, from, arrival) else s1).slots[i]
            == AfterPacket(s.slots[i], p, from, s.timers.now, arrival, taken)
  {
    hide Inv, Fair, UpdateSeq, HandleCsrcs, BeforeContributors, Contributed, Touched;
    if taken {
      AcceptedShape(s1, r.value, p, from, arrival);
      hide AcceptRtp;
      BeforeContributorsKeeps(s1, r.value, p, arrival);
      ContributorsTouch(BeforeContributors(s1, r.value, p, arrival), p, p.csrcs, from, arrival, i);
    }
  }
}
