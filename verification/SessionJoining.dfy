/**
 Who joins with a received RTP datagram, and what becomes of one that nobody else is named in: refused,
 from ourselves, or from a source that nothing is known of.
 */
module SessionJoining {
  import opened Words
  import opened SoftTimer
  import opened SessionTimers
  import opened ConflictTable
  import opened RtpSource
  import opened SourceLife
  import opened Session
  import opened SessionInvariant
  import opened SessionHistory
  import opened SessionSteps
  import opened SessionResults
  import opened SessionReception
  import RtpPacket

  // ---------------------------------------------------------------- refused, unknown, our own

  /** What fails the header check changes nothing, but is counted. */
  lemma RefusedIsCounted(s: State, pkt: seq<u8>, from: Addr, arrival: u32)
    requires Settled(s.timers) && forall p: RtpPacket.Packet :: !Carried(pkt, s.cfg.pt, p)
    ensures var t := Step(s, RtpArrives(pkt, from, arrival));
            && t == s.(rtpStatus := t.rtpStatus, invalidRtp := (s.invalidRtp + 1) % 0x1_0000_0000)
            && t.rtpStatus.RtpHeader?
  {
    hide RtpPacket.Check, HandleRtpSsrc, AcceptRtp, Carried;
    var check := RtpPacket.Check(pkt, s.cfg.pt);
    if check.Accepted? {
      CarriedIs(pkt, s.cfg.pt, check.packet);
    }
  }

  ghost predicate Unknown(s: State, ssrc: u32) {
    forall i: Slot | i in s.used :: s.slots[i].ssrc != ssrc
  }

  /** A source that nothing is known of enters the first free slot, if there is one; its first packet goes
      no further. */
  lemma SourceEnters(s: State, pkt: seq<u8>, p: RtpPacket.Packet, from: Addr, arrival: u32)
    requires Settled(s.timers) && Carried(pkt, s.cfg.pt, p) && Unknown(s, p.ssrc)
    ensures var t := Step(s, RtpArrives(pkt, from, arrival));
            if s.free == [] then t == s.(rtpStatus := RtpAllocFailed)
            else
              var i := s.free[0];
              && t.used == s.used + [i] && t.free == s.free[1..]
              && t.slots == s.slots[i := Entered(s.slots[i], p.ssrc, from, s.timers.now, [Heard(p.seqno)], false)]
              && t.rtpStatus == RtpFirstHeard && t.out == s.out && t.conflicts == s.conflicts
  {
    hide RtpPacket.Check, Carried, AcceptRtp;
    CarriedIs(pkt, s.cfg.pt, p);
    NobodyFound(s, p.ssrc);
    EntersFirst(s, p.ssrc, p.seqno, from, false);
    hide JoinByRtp;
  }

  lemma NobodyFound(s: State, ssrc: u32)
    requires Unknown(s, ssrc)
    ensures Lookup(s, ssrc) == None
  {
  }

  lemma EntersFirst(s: State, ssrc: u32, seqno: u16, from: Addr, csrc: bool)
    ensures var (t, r) := JoinByRtp(s, ssrc, seqno, from, csrc);
            if s.free == [] then t == s.(rtpStatus := RtpAllocFailed) && r == None
            else
              var i := s.free[0];
              && t.used == s.used + [i] && t.free == s.free[1..]
              && t.slots == s.slots[i := Entered(s.slots[i], ssrc, from, s.timers.now, [Heard(seqno)], csrc)]
              && t.rtpStatus == RtpFirstHeard && t.out == s.out && t.conflicts == s.conflicts
              && t.timers.now == s.timers.now && t.self == s.self && t.cfg == s.cfg
              && r == if csrc then Some(i) else None
  {
    hide Arm, Undergo, Life;
    if s.free != [] {
      OneOp(s.slots[s.free[0]].src, Heard(seqno));
      assert [] + [Heard(seqno)] == [Heard(seqno)];
    }
  }

  /** Our own SSRC from another address: nothing is delivered and no other entry changes.  We change our
      SSRC, to one nobody uses, if and only if the address has not been in the conflict table within 50
      ticks; then our statistics start anew.  Otherwise only its time in the table starts anew. */
  lemma OwnSsrcArrives(s: State, pkt: seq<u8>, p: RtpPacket.Packet, from: Addr, arrival: u32)
    requires Good(s) && Admissible(s, RtpArrives(pkt, from, arrival)) && Carried(pkt, s.cfg.pt, p)
    requires p.ssrc == s.slots[s.self].ssrc
    ensures OwnSsrcHeard(s, Step(s, RtpArrives(pkt, from, arrival)), from)
    ensures Step(s, RtpArrives(pkt, from, arrival)).rtpStatus ==
            if Recent(s, from) then RtpInConflictList else RtpSsrcConflict
  {
    hide SeqsOk, AllReportedOk, OutputGood, RenumberOk, SpacingOk, Fair, RtpPacket.Check, Carried, AcceptRtp;
    CarriedIs(pkt, s.cfg.pt, p);
    FoundIsOnly(s, p.ssrc, s.self);
    OwnCollides(s, from);
    hide Inv, Collide, OwnSsrcHeard, Recent;
    StatusAside(s, Collide(s, s.self, from).0, Step(s, RtpArrives(pkt, from, arrival)), from);
  }

  /** Whether an address has been entered into the conflict table, or found in it, within 50 ticks. */
  ghost predicate Recent(s: State, from: Addr) {
    from in s.conflicts.touched && s.timers.now < s.conflicts.touched[from] + 50
  }

  ghost predicate OwnSsrcHeard(s: State, t: State, from: Addr) {
    && t.used == s.used && t.free == s.free && t.control == s.control
    && t.slots == s.slots[s.self := s.slots[s.self].(ssrc := t.slots[s.self].ssrc)]
    && if Recent(s, from) then
         && t.slots[s.self].ssrc == s.slots[s.self].ssrc && t.out == s.out
         && t.txPkts == s.txPkts && t.txOctets == s.txOctets
         && t.conflicts == s.conflicts.(touched := s.conflicts.touched[from := s.timers.now])
       else
         && t.slots[s.self].ssrc !in Ssrcs(s)
         && t.txPkts == 0 && t.txOctets == 0
         && t.out == s.out.(renumbered := s.out.renumbered + [Renumbering(from, s.timers.now, LastTouch(s, from), s.conflicts.free != [])],
                            tally := NO_TALLY.(before := |s.out.sent|))
         && t.conflicts.touched ==
            if s.conflicts.free != [] then s.conflicts.touched[from := s.timers.now] else s.conflicts.touched
  }

  lemma StatusAside(s: State, t: State, u: State, from: Addr)
    requires OwnSsrcHeard(s, t, from) && u == t.(rtpStatus := u.rtpStatus, rtcpStatus := u.rtcpStatus)
    ensures OwnSsrcHeard(s, u, from)
  {
    hide Recent;
  }

  lemma OwnCollides(s: State, from: Addr)
    requires Good(s) && Fair(s.cfg.random32)
    ensures var (t, isNew) := Collide(s, s.self, from);
            OwnSsrcHeard(s, t, from) && (isNew <==> !Recent(s, from))
  {
    hide Good, Collide, Fair;
    CollisionRenumbersIff(s, from);
    CollideShape(s, from);
  }

  lemma CollideShape(s: State, from: Addr)
    requires Good(s) && Fair(s.cfg.random32)
    ensures var (t, isNew) := Collide(s, s.self, from);
            && t == s.(slots := t.slots, timers := t.timers, conflicts := t.conflicts, randomAt := t.randomAt,
                       txPkts := t.txPkts, txOctets := t.txOctets, out := t.out)
            && t.slots == s.slots[s.self := s.slots[s.self].(ssrc := t.slots[s.self].ssrc)]
            && (isNew ==> t.txPkts == 0 && t.txOctets == 0 &&
                          t.out == s.out.(renumbered := t.out.renumbered, tally := NO_TALLY.(before := |s.out.sent|)))
  {
    hide SeqsOk, AllReportedOk, OutputGood, RenumberOk, SpacingOk, TimersOk, CountersOk, ConflictsOk, Collide, Fair;
    if Find(s.conflicts.addrs, s.conflicts.used, from).Some? {
      KnownCollisionShape(s, from);
    } else {
      NewCollisionShape(s, from);
    }
    CollideIsNew(s, from);
  }

  lemma CollideIsNew(s: State, from: Addr)
    ensures Collide(s, s.self, from).1 <==> Find(s.conflicts.addrs, s.conflicts.used, from).None?
  {
    hide NewCollision, Rearm;
  }

  // ---------------------------------------------------------------- contributors that are not known

  /** The unknown among these contributors have entered the first `k` free slots, each with its first
      hearing and then one arrival for each time it is named; any that is missing found no free slot. */
  ghost predicate HaveEntered(s: State, t: State, p: RtpPacket.Packet, csrcs: seq<u32>, from: Addr, arrival: u32, k: nat) {
    && k <= |s.free| && t.used == s.used + s.free[..k] && t.free == s.free[k..]
    && (forall j | 0 <= j < k :: EnteredFor(s, t, p, csrcs, from, arrival, s.free[j]))
    && NobodyLeftOut(s, t, csrcs, k)
    && (forall j | k <= j < |s.free| :: t.slots[s.free[j]] == s.slots[s.free[j]])
  }

  ghost predicate NobodyLeftOut(s: State, t: State, csrcs: seq<u32>, k: nat)
    requires k <= |s.free|
  {
    forall c | c in csrcs && Unknown(s, c) :: t.free == [] || exists j :: 0 <= j < k && t.slots[s.free[j]].ssrc == c
  }

  ghost predicate EnteredFor(s: State, t: State, p: RtpPacket.Packet, csrcs: seq<u32>, from: Addr, arrival: u32, i: Slot) {
    var c := t.slots[i].ssrc;
    && c in csrcs && Unknown(s, c)
    && t.slots[i] == Entered(s.slots[i], c, from, s.timers.now,
                             [Heard(p.seqno)] + Arrivals(p.ts, arrival, multiset(csrcs)[c]), true)
  }

  lemma {:induction false} ContributorsEnter(s: State, p: RtpPacket.Packet, csrcs: seq<u32>, from: Addr, arrival: u32) returns (k: nat)
    requires Inv(s, {}) && Fair(s.cfg.random32) && RtpForeign(s, from) && s.slots[s.self].ssrc !in csrcs
    ensures HaveEntered(s, HandleCsrcs(s, csrcs, p.seqno, p.ts, from, arrival), p, csrcs, from, arrival, k)
    decreases |csrcs|
  {
    hide Inv, HandleRtpSsrc, Jitter, Fair, HaveEntered, Unknown;
    if csrcs == [] {
      k := 0;
      NobodyEntered(s, p, from, arrival);
    } else {
      var c := csrcs[0];
      var (s1, r) := HandleRtpSsrc(s, c, p.seqno, from, true);
      var s2 := if r.Some? then Jitter(s1, r.value, p.ts, arrival) else s1;
      var t := HandleCsrcs(s, csrcs, p.seqno, p.ts, from, arrival);
      SelfKept(s, c, p, from, arrival);
      var rest := ContributorsEnter(s2, p, csrcs[1..], from, arrival);
      if Unknown(s, c) && s.free != [] {
        k := rest + 1;
        UnknownFirst(s, s2, t, p, csrcs, from, arrival, rest);
      } else {
        k := rest;
        KnownOrFull(s, c, p, from, arrival);
        SameEntered(s, s2, t, p, csrcs, from, arrival, k);
      }
    }
  }

  /** The first of the contributors is not known, and there is a free slot. */
  lemma UnknownFirst(s: State, s2: State, t: State, p: RtpPacket.Packet, csrcs: seq<u32>, from: Addr, arrival: u32, rest: nat)
    requires Inv(s, {}) && Inv(s2, {}) && Fair(s2.cfg.random32) && RtpForeign(s2, from) && s2.timers.now == s.timers.now && s2.self == s.self
    requires csrcs != [] && Unknown(s, csrcs[0]) && s.free != []
    requires var (s1, r) := HandleRtpSsrc(s, csrcs[0], p.seqno, from, true);
             s2 == if r.Some? then Jitter(s1, r.value, p.ts, arrival) else s1
    requires t == HandleCsrcs(s2, csrcs[1..], p.seqno, p.ts, from, arrival)
    requires HaveEntered(s2, t, p, csrcs[1..], from, arrival, rest)
    ensures HaveEntered(s, t, p, csrcs, from, arrival, rest + 1)
  {
    hide Inv, HandleRtpSsrc, Jitter, Fair, HaveEntered, Unknown, Contributed, Entered, EnteredFor, HandleCsrcs;
    UnknownEnters(s, csrcs[0], p, from, arrival);
    FreeSlot(s);
    ContributorsTouch(s2, p, csrcs[1..], from, arrival, s.free[0]);
    EnteredSsrc(s.slots[s.free[0]], csrcs[0], from, s.timers.now, [Heard(p.seqno), Arrived(p.ts, arrival)]);
    FirstSlot(s, s2, t, p, csrcs, from, arrival);
    FirstEntered(s, s2, t, p, csrcs, from, arrival, rest);
  }

  lemma NobodyEntered(s: State, p: RtpPacket.Packet, from: Addr, arrival: u32)
    ensures HaveEntered(s, s, p, [], from, arrival, 0)
  {
    assert s.used + s.free[..0] == s.used;
  }

  /** A contributor that is not ourselves leaves our own entry and the invariants alone. */
  lemma SelfKept(s: State, c: u32, p: RtpPacket.Packet, from: Addr, arrival: u32)
    requires Inv(s, {}) && Fair(s.cfg.random32) && RtpForeign(s, from) && s.slots[s.self].ssrc != c
    ensures var (s1, r) := HandleRtpSsrc(s, c, p.seqno, from, true);
            var s2 := if r.Some? then Jitter(s1, r.value, p.ts, arrival) else s1;
            && Inv(s2, {}) && s2.cfg == s.cfg && s2.self == s.self && s2.timers.now == s.timers.now
            && s2.slots[s.self] == s.slots[s.self]
  {
    hide TimersOk, CountersOk, ConflictsOk, HandleRtpSsrc, Fair;
    HandleRtpSsrcKeeps(s, c, p.seqno, from, true, None);
    var (s1, r) := HandleRtpSsrc(s, c, p.seqno, from, true);
    KeptCfg(s, s1);
    OwnAside(s, c, p.seqno, from);
    hide Inv;
    if r.Some? {
      JitterKeeps(s1, r.value, p.ts, arrival, None);
    }
  }

  lemma OwnAside(s: State, c: u32, seqno: u16, from: Addr)
    requires TableOk(s) && s.slots[s.self].ssrc != c
    ensures HandleRtpSsrc(s, c, seqno, from, true).0.slots[s.self] == s.slots[s.self]
  {
    hide Arm, Rearm, FirstHeard, Fresh, Collide;
  }

  lemma FreeSlot(s: State)
    requires Inv(s, {}) && s.free != []
    ensures s.free[0] !in s.used && s.free[0] != s.self
    ensures forall j | 0 < j < |s.free| :: s.free[j] != s.free[0]
  {
    hide TimersOk, CountersOk, ConflictsOk;
    assert s.free[0] in s.free;
  }

  /** The first unknown contributor takes the first free slot. */
  lemma UnknownEnters(s: State, c: u32, p: RtpPacket.Packet, from: Addr, arrival: u32)
    requires Unknown(s, c) && s.free != []
    ensures var (s1, r) := HandleRtpSsrc(s, c, p.seqno, from, true);
            var i := s.free[0];
            && r == Some(i)
            && var s2 := Jitter(s1, i, p.ts, arrival);
               && s2.used == s.used + [i] && s2.free == s.free[1..]
               && s2.slots == s.slots[i := Entered(s.slots[i], c, from, s.timers.now, [Heard(p.seqno), Arrived(p.ts, arrival)], true)]
  {
    hide Undergo, Life, JoinByRtp;
    var i := s.free[0];
    NobodyFound(s, c);
    EntersFirst(s, c, p.seqno, from, true);
    var s1 := HandleRtpSsrc(s, c, p.seqno, from, true).0;
    LifeSnoc(s.slots[i].src, [Heard(p.seqno)], Arrived(p.ts, arrival));
    assert [Heard(p.seqno)] + [Arrived(p.ts, arrival)] == [Heard(p.seqno), Arrived(p.ts, arrival)];
    assert Jitter(s1, i, p.ts, arrival).slots[i] == Evolve(s1.slots[i], Arrived(p.ts, arrival));
  }

  /** A contributor that is known, or finds no free slot, brings nobody in. */
  lemma KnownOrFull(s: State, c: u32, p: RtpPacket.Packet, from: Addr, arrival: u32)
    requires Inv(s, {}) && s.slots[s.self].ssrc != c && (Unknown(s, c) ==> s.free == [])
    ensures var (s1, r) := HandleRtpSsrc(s, c, p.seqno, from, true);
            var s2 := if r.Some? then Jitter(s1, r.value, p.ts, arrival) else s1;
            && s2.used == s.used && s2.free == s.free
            && (forall j: Slot | j in s.free :: s2.slots[j] == s.slots[j])
            && (forall j: Slot | j in s.used :: s2.slots[j].ssrc == s.slots[j].ssrc)
  {
    hide Inv, HandleRtpSsrc, Evolve;
    TableOf(s);
    KnownStays(s, c, p.seqno, from);
    var (s1, r) := HandleRtpSsrc(s, c, p.seqno, from, true);
    if r.Some? {
      EvolveName(s1.slots[r.value], Arrived(p.ts, arrival));
    }
  }

  lemma EvolveName(m: Member, op: SourceOp)
    ensures Evolve(m, op).ssrc == m.ssrc
  {
  }

  lemma KnownStays(s: State, c: u32, seqno: u16, from: Addr)
    requires TableOk(s) && s.slots[s.self].ssrc != c && (Unknown(s, c) ==> s.free == [])
    ensures var (t, r) := HandleRtpSsrc(s, c, seqno, from, true);
            && t.used == s.used && t.free == s.free && (r.Some? ==> r.value in s.used && r.value !in s.free)
            && (forall j: Slot | j in s.free :: t.slots[j] == s.slots[j])
            && (forall j: Slot | j in s.used :: t.slots[j].ssrc == s.slots[j].ssrc)
  {
    hide Arm, Rearm, Collide, Undergo;
    if Unknown(s, c) {
      NobodyFound(s, c);
    }
  }

  lemma SameEntered(s: State, s2: State, t: State, p: RtpPacket.Packet, csrcs: seq<u32>, from: Addr, arrival: u32, k: nat)
    requires csrcs != [] && HaveEntered(s2, t, p, csrcs[1..], from, arrival, k) && s2.timers.now == s.timers.now
    requires s2.used == s.used && s2.free == s.free && (Unknown(s, csrcs[0]) ==> s.free == [])
    requires forall j: Slot | j in s.free :: s2.slots[j] == s.slots[j]
    requires forall j: Slot | j in s.used :: s2.slots[j].ssrc == s.slots[j].ssrc
    ensures HaveEntered(s, t, p, csrcs, from, arrival, k)
  {
    hide Entered, Arrivals;
    assert forall c :: Unknown(s2, c) <==> Unknown(s, c);
    hide Unknown;
    assert csrcs == [csrcs[0]] + csrcs[1..];
    forall j | 0 <= j < k ensures EnteredFor(s, t, p, csrcs, from, arrival, s.free[j]) {
      assert EnteredFor(s2, t, p, csrcs[1..], from, arrival, s.free[j]) && s.free[j] in s.free;
      FirstOfBag(csrcs, t.slots[s.free[j]].ssrc);
    }
    forall c | c in csrcs && Unknown(s, c) ensures t.free == [] || exists j :: 0 <= j < k && t.slots[s.free[j]].ssrc == c {
      assert c == csrcs[0] || c in csrcs[1..];
    }
  }

  lemma EnteredMore(former: Member, c: u32, p: RtpPacket.Packet, from: Addr, now: nat, arrival: u32, n: nat)
    ensures Contributed(Entered(former, c, from, now, [Heard(p.seqno), Arrived(p.ts, arrival)], true), p, from, now, arrival, n)
            == Entered(former, c, from, now, [Heard(p.seqno)] + Arrivals(p.ts, arrival, 1 + n), true)
  {
    hide Life, Contributed;
    var first, rest := [Heard(p.seqno), Arrived(p.ts, arrival)], Arrivals(p.ts, arrival, n);
    var m := Entered(former, c, from, now, first, true);
    ContributedAgain(m, p, from, now, arrival, n);
    LifeAppend(former.src, first, rest);
    assert first + rest == [Heard(p.seqno)] + Arrivals(p.ts, arrival, 1 + n);
  }

  /** One has entered the first free slot, the others the slots after it. */
  lemma FirstEntered(s: State, s2: State, t: State, p: RtpPacket.Packet, csrcs: seq<u32>, from: Addr, arrival: u32, rest: nat)
    requires csrcs != [] && HaveEntered(s2, t, p, csrcs[1..], from, arrival, rest) && s2.timers.now == s.timers.now
    requires s.free != [] && s2.used == s.used + [s.free[0]] && s2.free == s.free[1..]
    requires forall j | 0 <= j < |s2.free| :: s2.slots[s2.free[j]] == s.slots[s2.free[j]]
    requires EnteredFor(s, t, p, csrcs, from, arrival, s.free[0]) && t.slots[s.free[0]].ssrc == csrcs[0]
    requires forall x :: Unknown(s2, x) <==> Unknown(s, x) && x != csrcs[0]
    ensures HaveEntered(s, t, p, csrcs, from, arrival, rest + 1)
  {
    hide EnteredFor, NobodyLeftOut, Unknown;
    FirstLeftOut(s, s2, t, csrcs, rest);
    var i, k := s.free[0], rest + 1;
    assert s.free[..k] == [i] + s2.free[..rest] && s.free[k..] == s2.free[rest..];
    assert s.used + s.free[..k] == s2.used + s2.free[..rest];
    forall j | 0 < j < k ensures EnteredFor(s, t, p, csrcs, from, arrival, s.free[j]) {
      assert s.free[j] == s2.free[j - 1];
      EnteredStill(s, s2, t, p, csrcs, from, arrival, s2.free[j - 1]);
    }
    forall j | k <= j < |s.free| ensures t.slots[s.free[j]] == s.slots[s.free[j]] {
      assert s.free[j] == s2.free[j - 1];
    }
  }

  lemma FirstSlot(s: State, s2: State, t: State, p: RtpPacket.Packet, csrcs: seq<u32>, from: Addr, arrival: u32)
    requires csrcs != [] && s.free != [] && Unknown(s, csrcs[0])
    requires s.free[0] !in s.used && forall j | 0 < j < |s.free| :: s.free[j] != s.free[0]
    requires var i := s.free[0];
             && s2.used == s.used + [i] && s2.free == s.free[1..]
             && s2.slots == s.slots[i := Entered(s.slots[i], csrcs[0], from, s.timers.now, [Heard(p.seqno), Arrived(p.ts, arrival)], true)]
             && t.slots[i] == Contributed(s2.slots[i], p, from, s.timers.now, arrival, multiset(csrcs[1..])[csrcs[0]])
    ensures EnteredFor(s, t, p, csrcs, from, arrival, s.free[0]) && t.slots[s.free[0]].ssrc == csrcs[0]
    ensures forall x :: Unknown(s2, x) <==> Unknown(s, x) && x != csrcs[0]
    ensures forall j | 0 <= j < |s2.free| :: s2.slots[s2.free[j]] == s.slots[s2.free[j]]
  {
    hide Entered, Arrivals, Contributed, EnteredFor, Unknown;
    var i, c := s.free[0], csrcs[0];
    EnteredMore(s.slots[i], c, p, from, s.timers.now, arrival, multiset(csrcs[1..])[c]);
    EnteredSsrc(s.slots[i], c, from, s.timers.now, [Heard(p.seqno), Arrived(p.ts, arrival)]);
    UnknownLess(s, s2, c);
    EnteredNow(s, t, p, csrcs, from, arrival);
    forall j | 0 <= j < |s2.free| ensures s2.slots[s2.free[j]] == s.slots[s2.free[j]] {
      assert s2.free[j] == s.free[j + 1];
    }
  }

  lemma FirstLeftOut(s: State, s2: State, t: State, csrcs: seq<u32>, rest: nat)
    requires csrcs != [] && s.free != [] && s2.free == s.free[1..] && rest <= |s2.free|
    requires NobodyLeftOut(s2, t, csrcs[1..], rest) && t.slots[s.free[0]].ssrc == csrcs[0]
    requires forall x :: Unknown(s2, x) <==> Unknown(s, x) && x != csrcs[0]
    ensures NobodyLeftOut(s, t, csrcs, rest + 1)
  {
    hide Unknown;
    FirstBag(csrcs);
    forall x | x in csrcs && Unknown(s, x) ensures t.free == [] || exists j :: 0 <= j < rest + 1 && t.slots[s.free[j]].ssrc == x {
      if x == csrcs[0] {
        assert t.slots[s.free[0]].ssrc == x;
      } else if t.free != [] {
        var j :| 0 <= j < rest && t.slots[s2.free[j]].ssrc == x;
        assert s.free[j + 1] == s2.free[j];
      }
    }
  }

  lemma FirstBag(csrcs: seq<u32>)
    requires csrcs != []
    ensures forall x :: x in csrcs <==> x == csrcs[0] || x in csrcs[1..]
  {
    assert csrcs == [csrcs[0]] + csrcs[1..];
  }

  lemma EnteredNow(s: State, t: State, p: RtpPacket.Packet, csrcs: seq<u32>, from: Addr, arrival: u32)
    requires csrcs != [] && s.free != [] && Unknown(s, csrcs[0])
    requires t.slots[s.free[0]] ==
             Entered(s.slots[s.free[0]], csrcs[0], from, s.timers.now,
                     [Heard(p.seqno)] + Arrivals(p.ts, arrival, 1 + multiset(csrcs[1..])[csrcs[0]]), true)
    ensures EnteredFor(s, t, p, csrcs, from, arrival, s.free[0]) && t.slots[s.free[0]].ssrc == csrcs[0]
  {
    hide Arrivals, Unknown, Life;
    FirstOfBag(csrcs, csrcs[0]);
  }

  lemma EnteredStill(s: State, s2: State, t: State, p: RtpPacket.Packet, csrcs: seq<u32>, from: Addr, arrival: u32, i: Slot)
    requires csrcs != [] && s2.slots[i] == s.slots[i] && s2.timers.now == s.timers.now
    requires EnteredFor(s2, t, p, csrcs[1..], from, arrival, i)
    requires forall x :: Unknown(s2, x) <==> Unknown(s, x) && x != csrcs[0]
    ensures EnteredFor(s, t, p, csrcs, from, arrival, i)
  {
    hide Arrivals, Unknown, Entered;
    FirstOfBag(csrcs, t.slots[i].ssrc);
    assert csrcs == [csrcs[0]] + csrcs[1..];
  }

  lemma EnteredSsrc(former: Member, c: u32, from: Addr, now: nat, ops: seq<SourceOp>)
    ensures Entered(former, c, from, now, ops, true).ssrc == c
  {
  }

  lemma UnknownLess(s: State, t: State, c: u32)
    requires s.free != [] && s.free[0] !in s.used
    requires t.used == s.used + [s.free[0]] && t.slots == s.slots[s.free[0] := t.slots[s.free[0]]]
    requires t.slots[s.free[0]].ssrc == c
    ensures forall x :: Unknown(t, x) <==> Unknown(s, x) && x != c
  {
    assert s.free[0] in t.used;
    assert forall i | i in s.used :: i in t.used && t.slots[i] == s.slots[i];
    assert forall i | i in t.used :: i in s.used || i == s.free[0];
  }

  /** Who has joined when the user has got a packet. */
  lemma ContributorsJoin(s: State, pkt: seq<u8>, p: RtpPacket.Packet, from: Addr, arrival: u32, i: Slot) returns (k: nat)
    requires Good(s) && Admissible(s, RtpArrives(pkt, from, arrival))
    requires Carried(pkt, s.cfg.pt, p) && Taken(s, p, from, i) && s.slots[s.self].ssrc !in p.csrcs
    ensures HaveEntered(s, Step(s, RtpArrives(pkt, from, arrival)), p, p.csrcs, from, arrival, k)
  {
    hide TimersOk, CountersOk, ConflictsOk, SeqsOk, AllReportedOk, OutputGood, RenumberOk, SpacingOk, Fair;
    hide RtpPacket.Check, AcceptRtp, Carried, HaveEntered, UpdateSeq, HandleRtpSsrc;
    CarriedIs(pkt, s.cfg.pt, p);
    SourceFound(s, p, from);
    HandleRtpSsrcKeeps(s, p.ssrc, p.seqno, from, false, None);
    var (s1, r) := HandleRtpSsrc(s, p.ssrc, p.seqno, from, false);
    KeptCfg(s, s1);
    TakenRefreshes(s, p, from, i);
    hide TableOk;
    AcceptedShape(s1, i, p, from, arrival);
    BeforeContributorsKeeps(s1, i, p, arrival);
    hide BeforeContributors;
    var s3 := BeforeContributors(s1, i, p, arrival);
    k := ContributorsEnter(s3, p, p.csrcs, from, arrival);
    var t := Step(s, RtpArrives(pkt, from, arrival));
    assert t == Deliver(HandleCsrcs(s3, p.csrcs, p.seqno, p.ts, from, arrival), i, p, from, s1.slots[i]);
    hide Step, HandleCsrcs, Taken, Inv;
    NotFree(s, i);
    EnteredToo(s, s3, HandleCsrcs(s3, p.csrcs, p.seqno, p.ts, from, arrival), t, p, from, arrival, i, k);
  }

  lemma NotFree(s: State, i: Slot)
    requires Inv(s, {})
    ensures i in s.used ==> i !in s.free
  {
    hide TimersOk, CountersOk, ConflictsOk;
  }

  /** The source of a packet that is taken is refreshed, and no other entry is touched on the way. */
  lemma TakenRefreshes(s: State, p: RtpPacket.Packet, from: Addr, i: Slot)
    requires TableOk(s) && Taken(s, p, from, i)
    ensures var t := HandleRtpSsrc(s, p.ssrc, p.seqno, from, false).0;
            && t == s.(slots := t.slots, timers := t.timers)
            && t.slots == s.slots[i := t.slots[i]] && t.slots[i].ssrc == s.slots[i].ssrc && t.timers.now == s.timers.now
  {
    hide Rearm, UpdateSeq;
    FoundIsOnly(s, p.ssrc, i);
  }

  lemma EnteredToo(s: State, s3: State, t3: State, t: State, p: RtpPacket.Packet, from: Addr, arrival: u32, i: Slot, k: nat)
    requires HaveEntered(s3, t3, p, p.csrcs, from, arrival, k)
    requires s3.used == s.used && s3.free == s.free && s3.slots == s.slots[i := s3.slots[i]] && s3.timers.now == s.timers.now
    requires s3.slots[i].ssrc == s.slots[i].ssrc && i !in s.free
    requires t.used == t3.used && t.free == t3.free && t.slots == t3.slots[i := t.slots[i]]
    ensures HaveEntered(s, t, p, p.csrcs, from, arrival, k)
  {
    hide Entered, Arrivals;
    assert forall c :: Unknown(s3, c) <==> Unknown(s, c);
    hide Unknown;
    forall j | 0 <= j < |s.free| ensures s.free[j] != i {
      assert s.free[j] in s.free;
    }
    forall j | 0 <= j < k ensures EnteredFor(s, t, p, p.csrcs, from, arrival, s.free[j]) {
      assert EnteredFor(s3, t3, p, p.csrcs, from, arrival, s.free[j]);
    }
  }

  // ---------------------------------------------------------------- verdicts, and what RTP does not touch

  /** What a packet from another member leads to, and that nobody joins and nothing is handed out unless
      the user gets it. */
  lemma VerdictAfter(s: State, pkt: seq<u8>, p: RtpPacket.Packet, from: Addr, arrival: u32, i: Slot)
    requires Good(s) && Admissible(s, RtpArrives(pkt, from, arrival)) && Carried(pkt, s.cfg.pt, p)
    requires i in s.used && i != s.self && s.slots[i].ssrc == p.ssrc
    ensures var m, t := s.slots[i], Step(s, RtpArrives(pkt, from, arrival));
            && t.rtpStatus == (if m.bye then RtpByeInProgress
                               else if !m.rtpHeard then RtpFirstHeard
                               else if m.rtpAddr != from then RtpThirdParty
                               else if !UpdateSeq(m.src, p.seqno).1 then RtpSeqError
                               else RtpNoError)
            && (!Taken(s, p, from, i) ==> t.used == s.used && t.free == s.free && t.out == s.out && t.conflicts == s.conflicts)
  {
    hide TimersOk, CountersOk, ConflictsOk, SeqsOk, AllReportedOk, OutputGood, RenumberOk, SpacingOk, Fair;
    hide RtpPacket.Check, Carried, UpdateSeq, HandleCsrcs, Arm, Rearm, Evolve, FirstHeard;
    CarriedIs(pkt, s.cfg.pt, p);
    FoundIsOnly(s, p.ssrc, i);
    NamedOnce(s, p.seqno, from, false, i);
    NothingHappens(s.slots[i].src);
    hide Lookup, TableOk, Touched;
    TouchedRecord(s.slots[i], from, s.timers.now);
  }

  lemma TouchedRecord(m: Member, from: Addr, now: nat)
    ensures Touched(m, from, now, []).src == m.src
  {
    NothingHappens(m.src);
  }

  /** What RTP may change besides entries, table and timers. */
  ghost predicate RtpOnly(s: State, t: State) {
    && t.cfg == s.cfg && t.self == s.self && t.drandAt == s.drandAt && t.seqno == s.seqno
    && t.invalidRtcp == s.invalidRtcp && t.rtcpStatus == s.rtcpStatus
    && t.control == s.control.(members := t.control.members, senders := t.control.senders)
    && t.out == s.out.(delivered := t.out.delivered, renumbered := t.out.renumbered, tally := t.out.tally)
  }

  lemma RtpOnlyTrans(s: State, t: State, u: State)
    requires RtpOnly(s, t) && RtpOnly(t, u)
    ensures RtpOnly(s, u)
  {
  }

  lemma HandleRtpSsrcOnly(s: State, ssrc: u32, seqno: u16, from: Addr, csrc: bool)
    ensures RtpOnly(s, HandleRtpSsrc(s, ssrc, seqno, from, csrc).0)
  {
    hide Arm, Rearm, FirstHeard, Fresh, Collide, Lookup;
    var found := Lookup(s, ssrc);
    if found.Some? {
      CollideOnly(s, found.value, from);
    }
  }

  lemma CollideOnly(s: State, i: Slot, from: Addr)
    ensures var t := Collide(s, i, from).0; RtpOnly(s, t) && t.control == s.control
  {
    hide DrawnAt, LookupAddr, AddAddr;
  }

  lemma {:induction false} HandleCsrcsOnly(s: State, csrcs: seq<u32>, seqno: u16, ts: u32, from: Addr, arrival: u32)
    ensures RtpOnly(s, HandleCsrcs(s, csrcs, seqno, ts, from, arrival))
    decreases |csrcs|
  {
    hide HandleRtpSsrc, Evolve;
    if csrcs != [] {
      HandleRtpSsrcOnly(s, csrcs[0], seqno, from, true);
      var (s1, r) := HandleRtpSsrc(s, csrcs[0], seqno, from, true);
      var s2 := if r.Some? then Jitter(s1, r.value, ts, arrival) else s1;
      HandleCsrcsOnly(s2, csrcs[1..], seqno, ts, from, arrival);
      RtpOnlyTrans(s, s2, HandleCsrcs(s2, csrcs[1..], seqno, ts, from, arrival));
    }
  }

  /** Receiving RTP touches neither the RTCP interval, but for the counts of members and senders, nor what
      is sent, reported or told. */
  lemma RtpChangesOnly(s: State, pkt: seq<u8>, from: Addr, arrival: u32)
    requires Settled(s.timers)
    ensures RtpOnly(s, Step(s, RtpArrives(pkt, from, arrival)))
  {
    hide RtpPacket.Check, HandleRtpSsrc, HandleCsrcs, Evolve, UpdateSeq;
    var check := RtpPacket.Check(pkt, s.cfg.pt);
    if check.Accepted? {
      var p := check.packet;
      HandleRtpSsrcOnly(s, p.ssrc, p.seqno, from, false);
      var (s1, r) := HandleRtpSsrc(s, p.ssrc, p.seqno, from, false);
      if r.Some? && UpdateSeq(s1.slots[r.value].src, p.seqno).1 {
        HandleCsrcsOnly(BeforeContributors(s1, r.value, p, arrival), p.csrcs, p.seqno, p.ts, from, arrival);
        AcceptedShape(s1, r.value, p, from, arrival);
      }
    }
  }
}
