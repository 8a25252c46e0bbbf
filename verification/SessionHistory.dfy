/**
 What the steps of a session do to its history: which members they keep, what they deliver,
 when they report and when they renumber us.
 */
module SessionHistory {
  import opened Words
  import opened SoftTimer
  import opened SessionTimers
  import opened ConflictTable
  import opened RtpSource
  import opened SourceLife
  import opened Session
  import opened SessionInterval
  import opened SessionInvariant
  import opened SessionReports
  import RtpPacket
  import Codec = RtcpCodec

  // ---------------------------------------------------------------- delivery

  /** A member that is heard on RTP: its address is the one bound when it was first heard, and
      until a packet has been delivered it is on probation. */
  ghost predicate SeqOk(m: Member) {
    SeqOkPending(m) && (m.rtpHeard && m.src.probation == 0 ==> m.hist.delivered)
  }

  ghost predicate SeqOkPending(m: Member) {
    && LifeOk(m)
    && (m.rtpHeard ==>
          && m.hist.bound == m.rtpAddr
          && m.src.probation <= MIN_SEQUENTIAL
          && (m.src.probation == 1 ==> m.hist.checked == Some(m.src.maxSeq)))
  }

  /** The reception record is what was found in the slot, changed by all that has happened since. */
  ghost predicate LifeOk(m: Member) {
    && m.src == Life(m.hist.inherited, m.hist.life)
    && InOrder(m.hist.life)
    && (m.rtpHeard ==> HeardIn(m.hist.life))
  }

  lemma FreshLife(m: Member, ssrc: u32)
    ensures LifeOk(Fresh(m, ssrc))
  {
  }

  lemma EvolveLife(m: Member, op: SourceOp)
    requires op.Checked? || op.Arrived? ==> m.rtpHeard
    ensures LifeOk(m) ==> LifeOk(Evolve(m, op))
    ensures LifeOk(m) && op.Heard? ==> LifeOk(Evolve(m, op).(rtpHeard := true))
  {
    hide Undergo;
    LifeSnoc(m.hist.inherited, m.hist.life, op);
    hide Life, InOrder, HeardIn;
  }

  // ---------------------------------------------------------------- figures that were reported

  /** The report has a block on this source, with the loss figures, the highest sequence number and the
      jitter of this record, and the delay since the last sender report of the member in slot `i`. */
  ghost predicate Shows(r: ReportSent, ssrc: u32, record: Source, i: Slot) {
    && |r.packets| > 0 && (r.packets[0].packet.SenderReport? || r.packets[0].packet.ReceiverReport?)
    && exists b | b in r.packets[0].packet.blocks ::
         && b.ssrc == ssrc
         && b.fraction == Report(record).1.fraction && b.lost == Report(record).1.lost
         && b.lastSeq == (record.cycles + record.maxSeq) % 0x1_0000_0000
         && b.jitter == record.jitter && b.dlsr == r.seen.wall.dlsr(i)
  }

  /** The `p`th thing that happened to the member was the computation of its figures for an attempt to
      report, and if that report was sent, they are in it. */
  ghost predicate ComputedFor(m: Member, i: Slot, p: nat, reports: seq<ReportSent>)
    requires p < |m.hist.life| && m.hist.life[p].Summed?
  {
    var attempt := m.hist.life[p].attempt;
    && attempt < |reports|
    && (reports[attempt].message != [] ==>
          Shows(reports[attempt], m.ssrc, Life(m.hist.inherited, m.hist.life[..p]), i))
  }

  /** Every computation of a member's figures was for an attempt to report, each for a later one. */
  ghost predicate ReportedOk(m: Member, i: Slot, reports: seq<ReportSent>) {
    var life := m.hist.life;
    m.isSelf ||
      (&& (forall p | 0 <= p < |life| && life[p].Summed? :: ComputedFor(m, i, p, reports))
       && (forall p, q | 0 <= p < q < |life| && life[p].Summed? && life[q].Summed? :: life[p].attempt < life[q].attempt))
  }

  ghost predicate AllReportedOk(slots: Slots, reports: seq<ReportSent>) {
    forall i: Slot :: ReportedOk(slots[i], i, reports)
  }

  /** Nothing but a computation of figures needs a report. */
  lemma EvolveReported(m: Member, i: Slot, op: SourceOp, reports: seq<ReportSent>)
    requires !op.Summed?
    ensures ReportedOk(m, i, reports) ==> ReportedOk(Evolve(m, op), i, reports)
  {
    hide Shows, Report, Life, Undergo;
    var n := Evolve(m, op);
    if ReportedOk(m, i, reports) && !m.isSelf {
      forall p | 0 <= p < |n.hist.life| && n.hist.life[p].Summed? ensures ComputedFor(n, i, p, reports) {
        assert ComputedFor(m, i, p, reports) && n.hist.life[..p] == m.hist.life[..p];
      }
    }
  }

  lemma SameReported(m: Member, n: Member, i: Slot, reports: seq<ReportSent>)
    requires n.isSelf == m.isSelf && (m.isSelf || n.ssrc == m.ssrc)
    requires n.hist.inherited == m.hist.inherited && n.hist.life == m.hist.life
    ensures ReportedOk(m, i, reports) ==> ReportedOk(n, i, reports)
  {
    hide Shows, Report, Life;
    if ReportedOk(m, i, reports) && !m.isSelf {
      forall p | 0 <= p < |n.hist.life| && n.hist.life[p].Summed? ensures ComputedFor(n, i, p, reports) {
        assert ComputedFor(m, i, p, reports);
      }
    }
  }

  lemma StillReported(m: Member, i: Slot, reports: seq<ReportSent>, r: ReportSent)
    requires ReportedOk(m, i, reports)
    ensures ReportedOk(m, i, reports + [r])
  {
    hide Shows, Report, Life;
    if !m.isSelf {
      forall p | 0 <= p < |m.hist.life| && m.hist.life[p].Summed? ensures ComputedFor(m, i, p, reports + [r]) {
        assert ComputedFor(m, i, p, reports);
      }
    }
  }

  lemma NewlyReported(m: Member, i: Slot, reports: seq<ReportSent>, r: ReportSent)
    requires ReportedOk(m, i, reports) && LifeOk(m) && !m.isSelf
    requires r.message != [] ==> Shows(r, m.ssrc, m.src, i)
    ensures ReportedOk(Evolve(m, Summed(|reports|)), i, reports + [r])
  {
    hide Shows, Report, Life, Undergo, InOrder, HeardIn;
    var n := Evolve(m, Summed(|reports|));
    forall p | 0 <= p < |n.hist.life| && n.hist.life[p].Summed? ensures ComputedFor(n, i, p, reports + [r]) {
      if p < |m.hist.life| {
        assert ComputedFor(m, i, p, reports) && n.hist.life[..p] == m.hist.life[..p];
      } else {
        assert n.hist.life[..p] == m.hist.life;
      }
    }
    forall p, q | 0 <= p < q < |n.hist.life| && n.hist.life[p].Summed? && n.hist.life[q].Summed?
      ensures n.hist.life[p].attempt < n.hist.life[q].attempt
    {
      assert ComputedFor(m, i, p, reports);
    }
  }

  /** An attempt to report computes new figures for some members and puts them into the report, if it
      is sent. */
  lemma ReportShows(s: State, interval: real, wall: Wall)
    requires NoDup(s.used) && SeqsOk(s.slots, None) && AllReportedOk(s.slots, s.out.reports)
    ensures var t := SendReport(s, interval, wall).0; AllReportedOk(t.slots, t.out.reports)
  {
    hide ReportBlocks, Others, Moved, ReportPackets, ReportMessage, ReportBlock, NoDup, Report, Evolve, ReportedOk, SeqOk;
    var t, reports := SendReport(s, interval, wall).0, s.out.reports;
    var r := t.out.reports[|reports|];
    ReportCoversOthers(s.slots, s.used, ReportRoom(s), wall.dlsr, |reports|);
    var others := Others(s.slots, s.used);
    forall i: Slot ensures ReportedOk(t.slots[i], i, reports + [r]) {
      assert ReportedOk(s.slots[i], i, reports) && SeqOk(s.slots[i]);
      if i in Moved(others, ReportRoom(s)) {
        MovedAmong(others, ReportRoom(s));
        OthersAmong(s.slots, s.used);
        BlockShown(s, interval, wall, i);
        LifeOfSeq(s.slots[i]);
        NewlyReported(s.slots[i], i, reports, r);
      } else {
        StillReported(s.slots[i], i, reports, r);
      }
    }
  }

  lemma LifeOfSeq(m: Member)
    requires SeqOk(m)
    ensures LifeOk(m)
  {
  }

  lemma BlockShown(s: State, interval: real, wall: Wall, i: Slot)
    requires NoDup(s.used) && i in Others(s.slots, s.used)
    ensures var t := SendReport(s, interval, wall).0;
            var r := t.out.reports[|s.out.reports|];
            r.message != [] ==> Shows(r, s.slots[i].ssrc, s.slots[i].src, i)
  {
    hide ReportBlocks, Others, Moved, NoDup, Report, Evolve, Codec.EncodeAll, Codec.AllEncodable;
    var others := Others(s.slots, s.used);
    ReportCoversOthers(s.slots, s.used, ReportRoom(s), wall.dlsr, |s.out.reports|);
    var (_, blocks, fitted) := ReportBlocks(s.slots, s.used, ReportRoom(s), wall.dlsr, |s.out.reports|);
    if fitted {
      var k :| 0 <= k < |others| && others[k] == i;
      assert blocks[k] in ReportPackets(s, blocks, wall)[0].packet.blocks;
    }
  }

  /** `pending` is the member whose packet is being accepted. */
  ghost predicate SeqsOk(slots: Slots, pending: Option<Slot>) {
    forall i: Slot :: if Some(i) == pending then SeqOkPending(slots[i]) else SeqOk(slots[i])
  }

  /** What holds of every packet handed to the user: it comes from the address its source was
      bound to when it was last first heard; the source had not said goodbye; and if it is the
      first one since then, its predecessor in sequence was checked just before. */
  ghost predicate DeliveryGood(d: Delivery) {
    && d.packet.ssrc == d.source.ssrc
    && d.from == d.source.hist.bound
    && !d.source.bye && !d.source.isSelf
    && (!d.source.hist.delivered ==> d.source.hist.checked.Some? && d.packet.seqno == d.source.hist.checked.value + 1)
  }

  /** A packet that a receiver of payload type `pt` accepts, with sequence number `seqno`. */
  ghost predicate Carries(msg: seq<u8>, pt: u8, seqno: u16) {
    var r := RtpPacket.Check(msg, pt);
    r.Accepted? && r.packet.seqno == seqno
  }

  /** The packets sent so far are numbered consecutively, modulo 65536. */
  ghost predicate SentOk(sent: seq<seq<u8>>, next: u16, cfg: Config) {
    && next == Wrap16(cfg.random32(0) + |sent|)
    && (cfg.pt < 128 ==>
          forall k | 0 <= k < |sent| :: Carries(sent[k], cfg.pt, Wrap16(cfg.random32(0) + k)))
  }

  /** A report is sent exactly if it fits the buffer, with a block for every other member counted;
      then it is accepted by a receiver and decoded to what was put in. */
  ghost predicate ReportReadable(r: ReportSent) {
    && |r.message| <= ENCODER_BUFFER_LEN
    && (r.message != [] <==> ReportSize(r.control.weSent, r.control.members - 1, |r.seen.slots[r.seen.self].cname|) <= ENCODER_BUFFER_LEN)
    && (r.message != [] ==> Stands(r))
    && (r.message != [] ==> Codec.Receive(r.message) == Codec.Compound(Codec.Packets(r.packets)))
  }

  /** Our statistics count the packets sent and the packets refused since they were started anew,
      modulo 2^32. */
  ghost predicate Tallied(s: State) {
    var tally := s.out.tally;
    && tally.before <= |s.out.sent|
    && s.txPkts == Wrap32(|s.out.sent| - tally.before + tally.refused)
    && s.txOctets == Wrap32(tally.octets + tally.refusedOctets)
  }

  ghost predicate OutputGood(s: State) {
    && Tallied(s)
    && (forall d | d in s.out.delivered :: DeliveryGood(d))
    && SentOk(s.out.sent, s.seqno, s.cfg)
    && (forall r | r in s.out.reports :: ReportReadable(r))
  }

  lemma ReportIsReadable(s: State, interval: real, wall: Wall)
    requires TableOk(s) && CountersOk(s)
    ensures var sent := SendReport(s, interval, wall).0.out.reports;
            |sent| > 0 && ReportReadable(sent[|sent| - 1])
  {
    hide SendReport, TableOk, CountersOk, Stands, Others, Moved, ReportSize, Codec.Receive, Codec.Packets;
    UsedOnce(s);
    OthersCounted(s);
    ReportSentIff(s, interval, wall);
    ReportStands(s, interval, wall);
    var r := SendReport(s, interval, wall).0.out.reports[|s.out.reports|];
    AttemptSize(s, interval, wall);
    if r.message != [] {
      StandsReceived(r);
    }
  }

  lemma UsedOnce(s: State)
    requires TableOk(s) && CountersOk(s)
    ensures NoDup(s.used) && s.slots[s.self].sender == s.control.weSent
  {
  }

  lemma AttemptSize(s: State, interval: real, wall: Wall)
    ensures var (t, size) := SendReport(s, interval, wall);
            var r := t.out.reports[|s.out.reports|];
            |r.message| == size <= ENCODER_BUFFER_LEN && r.control == s.control
  {
    hide ReportBlocks, Codec.EncodeAll, Codec.AllEncodable, ReportPackets;
  }

  /** What stands in a report is received. */
  lemma StandsReceived(r: ReportSent)
    requires Stands(r) && |r.message| <= ENCODER_BUFFER_LEN
    ensures Codec.Receive(r.message) == Codec.Compound(Codec.Packets(r.packets))
  {
    hide Others, BlockOn, Codec.Receive, Codec.EncodeAll, Codec.AllEncodable, Codec.AllReadable, Codec.AllCounted, Codec.Packets;
    Codec.SmallIsReadable(r.packets);
    Codec.CompoundRoundTrip(r.packets);
  }

  lemma NextSent(sent: seq<seq<u8>>, next: u16, cfg: Config, p: RtpPacket.Packet)
    requires SentOk(sent, next, cfg) && p.seqno == next && |p.csrcs| <= 15
    ensures SentOk(sent + [RtpPacket.Encode(p, cfg.pt, cfg.align)], Wrap16(next + 1), cfg)
  {
    if cfg.pt < 128 {
      SentCarriesNumber(p, cfg.pt, cfg.align);
    }
    hide RtpPacket.Encode, Carries, Wrap16;
    NextNumber(cfg.random32(0), |sent|);
  }

  lemma SentCarriesNumber(p: RtpPacket.Packet, pt: u8, align: bool)
    requires |p.csrcs| <= 15 && pt < 128
    ensures Carries(RtpPacket.Encode(p, pt, align), pt, p.seqno)
  {
    hide RtpPacket.Encode, RtpPacket.Check;
    RtpPacket.RoundTrip(p, pt, align);
  }

  lemma NextNumber(first: nat, n: nat)
    ensures Wrap16(Wrap16(first + n) + 1) == Wrap16(first + (n + 1))
  {
  }

  // ---------------------------------------------------------------- renumbering

  /** An address makes us change our SSRC only when it has not been entered or found for 50 ticks;
      and after a recorded collision it has been entered, then or later. */
  ghost predicate RenumberingsOk(renumbered: seq<Renumbering>, touched: map<Addr, nat>, now: nat) {
    && (forall addr | addr in touched :: touched[addr] <= now)
    && (forall k | 0 <= k < |renumbered| ::
          && renumbered[k].tick <= now
          && (renumbered[k].before.Some? ==> renumbered[k].before.value + 50 <= renumbered[k].tick)
          && (renumbered[k].recorded ==>
                renumbered[k].addr in touched && renumbered[k].tick <= touched[renumbered[k].addr]))
    && (forall j, k | 0 <= j < k < |renumbered| ::
          renumbered[j].recorded && renumbered[j].addr == renumbered[k].addr ==>
            renumbered[k].before.Some? && renumbered[j].tick <= renumbered[k].before.value)
  }

  ghost predicate RenumberOk(s: State) {
    RenumberingsOk(s.out.renumbered, s.conflicts.touched, s.timers.now)
  }

  /** No change of our SSRC and no entry of the conflict table's history is forgotten; a new change
      is of this tick, and the address was last touched no earlier than the history had it before. */
  ghost predicate Renumbers(s: State, t: State) {
    var was, later := s.out.renumbered, t.out.renumbered;
    && |was| <= |later| && later[..|was|] == was
    && (forall addr | addr in s.conflicts.touched ::
          addr in t.conflicts.touched && s.conflicts.touched[addr] <= t.conflicts.touched[addr])
    && (forall k | |was| <= k < |later| ::
          && later[k].tick == t.timers.now
          && (later[k].addr in s.conflicts.touched ==>
                later[k].before.Some? && s.conflicts.touched[later[k].addr] <= later[k].before.value))
  }

  // ---------------------------------------------------------------- reports

  /** The tick counter in milliseconds has not wrapped around yet. */
  ghost predicate EarlyEnough(now: nat) {
    now * 100 < 0x1_0000_0000
  }

  /** A later report keeps its distance from the one before, and the distance was computed from
      at least one member. */
  ghost predicate KeepsDistance(a: ReportSent, b: ReportSent) {
    && a.at + b.interval <= b.at
    && 2.5 / 1.21828 <= b.interval
    && 1 <= Sharers(b.control)
    && 0.5 * Allowed(b.control) / 1.21828 <= b.interval
  }

  /** The RTCP timer, if it is armed, is due in the first tick that does not come before the scheduled
      time, cut to whole milliseconds; a time that a signed 32-bit number of milliseconds cannot hold may
      come out early. */
  ghost predicate DueInTime(s: State) {
    var due := DueAt(s.timers, RtcpTimer);
    due.Some? ==>
      && ((due.value - 1) * 100) as real < s.control.tn * 1000.0
      && (s.control.tn * 1000.0 < 2147483648.0 ==> s.control.tn * 1000.0 - 1.0 < (due.value * 100) as real)
  }

  ghost predicate SpacingOk(s: State) {
    EarlyEnough(s.timers.now) ==>
      && DueInTime(s)
      && (s.control.initial <==> s.out.reports == [])
      && s.control.tp <= Now(s.timers)
      && (s.out.reports != [] ==> s.out.reports[|s.out.reports| - 1].at == s.control.tp)
      && Spaced(s.out.reports)
  }

  // ---------------------------------------------------------------- packets keep members

  /** What a packet or a transmission may do to a member that is in the table. */
  ghost predicate Kept(m: Member, n: Member, now: nat) {
    && n.isSelf == m.isSelf
    && (!m.isSelf ==> n.ssrc == m.ssrc)
    && (m.bye ==> n == m)
    && (m.rtpHeard ==> n.rtpHeard)
    && (n.rtpHeard && !m.rtpHeard ==> n.hist.heard == now)
    && (n.bye && !m.bye ==> n.hist.left == now)
    && (n.hist.refreshed == m.hist.refreshed || n.hist.refreshed == now)
    && (n.hist.heard == m.hist.heard || n.hist.heard == now)
  }

  ghost predicate MembersKept(s: State, t: State) {
    && t.cfg == s.cfg && t.self == s.self
    && t.timers.now == s.timers.now && (Settled(s.timers) ==> Settled(t.timers))
    && (forall i | i in s.used :: i in t.used && Kept(s.slots[i], t.slots[i], s.timers.now))
  }

  /** Everything but the tick: no member is removed or demoted, nothing is reported, and the
      histories stay good. */
  ghost predicate Tickless(s: State, t: State, pending: Option<Slot>) {
    && MembersKept(s, t)
    && t.out.reports == s.out.reports && t.control.tp == s.control.tp && t.control.initial == s.control.initial
    && t.control.tn == s.control.tn && DueAt(t.timers, RtcpTimer) == DueAt(s.timers, RtcpTimer)
    && (AllReportedOk(s.slots, s.out.reports) ==> AllReportedOk(t.slots, t.out.reports))
    && (SeqsOk(s.slots, pending) ==> SeqsOk(t.slots, pending))
    && (OutputGood(s) ==> OutputGood(t))
    && (RenumberOk(s) ==> RenumberOk(t) && Renumbers(s, t))
  }

  /** Reception: besides, whether and when we last sent stays as it is. */
  ghost predicate Quick(s: State, t: State, pending: Option<Slot>) {
    && Tickless(s, t, pending)
    && t.control.weSent == s.control.weSent
    && t.slots[t.self].hist.heard == s.slots[s.self].hist.heard
  }

  lemma QuickRefl(s: State, pending: Option<Slot>)
    ensures Quick(s, s, pending)
  {
  }

  lemma QuickTrans(s: State, t: State, u: State, pending: Option<Slot>)
    requires Quick(s, t, pending) && Quick(t, u, pending)
    ensures Quick(s, u, pending)
  {
    hide SeqsOk, AllReportedOk, OutputGood, RenumberOk, MembersKept, Renumbers;
    MembersKeptTrans(s, t, u);
    if Renumbers(s, t) && Renumbers(t, u) {
      RenumbersTrans(s, t, u);
    }
  }

  lemma MembersKeptTrans(s: State, t: State, u: State)
    requires MembersKept(s, t) && MembersKept(t, u)
    ensures MembersKept(s, u) && s.timers.now == t.timers.now == u.timers.now
  {
  }

  lemma RenumbersTrans(s: State, t: State, u: State)
    requires Renumbers(s, t) && Renumbers(t, u) && s.timers.now == t.timers.now == u.timers.now
    ensures Renumbers(s, u)
  {
    var was, mid, later := s.out.renumbered, t.out.renumbered, u.out.renumbered;
    assert later[..|was|] == mid[..|was|];
    forall k | |was| <= k < |later| && later[k].addr in s.conflicts.touched
      ensures later[k].before.Some? && s.conflicts.touched[later[k].addr] <= later[k].before.value
      ensures later[k].tick == u.timers.now
    {
      assert k < |mid| ==> later[k] == mid[k];
    }
    forall k | |was| <= k < |later|
      ensures later[k].tick == u.timers.now
    {
      assert k < |mid| ==> later[k] == mid[k];
    }
  }

  /** At most one slot changes; the timers keep their time. */
  ghost predicate OneSlot(s: State, t: State, i: Slot) {
    && t.cfg == s.cfg && t.self == s.self && t.slots == s.slots[i := t.slots[i]]
    && t.timers.now == s.timers.now && (Settled(s.timers) ==> Settled(t.timers))
    && DueAt(t.timers, RtcpTimer) == DueAt(s.timers, RtcpTimer)
    && (forall k | k in s.used :: k in t.used)
    && t.out == s.out.(delivered := t.out.delivered, told := t.out.told, sent := t.out.sent, tally := t.out.tally)
    && t.control.tp == s.control.tp && t.control.tn == s.control.tn && t.control.initial == s.control.initial
    && t.conflicts == s.conflicts
  }

  lemma SlotTickless(s: State, t: State, i: Slot, pending: Option<Slot>)
    requires OneSlot(s, t, i)
    requires i in s.used ==> Kept(s.slots[i], t.slots[i], s.timers.now)
    requires ReportedOk(s.slots[i], i, s.out.reports) ==> ReportedOk(t.slots[i], i, s.out.reports)
    requires OutputGood(s) ==> OutputGood(t)
    requires SeqOkPending(s.slots[i]) ==> SeqOkPending(t.slots[i])
    requires Some(i) != pending ==> (SeqOk(s.slots[i]) ==> SeqOk(t.slots[i]))
    ensures Tickless(s, t, pending)
  {
    hide SeqOk, SeqOkPending, ReportedOk, OutputGood, RenumberingsOk;
  }

  lemma OneSlotOnly(s: State, t: State, i: Slot)
    requires OneSlot(s, t, i)
    ensures t.self == s.self && t.slots == s.slots[i := t.slots[i]]
  {
  }

  lemma SlotQuick(s: State, t: State, i: Slot, pending: Option<Slot>)
    requires OneSlot(s, t, i)
    requires i in s.used ==> Kept(s.slots[i], t.slots[i], s.timers.now)
    requires ReportedOk(s.slots[i], i, s.out.reports) ==> ReportedOk(t.slots[i], i, s.out.reports)
    requires OutputGood(s) ==> OutputGood(t)
    requires SeqOkPending(s.slots[i]) ==> SeqOkPending(t.slots[i])
    requires Some(i) != pending ==> (SeqOk(s.slots[i]) ==> SeqOk(t.slots[i]))
    requires t.control.weSent == s.control.weSent
    requires i == s.self ==> t.slots[i].hist.heard == s.slots[i].hist.heard
    ensures Quick(s, t, pending)
  {
    SlotTickless(s, t, i, pending);
    hide Tickless, OneSlot, SeqOk, SeqOkPending, ReportedOk, OutputGood, Kept;
    OneSlotOnly(s, t, i);
  }

  lemma FirstHeardSeq(m: Member, i: Slot, seqno: u16, from: Addr, now: nat, reports: seq<ReportSent>)
    ensures var n := FirstHeard(m, seqno, from, now);
            && (SeqOkPending(m) ==> SeqOk(n))
            && (ReportedOk(m, i, reports) ==> ReportedOk(n, i, reports))
  {
    hide ReportedOk;
    EvolveLife(m, Heard(seqno));
    EvolveReported(m, i, Heard(seqno), reports);
    SameReported(Evolve(m, Heard(seqno)), FirstHeard(m, seqno, from, now), i, reports);
    hide Life, HeardIn, InOrder;
  }

  lemma FirstHeardKept(m: Member, seqno: u16, from: Addr, now: nat)
    requires !m.bye
    ensures Kept(m, FirstHeard(m, seqno, from, now), now)
  {
    hide Undergo;
  }

  lemma JoinedSeq(m: Member, i: Slot, ssrc: u32, seqno: u16, from: Addr, now: nat, csrc: bool, reports: seq<ReportSent>)
    ensures var n := FirstHeard(Fresh(m, ssrc), seqno, from, now).(validated := csrc, csrc := csrc);
            SeqOk(n) && ReportedOk(n, i, reports)
  {
    FreshSeq(m, i, ssrc, reports);
    hide ReportedOk, SeqOkPending;
    var joined := FirstHeard(Fresh(m, ssrc), seqno, from, now);
    FirstHeardSeq(Fresh(m, ssrc), i, seqno, from, now, reports);
    hide FirstHeard, Fresh;
    SameReported(joined, joined.(validated := csrc, csrc := csrc), i, reports);
    FlagsSeq(joined, csrc);
  }

  lemma FreshSeq(m: Member, i: Slot, ssrc: u32, reports: seq<ReportSent>)
    ensures SeqOkPending(Fresh(m, ssrc)) && ReportedOk(Fresh(m, ssrc), i, reports)
  {
    FreshLife(m, ssrc);
  }

  lemma FlagsSeq(m: Member, csrc: bool)
    ensures SeqOk(m) ==> SeqOk(m.(validated := csrc, csrc := csrc))
  {
    hide Life, HeardIn, InOrder;
  }

  lemma JoinByRtpQuick(s: State, ssrc: u32, seqno: u16, from: Addr, csrc: bool, pending: Option<Slot>)
    requires TableOk(s) && s.free != []
    ensures Quick(s, JoinByRtp(s, ssrc, seqno, from, csrc).0, pending)
  {
    hide JoinByRtp, FirstHeard, Fresh, SeqOk, SeqOkPending, ReportedOk, OneSlot, OutputGood;
    assert s.free[0] in s.free && s.self in s.used;
    JoinedSeq(s.slots[s.free[0]], s.free[0], ssrc, seqno, from, s.timers.now, csrc, s.out.reports);
    var t := JoinByRtp(s, ssrc, seqno, from, csrc).0;
    JoinByRtpShape(s, ssrc, seqno, from, csrc);
    PendingToo(t.slots[s.free[0]]);
    hide TableOk, CountersOk, Kept;
    SlotQuick(s, t, s.free[0], pending);
  }

  lemma JoinByRtpShape(s: State, ssrc: u32, seqno: u16, from: Addr, csrc: bool)
    requires s.free != []
    ensures var t, i := JoinByRtp(s, ssrc, seqno, from, csrc).0, s.free[0];
            && OneSlot(s, t, i) && t.control.weSent == s.control.weSent && (OutputGood(s) ==> OutputGood(t))
            && t.slots[i] == FirstHeard(Fresh(s.slots[i], ssrc), seqno, from, s.timers.now).(validated := csrc, csrc := csrc)
  {
    hide FirstHeard, Fresh, Arm, DueAt;
  }

  lemma PendingToo(m: Member)
    ensures SeqOk(m) ==> SeqOkPending(m)
  {
  }

  lemma FirstRtpQuick(s: State, i: Slot, seqno: u16, from: Addr, pending: Option<Slot>)
    requires !s.slots[i].bye && i != s.self
    ensures Quick(s, FirstRtp(s, i, seqno, from), pending)
  {
    hide FirstRtp, FirstHeard, SeqOk, SeqOkPending, ReportedOk, Kept, OneSlot, OutputGood;
    FirstHeardSeq(s.slots[i], i, seqno, from, s.timers.now, s.out.reports);
    FirstHeardKept(s.slots[i], seqno, from, s.timers.now);
    PendingToo(s.slots[i]);
    var t := FirstRtp(s, i, seqno, from);
    FirstRtpShape(s, i, seqno, from);
    PendingToo(t.slots[i]);
    SlotQuick(s, t, i, pending);
  }

  lemma FirstRtpShape(s: State, i: Slot, seqno: u16, from: Addr)
    ensures var t := FirstRtp(s, i, seqno, from);
            && OneSlot(s, t, i) && t.control.weSent == s.control.weSent && (OutputGood(s) ==> OutputGood(t))
            && t.slots[i] == FirstHeard(s.slots[i], seqno, from, s.timers.now)
  {
    hide FirstHeard, Arm, Rearm, DueAt;
  }

  lemma RefreshByRtpQuick(s: State, i: Slot, pending: Option<Slot>)
    requires !s.slots[i].bye && s.slots[i].rtpHeard && i != s.self
    ensures Quick(s, RefreshByRtp(s, i), pending)
  {
    hide Rearm, ReportedOk, DueAt;
    SameReported(s.slots[i], RefreshByRtp(s, i).slots[i], i, s.out.reports);
    SlotQuick(s, RefreshByRtp(s, i), i, pending);
  }

  lemma JoinByRtcpQuick(s: State, ssrc: u32, from: Addr, size: u32, pending: Option<Slot>)
    requires TableOk(s) && s.free != []
    ensures Quick(s, JoinByRtcp(s, ssrc, from, size).0, pending)
  {
    hide JoinByRtcp, HeardOnRtcp, Fresh, SeqOk, SeqOkPending, ReportedOk, OneSlot, OutputGood;
    assert s.free[0] in s.free && s.self in s.used;
    var t, i := JoinByRtcp(s, ssrc, from, size).0, s.free[0];
    JoinByRtcpShape(s, ssrc, from, size);
    EnteredSeq(s.slots[i], i, ssrc, from, s.timers.now, s.out.reports);
    PendingToo(t.slots[i]);
    hide TableOk, CountersOk, Kept;
    SlotQuick(s, t, i, pending);
  }

  lemma EnteredSeq(m: Member, i: Slot, ssrc: u32, from: Addr, now: nat, reports: seq<ReportSent>)
    ensures var n := HeardOnRtcp(Fresh(m, ssrc), from, now); SeqOk(n) && ReportedOk(n, i, reports)
  {
    FreshLife(m, ssrc);
  }

  lemma JoinByRtcpShape(s: State, ssrc: u32, from: Addr, size: u32)
    requires s.free != []
    ensures var t, i := JoinByRtcp(s, ssrc, from, size).0, s.free[0];
            && OneSlot(s, t, i) && t.control.weSent == s.control.weSent && (OutputGood(s) ==> OutputGood(t))
            && t.slots[i] == HeardOnRtcp(Fresh(s.slots[i], ssrc), from, s.timers.now)
  {
    hide HeardOnRtcp, Fresh, Arm, DueAt;
  }

  lemma RefreshByRtcpQuick(s: State, i: Slot, from: Addr, pending: Option<Slot>)
    requires !s.slots[i].bye
    ensures Quick(s, RefreshByRtcp(s, i, from), pending)
  {
    hide Rearm, ReportedOk, DueAt;
    SameReported(s.slots[i], RefreshByRtcp(s, i, from).slots[i], i, s.out.reports);
    SlotQuick(s, RefreshByRtcp(s, i, from), i, pending);
  }

  lemma ByeOneQuick(s: State, i: Slot, pending: Option<Slot>)
    requires TableOk(s) && CountersOk(s) && i in s.used && i != s.self && !s.slots[i].bye
    ensures Quick(s, ByeOne(s, i), pending)
  {
    hide ReportedOk, DueAt, Leave, Arm, Disarm, OutputGood;
    LeaveIsCounting(s, i);
    LeftOutput(s, i);
    SameReported(s.slots[i], ByeOne(s, i).slots[i], i, s.out.reports);
    SlotQuick(s, ByeOne(s, i), i, pending);
  }

  lemma LeftOutput(s: State, i: Slot)
    requires Leave(s, true, s.slots[i].rtpHeard) == s.(control := CountOut(s.control, true, s.slots[i].rtpHeard))
    ensures OutputGood(s) ==> OutputGood(ByeOne(s, i))
  {
    hide Leave, Arm, Disarm, Carries, DeliveryGood, ReportReadable;
  }

  lemma KnownCollisionQuick(s: State, from: Addr, pending: Option<Slot>)
    requires Find(s.conflicts.addrs, s.conflicts.used, from).Some?
    ensures Quick(s, Collide(s, s.self, from).0, pending)
  {
    hide Rearm, SeqsOk, AllReportedOk, OutputGood, DueAt;
    SameOutput(s, Collide(s, s.self, from).0);
    TouchRenumberings(s.out.renumbered, s.conflicts.touched, s.timers.now, from);
  }

  lemma TouchRenumberings(renumbered: seq<Renumbering>, touched: map<Addr, nat>, now: nat, from: Addr)
    ensures RenumberingsOk(renumbered, touched, now) ==>
              RenumberingsOk(renumbered, touched[from := now], now) &&
              forall addr | addr in touched :: touched[addr] <= touched[from := now][addr]
  {
  }

  lemma NewCollisionQuick(s: State, from: Addr, pending: Option<Slot>)
    requires TableOk(s) && ConflictsOk(s.conflicts, s.timers.now) && Fair(s.cfg.random32)
    requires Find(s.conflicts.addrs, s.conflicts.used, from).None?
    ensures Quick(s, Collide(s, s.self, from).0, pending)
  {
    hide Collide, SeqsOk, OutputGood, RenumberOk, Renumbers;
    NewCollisionShape(s, from);
    var t := Collide(s, s.self, from).0;
    OneSsrcChanges(s.slots, s.self, t.slots[s.self].ssrc, s.timers.now, pending);
    SameOutput(s, t);
    if RenumberOk(s) {
      NewCollisionRenumbers(s, from);
    }
  }

  /** A collision with an unknown address changes our SSRC and the conflict table. */
  lemma NewCollisionShape(s: State, from: Addr)
    requires TableOk(s) && Fair(s.cfg.random32) && Find(s.conflicts.addrs, s.conflicts.used, from).None?
    ensures var t := Collide(s, s.self, from).0;
            var (c, t1, recorded) := AddAddr(s.conflicts, s.timers, from);
            && t.slots == s.slots[s.self := s.slots[s.self].(ssrc := t.slots[s.self].ssrc)]
            && t.timers == t1 && t1.now == s.timers.now && (Settled(s.timers) ==> Settled(t1)) && t.conflicts == c
            && t == s.(slots := t.slots, timers := t1, conflicts := c, randomAt := t.randomAt, txPkts := 0, txOctets := 0, out := t.out)
            && t.out == s.out.(renumbered := s.out.renumbered + [Renumbering(from, s.timers.now, LastTouch(s, from), recorded)],
                               tally := NO_TALLY.(before := |s.out.sent|))
            && DueAt(t1, RtcpTimer) == DueAt(s.timers, RtcpTimer)
  {
    var (c1, t1, recorded) := AddAddr(s.conflicts, s.timers, from);
    RenumberIsFresh(s.(conflicts := c1, timers := t1), s.self);
    hide Renumber, Arm;
  }

  lemma OneSsrcChanges(slots: Slots, self: Slot, ssrc: u32, now: nat, pending: Option<Slot>)
    requires slots[self].isSelf && !slots[self].bye
    ensures var after: Slots := slots[self := slots[self].(ssrc := ssrc)];
            && (forall i: Slot :: Kept(slots[i], after[i], now))
            && (SeqsOk(slots, pending) ==> SeqsOk(after, pending))
            && (forall i: Slot, reports :: ReportedOk(slots[i], i, reports) ==> ReportedOk(after[i], i, reports))
  {
    hide Life, HeardIn, InOrder, ComputedFor;
  }

  lemma NewCollisionRenumbers(s: State, from: Addr)
    requires TableOk(s) && ConflictsOk(s.conflicts, s.timers.now) && Fair(s.cfg.random32)
    requires Find(s.conflicts.addrs, s.conflicts.used, from).None? && RenumberOk(s)
    ensures RenumberOk(Collide(s, s.self, from).0) && Renumbers(s, Collide(s, s.self, from).0)
  {
    hide Collide, Arm, ConflictsOk, TableOk, Fair;
    NewCollisionShape(s, from);
    var recorded := AddAddr(s.conflicts, s.timers, from).2;
    Untouched(s.conflicts, s.timers.now, from);
    NewRenumbering(s.out.renumbered, s.conflicts.touched, s.timers.now, from, LastTouch(s, from), recorded);
    hide RenumberingsOk;
  }

  /** An address that is not found has not been touched for 50 ticks. */
  lemma Untouched(c: Conflicts, now: nat, from: Addr)
    requires ConflictsOk(c, now) && Find(c.addrs, c.used, from).None?
    ensures from in c.touched ==> c.touched[from] + 50 <= now
  {
    assert !Held(c, from);
  }

  lemma NewRenumbering(renumbered: seq<Renumbering>, touched: map<Addr, nat>, now: nat, from: Addr,
                       before: Option<nat>, recorded: bool)
    requires RenumberingsOk(renumbered, touched, now)
    requires before == if from in touched then Some(touched[from]) else None
    requires from in touched ==> touched[from] + 50 <= now
    ensures RenumberingsOk(renumbered + [Renumbering(from, now, before, recorded)],
                           if recorded then touched[from := now] else touched, now)
  {
  }

  lemma CollideQuick(s: State, from: Addr, pending: Option<Slot>)
    requires TableOk(s) && ConflictsOk(s.conflicts, s.timers.now) && Fair(s.cfg.random32)
    ensures Quick(s, Collide(s, s.self, from).0, pending)
  {
    hide Collide, Quick;
    if Find(s.conflicts.addrs, s.conflicts.used, from).Some? {
      KnownCollisionQuick(s, from, pending);
    } else {
      NewCollisionQuick(s, from, pending);
    }
  }

  // ---------------------------------------------------------------- the tick ages members

  /** What the tick may do to a member that stays in the table: it may no longer be a sender, and its
      interval counters may be moved on. */
  ghost predicate Aged(m: Member, n: Member, now: nat) {
    && n == m.(rtpHeard := n.rtpHeard, sender := n.sender, hist := m.hist.(life := n.hist.life),
               src := m.src.(expectedPrior := n.src.expectedPrior, receivedPrior := n.src.receivedPrior))
    && (m.bye ==> n == m)
    && (n.sender == m.sender || n.isSelf)
    && (n.rtpHeard == m.rtpHeard || (!n.rtpHeard && m.hist.heard + 50 == now))
  }

  /** Whether a member's time is up in this tick. */
  ghost predicate TimeUp(m: Member, now: nat) {
    if m.bye then m.hist.left + 30 == now else !m.isSelf && m.hist.refreshed + 100 == now
  }

  ghost predicate MembersAged(s: State, t: State) {
    && t.cfg == s.cfg && t.self == s.self && t.timers.now == s.timers.now
    && (forall i | i in t.used :: i in s.used && Aged(s.slots[i], t.slots[i], s.timers.now))
    && (forall i | i in s.used && i !in t.used :: TimeUp(s.slots[i], s.timers.now))
    && t.slots[t.self].hist.heard == s.slots[s.self].hist.heard
    && (t.control.weSent == s.control.weSent ||
        (!t.control.weSent && s.slots[s.self].hist.heard + 50 == s.timers.now))
  }

  ghost predicate Ages(s: State, t: State) {
    && MembersAged(s, t)
    && (OutputGood(s) ==> OutputGood(t))
    && (SeqsOk(s.slots, None) ==> SeqsOk(t.slots, None))
    && (SeqsOk(s.slots, None) && AllReportedOk(s.slots, s.out.reports) ==> AllReportedOk(t.slots, t.out.reports))
    && (RenumberOk(s) ==> RenumberOk(t))
    && t.out == s.out.(reports := t.out.reports) && t.conflicts.touched == s.conflicts.touched
    && (SpacingOk(s) ==> SpacingOk(t))
  }

  lemma AgesTrans(s: State, t: State, u: State)
    requires Ages(s, t) && Ages(t, u)
    ensures Ages(s, u)
  {
    hide MembersAged, OutputGood, SeqsOk, AllReportedOk, RenumberOk, SpacingOk;
    MembersAgedTrans(s, t, u);
  }

  lemma MembersAgedTrans(s: State, t: State, u: State)
    requires MembersAged(s, t) && MembersAged(t, u)
    ensures MembersAged(s, u)
  {
    hide Aged, TimeUp;
    forall i | i in u.used ensures i in s.used && Aged(s.slots[i], u.slots[i], s.timers.now) {
      AgedTrans(s.slots[i], t.slots[i], u.slots[i], s.timers.now);
    }
    forall i | i in s.used && i !in u.used ensures TimeUp(s.slots[i], s.timers.now) {
      if i in t.used {
        StillUp(s.slots[i], t.slots[i], s.timers.now);
      }
    }
  }

  lemma AgedTrans(m: Member, n: Member, o: Member, now: nat)
    requires Aged(m, n, now) && Aged(n, o, now)
    ensures Aged(m, o, now)
  {
  }

  lemma StillUp(m: Member, n: Member, now: nat)
    requires Aged(m, n, now) && TimeUp(n, now)
    ensures TimeUp(m, now)
  {
  }

  lemma DeallocAges(s: State, i: Slot)
    requires TimeUp(s.slots[i], s.timers.now)
    ensures Ages(s, Dealloc(s, i))
  {
    hide Disarm, MembersAged, SeqsOk, AllReportedOk, OutputGood, SpacingOk, RenumberingsOk;
    RemovedMembers(s, Dealloc(s, i), i);
    SameOutput(s, Dealloc(s, i));
    SameSpacing(s, Dealloc(s, i));
  }

  lemma MemberTimedOutAges(s: State, i: Slot)
    requires TableOk(s) && CountersOk(s) && i in s.used && i != s.self && !s.slots[i].bye
    requires s.slots[i].hist.refreshed + 100 == s.timers.now
    ensures Ages(s, MemberTimedOut(s, i))
  {
    hide Leave, MemberTimedOut, MembersAged, SeqsOk, AllReportedOk, OutputGood, SpacingOk, RenumberOk;
    assert !s.slots[i].isSelf;
    LeaveIsCounting(s, i);
    hide TableOk, CountersOk;
    MemberTimedOutShape(s, i);
    SameOutput(s, MemberTimedOut(s, i));
    RemovedMembers(s, MemberTimedOut(s, i), i);
  }

  /** One member whose time is up leaves the table. */
  lemma RemovedMembers(s: State, t: State, i: Slot)
    requires TimeUp(s.slots[i], s.timers.now)
    requires t.cfg == s.cfg && t.self == s.self && t.timers.now == s.timers.now && t.slots == s.slots
    requires t.used == Remove(s.used, i) && t.control.weSent == s.control.weSent
    ensures MembersAged(s, t)
  {
    hide TimeUp;
  }

  lemma SameOutput(s: State, t: State)
    requires t.out == s.out.(renumbered := t.out.renumbered, tally := t.out.tally) && t.seqno == s.seqno && t.cfg == s.cfg
    requires Tallied(s) ==> Tallied(t)
    ensures OutputGood(s) ==> OutputGood(t)
  {
    hide DeliveryGood, SentOk, ReportReadable, Tallied;
  }

  lemma MemberTimedOutShape(s: State, i: Slot)
    requires Leave(s, true, s.slots[i].rtpHeard) == s.(control := CountOut(s.control, true, s.slots[i].rtpHeard))
    ensures var t := MemberTimedOut(s, i);
            && t.cfg == s.cfg && t.self == s.self && t.timers.now == s.timers.now && t.slots == s.slots
            && t.used == Remove(s.used, i) && t.out == s.out && t.seqno == s.seqno && t.conflicts == s.conflicts
            && t.txPkts == s.txPkts && t.txOctets == s.txOctets
            && t.control.tp == s.control.tp && t.control.initial == s.control.initial && t.control.weSent == s.control.weSent
    ensures SpacingOk(s) ==> SpacingOk(MemberTimedOut(s, i))
    ensures RenumberOk(s) ==> RenumberOk(MemberTimedOut(s, i))
  {
    hide Leave, Disarm, Spaced;
  }

  lemma SenderTimedOutAges(s: State, i: Slot)
    requires TableOk(s) && CountersOk(s) && Expected(s, SenderTimer(i))
    requires s.slots[i].hist.heard + 50 == s.timers.now
    ensures Ages(s, SenderTimedOut(s, i))
  {
    hide SenderTimedOut, SeqsOk, AllReportedOk, OutputGood, SpacingOk, RenumberOk, Tallied;
    var t := SenderTimedOut(s, i);
    OneLive(s);
    SenderTimedOutShape(s, i);
    SenderTimedOutTally(s, i);
    assert i == s.self ==> s.slots[i].isSelf;
    hide TableOk, CountersOk;
    SameOutput(s, t);
    SilencedSeqs(s.slots, i, t.slots[i].sender, s.out.reports);
    SameSpacing(s, t);
  }

  lemma SenderTimedOutTally(s: State, i: Slot)
    requires 1 <= s.control.members && s.control.pmembers == 1
    ensures Tallied(s) ==> Tallied(SenderTimedOut(s, i))
  {
    SenderTimedOutShape(s, i);
  }

  lemma SenderTimedOutShape(s: State, i: Slot)
    requires 1 <= s.control.members && s.control.pmembers == 1
    ensures var t := SenderTimedOut(s, i);
            && t == s.(slots := t.slots, control := t.control)
            && t.slots == s.slots[i := s.slots[i].(rtpHeard := false, sender := t.slots[i].sender)]
            && (i != s.self ==> t.slots[i].sender == s.slots[i].sender)
            && t.control.tp == s.control.tp && t.control.tn == s.control.tn && t.control.initial == s.control.initial
            && t.control.weSent == if i == s.self then false else s.control.weSent
  {
  }

  lemma SilencedSeqs(slots: Slots, i: Slot, sender: bool, reports: seq<ReportSent>)
    ensures var after: Slots := slots[i := slots[i].(rtpHeard := false, sender := sender)];
            && (SeqsOk(slots, None) ==> SeqsOk(after, None))
            && (AllReportedOk(slots, reports) ==> AllReportedOk(after, reports))
  {
    hide Life, HeardIn, InOrder, ComputedFor;
    SameReported(slots[i], slots[i].(rtpHeard := false, sender := sender), i, reports);
  }

  lemma SameSpacing(s: State, t: State)
    requires t.timers.now == s.timers.now && t.out == s.out && t.conflicts.touched == s.conflicts.touched
    requires t.control.tp == s.control.tp && t.control.tn == s.control.tn && t.control.initial == s.control.initial
    requires DueAt(t.timers, RtcpTimer) == DueAt(s.timers, RtcpTimer)
    ensures SpacingOk(s) ==> SpacingOk(t)
    ensures RenumberOk(s) ==> RenumberOk(t)
  {
    hide Spaced, Now, DueAt;
    NowSame(s.timers, t.timers);
  }

  lemma ConflictTimedOutAges(s: State, j: Entry)
    ensures Ages(s, ConflictTimedOut(s, j))
  {
    hide SeqsOk, AllReportedOk, OutputGood, SpacingOk, RenumberOk;
    SameOutput(s, ConflictTimedOut(s, j));
    SameSpacing(s, ConflictTimedOut(s, j));
  }

  lemma {:induction false} ReportBlocksAges(slots: Slots, todo: seq<Slot>, room: int, dlsr: Slot -> u32, attempt: nat, now: nat)
    ensures var after := ReportBlocks(slots, todo, room, dlsr, attempt).0;
            forall i: Slot :: Aged(slots[i], after[i], now) && (SeqOk(slots[i]) ==> SeqOk(after[i]))
    decreases |todo|
  {
    hide LifeOk;
    if todo != [] {
      var m := slots[todo[0]];
      if m.isSelf || m.bye {
        ReportBlocksAges(slots, todo[1..], room, dlsr, attempt, now);
      } else {
        EvolveLife(m, Summed(attempt));
        var slots1 := slots[todo[0] := Evolve(m, Summed(attempt))];
        if room >= 24 {
          ReportBlocksAges(slots1, todo[1..], room - 24, dlsr, attempt, now);
          forall i: Slot
            ensures var after := ReportBlocks(slots, todo, room, dlsr, attempt).0;
                    Aged(slots[i], after[i], now) && (SeqOk(slots[i]) ==> SeqOk(after[i]))
          {
            assert Aged(slots1[i], ReportBlocks(slots1, todo[1..], room - 24, dlsr, attempt).0[i], now);
          }
        }
      }
    }
  }

  /** We ourselves are always counted. */
  lemma SharersPositive(s: State)
    requires TableOk(s) && CountersOk(s)
    ensures 1 <= Sharers(s.control)
  {
    OneLive(s);
  }

  ghost predicate Spaced(reports: seq<ReportSent>) {
    forall k | 1 <= k < |reports| :: KeepsDistance(reports[k - 1], reports[k])
  }

  lemma SpacedSnoc(reports: seq<ReportSent>, r: ReportSent)
    requires Spaced(reports) && (reports != [] ==> KeepsDistance(reports[|reports| - 1], r))
    ensures Spaced(reports + [r])
  {
  }

  /** Whether the RTCP timer finds that it is time to report, and what it does then. */
  lemma RtcpTimedOutShape(s: State, wall: Wall)
    ensures var t, interval := RtcpTimedOut(s, wall), Interval(s.control, s.cfg.drand(s.drandAt));
            && t.cfg == s.cfg && t.self == s.self && t.timers.now == s.timers.now && t.used == s.used && t.seqno == s.seqno
            && t.conflicts == s.conflicts && t.control.weSent == s.control.weSent
            && t.out == s.out.(reports := t.out.reports) && t.txPkts == s.txPkts && t.txOctets == s.txOctets
            && if s.control.tp + interval <= Now(s.timers) then
                 && t.control.tp == Now(s.timers) && !t.control.initial
                 && t.slots == ReportBlocks(s.slots, s.used, ReportRoom(s), wall.dlsr, |s.out.reports|).0
                 && t.out.reports == SendReport(s, interval, wall).0.out.reports
                 && exists r :: t.out.reports == s.out.reports + [r] &&
                      r.at == Now(s.timers) && r.interval == interval && r.control == s.control
               else
                 && t.control.tp == s.control.tp && t.control.initial == s.control.initial
                 && t.slots == s.slots && t.out.reports == s.out.reports
  {
    hide ReportBlocks, ReportMessage, Arm, DeltaMillis, Now, Interval;
    var interval := Interval(s.control, s.cfg.drand(s.drandAt));
    if s.control.tp + interval <= Now(s.timers) {
      var s1 := s.(drandAt := s.drandAt + 1);
      var (_, blocks, ok) := ReportBlocks(s1.slots, s1.used, ReportRoom(s1), wall.dlsr, |s1.out.reports|);
      var packets := ReportPackets(s1, blocks, wall);
      assert packets == ReportPackets(s, blocks, wall);
      assert Sight(s1, wall) == Sight(s, wall);
      var r := ReportSent(Now(s1.timers), interval, s1.control, Sight(s1, wall), packets, ReportMessage(packets, ok));
      assert RtcpTimedOut(s, wall).out.reports == s.out.reports + [r];
    }
  }

  lemma ScheduledInTime(s: State, tc: real, tn: real)
    requires DueAt(s.timers, RtcpTimer).None? && EarlyEnough(s.timers.now) && tc == Now(s.timers) && tc < tn
    ensures DueInTime(Schedule(s, tc, tn))
  {
    hide DueAt, Delay;
    assert tc * 1000.0 == (s.timers.now * 100) as real;
    var ticks := Delay(TICK_RATE, DeltaMillis(tc, tn));
    TicksAhead(tc, tn, ticks);
    hide DeltaMillis, Now;
    assert DueAt(Schedule(s, tc, tn).timers, RtcpTimer) == Some(s.timers.now + ticks);
  }

  lemma TicksAhead(tc: real, tn: real, ticks: nat)
    requires tc < tn && 0.0 <= tc && ticks == Delay(TICK_RATE, DeltaMillis(tc, tn))
    ensures tc * 1000.0 + ((ticks - 1) * 100) as real < tn * 1000.0
    ensures tn * 1000.0 < 2147483648.0 ==> tn * 1000.0 - 1.0 < tc * 1000.0 + (ticks * 100) as real
  {
    var d := DeltaMillis(tc, tn);
    DelayRoundsUp(TICK_RATE, d);
    hide Delay;
    var ahead := (tn - tc) * 1000.0;
    assert ahead == tn * 1000.0 - tc * 1000.0;
    assert (ticks - 1) * 100 < d <= ticks * 100;
  }

  /** However the RTCP timer's expiry is handled, the next one is scheduled in time. */
  lemma RtcpTimedOutInTime(s: State, wall: Wall)
    requires DueAt(s.timers, RtcpTimer).None? && EarlyEnough(s.timers.now)
    ensures DueInTime(RtcpTimedOut(s, wall))
  {
    hide DueInTime, EarlyEnough, Interval, Larger, Schedule, SendReport, Now, DueAt;
    var tc, t, s1 := Now(s.timers), Interval(s.control, s.cfg.drand(s.drandAt)), s.(drandAt := s.drandAt + 1);
    if s1.control.tp + t <= tc {
      var s2 := ReportNow(s1, tc, t, wall);
      ReportNowTimers(s1, tc, t, wall);
      hide ReportNow;
      var next := Interval(s2.control, s2.cfg.drand(s2.drandAt));
      IntervalWithin(s2.control, s2.cfg.drand(s2.drandAt));
      ScheduledInTime(s2.(drandAt := s2.drandAt + 1), tc, next + tc);
      InitialInTime(Schedule(s2.(drandAt := s2.drandAt + 1), tc, next + tc));
    } else {
      ScheduledInTime(s1, tc, s1.control.tp + t);
    }
  }

  lemma ReportNowTimers(s: State, tc: real, t: real, wall: Wall)
    ensures ReportNow(s, tc, t, wall).timers == s.timers
  {
    hide ReportBlocks, ReportMessage, ReportPackets;
  }

  lemma InitialInTime(s: State)
    requires DueInTime(s)
    ensures DueInTime(s.(control := s.control.(initial := false)))
  {
  }

  lemma RtcpTimedOutSpacing(s: State, wall: Wall)
    requires TableOk(s) && CountersOk(s) && SpacingOk(s) && DueAt(s.timers, RtcpTimer).None?
    ensures SpacingOk(RtcpTimedOut(s, wall))
  {
    hide RtcpTimedOut, Now, Interval, EarlyEnough, DueInTime, DueAt;
    var t := RtcpTimedOut(s, wall);
    RtcpTimedOutShape(s, wall);
    NowSame(s.timers, t.timers);
    if EarlyEnough(s.timers.now) {
      RtcpTimedOutInTime(s, wall);
      RtcpTimedOutSpaced(s, wall);
    }
  }

  lemma RtcpTimedOutSpaced(s: State, wall: Wall)
    requires TableOk(s) && CountersOk(s) && SpacingOk(s) && EarlyEnough(s.timers.now)
    ensures Spaced(RtcpTimedOut(s, wall).out.reports)
  {
    hide RtcpTimedOut, Now, Interval, KeepsDistance, DueInTime, EarlyEnough;
    RtcpTimedOutShape(s, wall);
    var t, interval := RtcpTimedOut(s, wall), Interval(s.control, s.cfg.drand(s.drandAt));
    if s.control.tp + interval <= Now(s.timers) {
      var r :| t.out.reports == s.out.reports + [r] && r.at == Now(s.timers) && r.interval == interval && r.control == s.control;
      if s.out.reports != [] {
        ReportDistance(s, r);
      }
      SpacedSnoc(s.out.reports, r);
    }
  }

  lemma ReportDistance(s: State, r: ReportSent)
    requires TableOk(s) && CountersOk(s) && !s.control.initial && s.out.reports != []
    requires s.out.reports[|s.out.reports| - 1].at == s.control.tp
    requires r.control == s.control && r.interval == Interval(s.control, s.cfg.drand(s.drandAt))
    requires s.control.tp + r.interval <= r.at
    ensures KeepsDistance(s.out.reports[|s.out.reports| - 1], r)
  {
    SharersPositive(s);
    IntervalFloor(s.control, s.cfg.drand(s.drandAt));
    hide Interval, Sharers, Allowed;
  }

  lemma NowSame(t: Timers, u: Timers)
    requires t.now == u.now
    ensures Now(t) == Now(u)
  {
  }

  lemma RtcpTimedOutAges(s: State, wall: Wall)
    requires TableOk(s) && CountersOk(s) && DueAt(s.timers, RtcpTimer).None?
    ensures Ages(s, RtcpTimedOut(s, wall))
  {
    hide RtcpTimedOut, MembersAged, OutputGood, SeqsOk, AllReportedOk, RenumberOk, SpacingOk, CountersOk, TableOk;
    if SeqsOk(s.slots, None) && AllReportedOk(s.slots, s.out.reports) {
      RtcpTimedOutReported(s, wall);
    }
    if SpacingOk(s) {
      RtcpTimedOutSpacing(s, wall);
    }
    RtcpTimedOutMembers(s, wall);
    RtcpTimedOutOutput(s, wall);
  }

  lemma RtcpTimedOutReported(s: State, wall: Wall)
    requires TableOk(s) && SeqsOk(s.slots, None) && AllReportedOk(s.slots, s.out.reports)
    ensures var t := RtcpTimedOut(s, wall); AllReportedOk(t.slots, t.out.reports)
  {
    RtcpTimedOutShape(s, wall);
    ReportShows(s, Interval(s.control, s.cfg.drand(s.drandAt)), wall);
    hide RtcpTimedOut, Now, Interval, ReportBlocks, AllReportedOk, SeqsOk;
  }

  lemma RtcpTimedOutMembers(s: State, wall: Wall)
    ensures var t := RtcpTimedOut(s, wall);
            && MembersAged(s, t) && (SeqsOk(s.slots, None) ==> SeqsOk(t.slots, None))
            && (RenumberOk(s) ==> RenumberOk(t))
            && t.out == s.out.(reports := t.out.reports) && t.conflicts.touched == s.conflicts.touched
  {
    RtcpTimedOutShape(s, wall);
    hide RtcpTimedOut, Now, Interval, ReportBlocks, SeqOk;
    ReportBlocksAges(s.slots, s.used, ReportRoom(s), wall.dlsr, |s.out.reports|, s.timers.now);
  }

  lemma RtcpTimedOutOutput(s: State, wall: Wall)
    requires TableOk(s) && CountersOk(s)
    ensures OutputGood(s) ==> OutputGood(RtcpTimedOut(s, wall))
  {
    hide RtcpTimedOut, SendReport, Now, Interval, ReportBlocks, DeliveryGood, SentOk, ReportReadable, TableOk, CountersOk;
    RtcpTimedOutShape(s, wall);
    ReportIsReadable(s, Interval(s.control, s.cfg.drand(s.drandAt)), wall);
  }

  lemma HandleExpiryAges(s: State, e: TimerId, wall: Wall)
    requires TableOk(s) && CountersOk(s) && Expected(s, e) && (e.RtcpTimer? || DueTick(s, e) == s.timers.now)
    requires DueAt(s.timers, e).None?
    ensures Ages(s, HandleExpiry(s, e, wall))
  {
    hide CountersOk, Ages, RtcpTimedOut, MemberTimedOut, SenderTimedOut, Dealloc, ConflictTimedOut, DueAt;
    match e
    case RtcpTimer => RtcpTimedOutAges(s, wall);
    case MemberTimer(i) => MemberTimedOutAges(s, i);
    case SenderTimer(i) => SenderTimedOutAges(s, i);
    case LeaveTimer(i) => DeallocAges(s, i);
    case ConflictTimer(j) => ConflictTimedOutAges(s, j);
  }
}
