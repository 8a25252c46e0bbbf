/**
 The session: one state that RTP reception, RTCP reception, RTP transmission and the timer
 tick all update.  This module holds the state and, for every routine of the program that
 changes it, the function from old to new state.
 */
module Session {
  import opened Words
  import opened SoftTimer
  import opened SessionTimers
  import opened ConflictTable
  import opened RtcpTypes
  import opened RtpSource
  import opened SourceLife
  import RtpPacket
  import Codec = RtcpCodec

  // ---------------------------------------------------------------- state

  /** History variables: they record what happened and decide nothing. */
  datatype History = History(
    refreshed: nat,        // tick of the last packet that refreshed the membership
    heard: nat,            // tick of the last such RTP packet
    left: nat,             // tick of the first BYE
    bound: Addr,           // address of the packet by which RTP was last first heard
    checked: Option<u16>,  // last sequence number checked since then
    delivered: bool,       // whether a packet has been delivered since then
    inherited: Source,     // reception record found in the slot when it was allocated
    life: seq<SourceOp>)   // what has been done to the record since then

  datatype Member = Member(
    ssrc: u32,
    isSelf: bool,
    rtpHeard: bool,
    rtcpHeard: bool,
    bye: bool,
    validated: bool,
    sender: bool,
    csrc: bool,
    rtpAddr: Addr,
    rtcpAddr: Addr,
    cname: Text,
    src: Source,
    lastSr: (u32, u32),
    lastSrAt: (u32, u32),
    rtpTs: u32,
    pktCount: u32,
    octetCount: u32,
    hist: History)

  const BLANK_MEMBER := Member(0, false, false, false, false, false, false, false, NO_ADDR, NO_ADDR, [], BLANK,
                               (0, 0), (0, 0), 0, 0, 0, History(0, 0, 0, NO_ADDR, None, false, BLANK, []))

  type Slots = s: seq<Member> | |s| == MAX_MEMBERS witness seq(MAX_MEMBERS, _ => BLANK_MEMBER)

  type Bandwidth = r: real | 0.0 < r witness 1.0
  type Draw = r: real | 0.0 <= r < 1.0 witness 0.0

  /** The RTCP control variables. */
  datatype Control = Control(
    tp: real, tn: real, pmembers: u32, members: u32, senders: u32,
    bw: Bandwidth, avgSize: real, weSent: bool, initial: bool)

  /** Configuration, and the two random sources as unbounded streams. */
  datatype Config = Config(
    rtpAddr: Addr, rtcpAddr: Addr, cname: Text, pt: u8, align: bool, bandwidth: Bandwidth,
    random32: nat -> u32, drand: nat -> Draw)

  datatype RtpStatus =
    | RtpNoError | RtpHeader(error: RtpPacket.RtpError) | RtpSeqError | RtpAllocFailed | RtpFirstHeard
    | RtpByeInProgress | RtpThirdParty | RtpInConflictList | RtpSsrcConflict

  datatype RtcpStatus =
    | RtcpNoError | RtcpMalformed(error: RtcpError) | RtcpAllocFailed | RtcpFirstHeard
    | RtcpByeInProgress | RtcpThirdParty | RtcpInConflictList | RtcpSsrcConflict

  /** A packet handed to the user, with what the history said about its source just before. */
  datatype Delivery = Delivery(packet: RtpPacket.Packet, from: Addr, source: Member)

  /** What was there to report on: the member table, our own counts, and what the clocks said. */
  datatype Seen = Seen(slots: Slots, used: seq<Slot>, self: Slot, txPkts: u32, txOctets: u32, wall: Wall)

  /** An attempt to send a report, with the quantities its interval was computed from.  The message is
      empty if the report did not fit the encoder's buffer: then nothing was sent. */
  datatype ReportSent = ReportSent(
    at: real, interval: real, control: Control, seen: Seen, packets: seq<Codec.Built>, message: seq<u8>)

  /** A change of our own SSRC because of a packet from `addr`, which had last been entered into or
      found in the conflict table at tick `before`, if ever; `recorded` if it is in the table now. */
  datatype Renumbering = Renumbering(addr: Addr, tick: nat, before: Option<nat>, recorded: bool)

  /** What the user is told of the reports of others: each block, and each sender report after its blocks. */
  datatype Told = SenderTold(report: RtcpPacket) | BlockTold(ssrc: u32, block: Block)

  /** Since our statistics were last started anew: the number of packets sent before, the payload octets
      sent since, and the packets refused since, with their payload octets. */
  datatype Tally = Tally(before: nat, octets: nat, refused: nat, refusedOctets: nat)

  const NO_TALLY := Tally(0, 0, 0, 0)

  /** Everything the session has handed to its user so far. */
  datatype Output = Output(
    delivered: seq<Delivery>, sent: seq<seq<u8>>, reports: seq<ReportSent>, told: seq<Told>,
    renumbered: seq<Renumbering>, tally: Tally)

  datatype State = State(
    cfg: Config,
    timers: Timers,
    slots: Slots,
    used: seq<Slot>,
    free: seq<Slot>,
    numMembers: u32,
    self: Slot,
    control: Control,
    conflicts: Conflicts,
    randomAt: nat,
    drandAt: nat,
    seqno: u16,
    txPkts: u32,
    txOctets: u32,
    invalidRtp: u32,
    invalidRtcp: u32,
    rtpStatus: RtpStatus,
    rtcpStatus: RtcpStatus,
    out: Output)

  // ---------------------------------------------------------------- member table

  function Lookup(s: State, ssrc: u32): (r: Option<Slot>)
    ensures r.Some? ==> r.value in s.used && s.slots[r.value].ssrc == ssrc
    ensures r.None? ==> forall i | i in s.used :: s.slots[i].ssrc != ssrc
  {
    FindSsrc(s.slots, s.used, ssrc)
  }

  function FindSsrc(slots: Slots, used: seq<Slot>, ssrc: u32): (r: Option<Slot>)
    ensures r.Some? ==> r.value in used && slots[r.value].ssrc == ssrc
    ensures r.None? ==> forall i | i in used :: slots[i].ssrc != ssrc
  {
    if used == [] then None
    else if slots[used[0]].ssrc == ssrc then Some(used[0])
    else
      assert used == [used[0]] + used[1..];
      FindSsrc(slots, used[1..], ssrc)
  }

  /** A newly allocated member keeps the reception record and the addresses of whoever used the
      slot before. */
  function Fresh(m: Member, ssrc: u32): Member {
    m.(ssrc := ssrc, isSelf := false, rtpHeard := false, rtcpHeard := false, bye := false, validated := false,
       sender := false, csrc := false, cname := [], lastSr := (0, 0), lastSrAt := (0, 0),
       hist := m.hist.(inherited := m.src, life := []))
  }

  /** Something happens to a member's reception record. */
  function Evolve(m: Member, op: SourceOp): Member {
    m.(src := Undergo(m.src, op), hist := m.hist.(life := m.hist.life + [op]))
  }

  function SetSlot(s: State, i: Slot, m: Member): State {
    s.(slots := s.slots[i := m])
  }

  function Alloc(s: State, ssrc: u32): State
    requires s.free != []
  {
    var i := s.free[0];
    s.(slots := s.slots[i := Fresh(s.slots[i], ssrc)], used := s.used + [i], free := s.free[1..],
       numMembers := Wrap32(s.numMembers + 1))
  }

  function Dealloc(s: State, i: Slot): State {
    s.(timers := Disarm(Disarm(Disarm(s.timers, MemberTimer(i)), SenderTimer(i)), LeaveTimer(i)),
       used := Remove(s.used, i), free := s.free + [i], numMembers := Wrap32(s.numMembers - 1))
  }

  ghost function Ssrcs(s: State): set<u32> {
    SsrcsIn(s.slots, s.used)
  }

  ghost function SsrcsIn(slots: Slots, used: seq<Slot>): set<u32> {
    set i | i in used :: slots[i].ssrc
  }

  ghost predicate Escapes(random32: nat -> u32, at: nat, taken: set<u32>) {
    exists k: nat :: at <= k && random32(k) !in taken
  }

  /** The stream of random words never gets stuck inside a set of at most 32 values. */
  ghost predicate Fair(random32: nat -> u32) {
    forall at: nat, taken: set<u32> | |taken| <= MAX_MEMBERS :: Escapes(random32, at, taken)
  }

  ghost predicate FirstFree(random32: nat -> u32, at: nat, taken: set<u32>, k: nat) {
    at <= k && random32(k) !in taken && forall j | at <= j < k :: random32(j) in taken
  }

  lemma LeastFree(random32: nat -> u32, at: nat, taken: set<u32>, k: nat) returns (least: nat)
    requires at <= k && random32(k) !in taken
    ensures FirstFree(random32, at, taken, least)
  {
    least := at;
    while random32(least) in taken
      invariant at <= least <= k
      invariant forall j | at <= j < least :: random32(j) in taken
      decreases k - least
    {
      least := least + 1;
    }
  }

  /** The draw at which the retry loop for an unused SSRC stops. */
  ghost function DrawnAt(random32: nat -> u32, at: nat, taken: set<u32>): (k: nat)
    ensures Escapes(random32, at, taken) ==> FirstFree(random32, at, taken, k)
  {
    if exists n: nat :: FirstFree(random32, at, taken, n) then
      var k: nat :| FirstFree(random32, at, taken, k);
      k
    else
      assert !Escapes(random32, at, taken) by {
        if n: nat :| at <= n && random32(n) !in taken {
          var least := LeastFree(random32, at, taken, n);
        }
      }
      at
  }

  ghost function Renumber(s: State, i: Slot): State {
    var k := DrawnAt(s.cfg.random32, s.randomAt, Ssrcs(s));
    SetSlot(s, i, s.slots[i].(ssrc := s.cfg.random32(k))).(randomAt := k + 1)
  }

  // ---------------------------------------------------------------- RTCP interval

  /** The current time in seconds; tick times wrap around as 32-bit milliseconds. */
  function Now(t: Timers): real {
    ((t.now * 100) % 0x1_0000_0000) as real / 1000.0
  }

  const COMPENSATION: real := 2.71828 - 1.5

  /** Whether senders are few enough to get a share of the bandwidth of their own. */
  predicate SendersShare(c: Control) {
    c.senders as real <= c.members as real * 0.25
  }

  function EffectiveBandwidth(c: Control): Bandwidth {
    if !SendersShare(c) then c.bw else if c.weSent then c.bw * 0.25 else c.bw * 0.75
  }

  function EffectiveMembers(c: Control): int {
    if !SendersShare(c) then c.members else if c.weSent then c.senders else c.members as int - c.senders
  }

  function MinInterval(c: Control): real {
    if c.initial then 2.5 else 5.0
  }

  /** The interval the bandwidth allows. */
  function Computed(c: Control): real {
    c.avgSize * EffectiveMembers(c) as real / EffectiveBandwidth(c)
  }

  function Interval(c: Control, draw: Draw): real {
    var t := Computed(c);
    var atLeast := if t < MinInterval(c) then MinInterval(c) else t;
    atLeast * (draw + 0.5) / COMPENSATION
  }

  /** The time to the next transmission in milliseconds, as a signed 32-bit number; what is not
      positive counts as one. */
  function DeltaMillis(tc: real, tn: real): (d: int)
    ensures 1 <= d < 0x8000_0000
  {
    var d := ((tn - tc) * 1000.0).Floor;
    if 1 <= d < 0x8000_0000 then d else 1
  }

  function Schedule(s: State, tc: real, tn: real): State {
    s.(control := s.control.(tn := tn), timers := Arm(s.timers, RtcpTimer, DeltaMillis(tc, tn)))
  }

  function Reschedule(s: State, tc: real, tn: real): State {
    s.(control := s.control.(tn := tn), timers := Rearm(s.timers, RtcpTimer, DeltaMillis(tc, tn)))
  }

  function Averaged(c: Control, size: real): Control {
    c.(avgSize := (1.0 / 16.0) * size + (15.0 / 16.0) * c.avgSize)
  }

  /** A new member or a new sender has been heard. */
  function CountIn(c: Control, member: bool, sender: bool): Control {
    var d := if member then c.(members := Wrap32(c.members + 1)) else c;
    if sender then d.(senders := Wrap32(d.senders + 1)) else d
  }

  function CountOut(c: Control, member: bool, sender: bool): Control {
    var d := if sender then c.(senders := Wrap32(c.senders - 1)) else c;
    if member then d.(members := Wrap32(d.members - 1)) else d
  }

  /** The part of the members counted at the last report that is still there. */
  function Ratio(c: Control): real
    requires 0 < c.pmembers
  {
    c.members as real / c.pmembers as real
  }

  /** A time after `tc`, brought nearer by a factor. */
  function Ahead(tc: real, t: real, ratio: real): real {
    tc + ratio * (t - tc)
  }

  /** A time before `tc`, brought nearer by a factor. */
  function Back(tc: real, t: real, ratio: real): real {
    tc - ratio * (tc - t)
  }

  function ScaledNext(c: Control, tc: real): real
    requires 0 < c.pmembers
  {
    Ahead(tc, c.tn, Ratio(c))
  }

  function ScaledLast(c: Control, tc: real): real
    requires 0 < c.pmembers
  {
    Back(tc, c.tp, Ratio(c))
  }

  /** Reverse reconsideration (section 6.3.4 of RFC 3550). */
  function Reconsider(s: State): State {
    var c := s.control;
    if c.members < c.pmembers then
      var tc := Now(s.timers);
      var tn := ScaledNext(c, tc);
      var s1 := s.(control := c.(tp := ScaledLast(c, tc)));
      var s2 := Reschedule(s1, tc, tn);
      s2.(control := s2.control.(pmembers := c.members))
    else s
  }

  /** A member or a sender has left or timed out. */
  function Leave(s: State, member: bool, sender: bool): State {
    Reconsider(s.(control := CountOut(s.control, member, sender)))
  }

  // ---------------------------------------------------------------- RTP reception

  /** A member as its first RTP packet makes it. */
  function FirstHeard(m: Member, seqno: u16, from: Addr, now: nat): Member {
    var n := Evolve(m, Heard(seqno));
    n.(rtpAddr := from, rtpHeard := true,
       hist := n.hist.(refreshed := now, heard := now, bound := from, checked := None, delivered := false))
  }

  function JoinByRtp(s: State, ssrc: u32, seqno: u16, from: Addr, csrc: bool): (State, Option<Slot>) {
    if s.free == [] then (s.(rtpStatus := RtpAllocFailed), None)
    else
      var i := s.free[0];
      var s1 := Alloc(s, ssrc);
      var s2 := SetSlot(s1, i, FirstHeard(s1.slots[i], seqno, from, s.timers.now).(validated := csrc, csrc := csrc));
      (s2.(control := CountIn(s2.control, true, true),
           timers := Arm(Arm(s2.timers, SenderTimer(i), SENDER_TIMEOUT), MemberTimer(i), MEMBER_TIMEOUT),
           rtpStatus := RtpFirstHeard),
       if csrc then Some(i) else None)
  }

  /** The first RTP packet of a member known from RTCP, or silent as a sender for a while. */
  function FirstRtp(s: State, i: Slot, seqno: u16, from: Addr): State {
    var s1 := SetSlot(s, i, FirstHeard(s.slots[i], seqno, from, s.timers.now));
    s1.(control := CountIn(s1.control, false, true),
        timers := Rearm(Arm(s1.timers, SenderTimer(i), SENDER_TIMEOUT), MemberTimer(i), MEMBER_TIMEOUT),
        rtpStatus := RtpFirstHeard)
  }

  /** Our own SSRC arrives from a foreign address: a collision, or our packets looped back.
      Returns whether the address was not yet known to collide. */
  ghost function Collide(s: State, i: Slot, from: Addr): (State, bool) {
    var (c, t, found) := LookupAddr(s.conflicts, s.timers, from);
    if found then (s.(conflicts := c, timers := t), false) else (NewCollision(s, i, from), true)
  }

  ghost function NewCollision(s: State, i: Slot, from: Addr): State {
    var (c, t, recorded) := AddAddr(s.conflicts, s.timers, from);
    var s1 := Renumber(s.(conflicts := c, timers := t), i);
    s1.(txPkts := 0, txOctets := 0,
        out := s1.out.(renumbered := s1.out.renumbered + [Renumbering(from, s.timers.now, LastTouch(s, from), recorded)],
                       tally := NO_TALLY.(before := |s1.out.sent|)))
  }

  function LastTouch(s: State, addr: Addr): Option<nat> {
    if addr in s.conflicts.touched then Some(s.conflicts.touched[addr]) else None
  }

  function RefreshByRtp(s: State, i: Slot): State {
    var m := s.slots[i];
    var m1 := m.(rtpHeard := true, hist := m.hist.(refreshed := s.timers.now, heard := s.timers.now));
    SetSlot(s, i, m1).(
      timers := Rearm(Rearm(s.timers, SenderTimer(i), SENDER_TIMEOUT), MemberTimer(i), MEMBER_TIMEOUT))
  }

  ghost function HandleRtpSsrc(s: State, ssrc: u32, seqno: u16, from: Addr, csrc: bool): (State, Option<Slot>) {
    match Lookup(s, ssrc)
    case None => JoinByRtp(s, ssrc, seqno, from, csrc)
    case Some(i) =>
      var m := s.slots[i];
      if m.bye then (s.(rtpStatus := RtpByeInProgress), None)
      else if !m.isSelf && !m.rtpHeard then (FirstRtp(s, i, seqno, from), None)
      else if m.rtpAddr != from then
        if !m.isSelf then (s.(rtpStatus := RtpThirdParty), None)
        else
          var (s1, isNew) := Collide(s, i, from);
          (s1.(rtpStatus := if isNew then RtpSsrcConflict else RtpInConflictList), None)
      else (RefreshByRtp(s, i), Some(i))
  }

  /** Checks the sequence number of a packet against its member's record. */
  function CheckSeq(s: State, i: Slot, seqno: u16): (State, bool) {
    var m := Evolve(s.slots[i], Checked(seqno));
    (SetSlot(s, i, m.(hist := m.hist.(checked := Some(seqno)))), UpdateSeq(s.slots[i].src, seqno).1)
  }

  function Jitter(s: State, i: Slot, ts: u32, arrival: u32): State {
    SetSlot(s, i, Evolve(s.slots[i], Arrived(ts, arrival)))
  }

  ghost function HandleCsrcs(s: State, csrcs: seq<u32>, seqno: u16, ts: u32, from: Addr, arrival: u32): State
    decreases |csrcs|
  {
    if csrcs == [] then s
    else
      var (s1, i) := HandleRtpSsrc(s, csrcs[0], seqno, from, true);
      var s2 := if i.Some? then Jitter(s1, i.value, ts, arrival) else s1;
      HandleCsrcs(s2, csrcs[1..], seqno, ts, from, arrival)
  }

  /** Hands an accepted packet of member `i` to the user; `source` is the member as it was
      before the packet's sequence number was checked. */
  function Deliver(s: State, i: Slot, p: RtpPacket.Packet, from: Addr, source: Member): State {
    SetSlot(s, i, s.slots[i].(hist := s.slots[i].hist.(delivered := true))).(
      rtpStatus := RtpNoError,
      out := s.out.(delivered := s.out.delivered + [Delivery(p, from, source)]))
  }

  ghost function AcceptRtp(s: State, i: Slot, p: RtpPacket.Packet, from: Addr, arrival: u32): State {
    var (s1, ok) := CheckSeq(s, i, p.seqno);
    if !ok then s1.(rtpStatus := RtpSeqError)
    else
      var s2 := Jitter(s1, i, p.ts, arrival);
      var s3 := SetSlot(s2, i, s2.slots[i].(validated := true));
      var s4 := HandleCsrcs(s3, p.csrcs, p.seqno, p.ts, from, arrival);
      Deliver(s4, i, p, from, s.slots[i])
  }

  ghost function RxRtp(s: State, pkt: seq<u8>, from: Addr, arrival: u32): State {
    match RtpPacket.Check(pkt, s.cfg.pt)
    case Rejected(error) => s.(rtpStatus := RtpHeader(error), invalidRtp := Wrap32(s.invalidRtp + 1))
    case Accepted(p) =>
      var (s1, i) := HandleRtpSsrc(s, p.ssrc, p.seqno, from, false);
      if i.None? then s1 else AcceptRtp(s1, i.value, p, from, arrival)
  }

  // ---------------------------------------------------------------- RTP transmission

  function BeginSending(s: State): State {
    if s.control.weSent then s
    else
      SetSlot(s, s.self, s.slots[s.self].(sender := true)).(
        control := CountIn(s.control.(weSent := true), false, true))
  }

  type CsrcList = s: seq<u32> | |s| <= 15

  /** A packet too large to send still counts in the statistics. */
  function Tx(s: State, payload: seq<u8>, ts: u32, csrcs: CsrcList): State {
    var t := CountSent(BeginSending(s), payload);
    SendPacket(t, RtpPacket.Packet(t.seqno, ts, t.slots[t.self].ssrc, csrcs, payload))
  }

  function CountSent(s: State, payload: seq<u8>): State {
    HeardSelf(s).(txPkts := Wrap32(s.txPkts + 1), txOctets := Wrap32(s.txOctets + |payload|))
  }

  /** Our own sender timer starts anew. */
  function HeardSelf(s: State): State {
    SetSlot(s, s.self, s.slots[s.self].(hist := s.slots[s.self].hist.(heard := s.timers.now))).(
      timers := Rearm(s.timers, SenderTimer(s.self), SENDER_TIMEOUT))
  }

  function SendPacket(s: State, p: RtpPacket.Packet): State
    requires |p.csrcs| <= 15
  {
    if TooBig(p, s.cfg.align) then s.(out := s.out.(tally := Refused(s.out.tally, p)))
    else s.(seqno := Wrap16(s.seqno + 1),
            out := s.out.(sent := s.out.sent + [RtpPacket.Encode(p, s.cfg.pt, s.cfg.align)],
                          tally := s.out.tally.(octets := s.out.tally.octets + |p.payload|)))
  }

  function Refused(t: Tally, p: RtpPacket.Packet): Tally {
    t.(refused := t.refused + 1, refusedOctets := t.refusedOctets + |p.payload|)
  }

  predicate TooBig(p: RtpPacket.Packet, align: bool) {
    var size := RtpPacket.PacketSize(p);
    RtpPacket.MAX_RTP_PKT_SIZE < size ||
    (align && size % 4 != 0 && RtpPacket.MAX_RTP_PKT_SIZE < size + 4)
  }

  // ---------------------------------------------------------------- RTCP reception

  function HeardOnRtcp(m: Member, from: Addr, now: nat): Member {
    m.(rtcpAddr := from, rtcpHeard := true, hist := m.hist.(refreshed := now))
  }

  function JoinByRtcp(s: State, ssrc: u32, from: Addr, size: u32): (State, Option<Slot>) {
    if s.free == [] then (s.(rtcpStatus := RtcpAllocFailed), None)
    else
      var i := s.free[0];
      var s1 := Alloc(s, ssrc);
      var s2 := SetSlot(s1, i, HeardOnRtcp(s1.slots[i], from, s.timers.now));
      (s2.(control := Averaged(CountIn(s2.control, true, false), size as real),
           timers := Arm(s2.timers, MemberTimer(i), MEMBER_TIMEOUT),
           rtcpStatus := RtcpFirstHeard),
       Some(i))
  }

  /** The first RTCP packet of a member known from RTP, and every later one. */
  function RefreshByRtcp(s: State, i: Slot, from: Addr): State {
    SetSlot(s, i, HeardOnRtcp(s.slots[i], from, s.timers.now)).(
      timers := Rearm(s.timers, MemberTimer(i), MEMBER_TIMEOUT))
  }

  ghost function HandleRtcpSsrc(s: State, ssrc: u32, from: Addr, size: u32): (State, Option<Slot>) {
    match Lookup(s, ssrc)
    case None => JoinByRtcp(s, ssrc, from, size)
    case Some(i) =>
      var m := s.slots[i];
      if m.bye then (s.(rtcpStatus := RtcpByeInProgress), None)
      else if !m.isSelf && !m.rtcpHeard then
        (RefreshByRtcp(s, i, from).(rtcpStatus := RtcpFirstHeard), Some(i))
      else if m.rtcpAddr != from then
        if ssrc != s.slots[s.self].ssrc then (s.(rtcpStatus := RtcpThirdParty), None)
        else
          var (s1, isNew) := Collide(s, i, from);
          (s1.(rtcpStatus := if isNew then RtcpSsrcConflict else RtcpInConflictList), None)
      else
        var s1 := RefreshByRtcp(s, i, from);
        (s1.(control := Averaged(s1.control, size as real), rtcpStatus := RtcpNoError), Some(i))
  }

  function Tell(s: State, told: seq<Told>): State {
    s.(out := s.out.(told := s.out.told + told))
  }

  function BlocksTold(ssrc: u32, blocks: seq<Block>): seq<Told> {
    seq(|blocks|, k requires 0 <= k < |blocks| => BlockTold(ssrc, blocks[k]))
  }

  ghost function HandleSr(s: State, p: RtcpPacket, from: Addr, size: u32, clock: (u32, u32)): State
    requires p.SenderReport?
  {
    var (s1, i) := HandleRtcpSsrc(s, p.ssrc, from, size);
    if i.None? then s1
    else
      var m := s1.slots[i.value].(lastSr := (p.ntpSec, p.ntpFrac), rtpTs := p.rtpTs, pktCount := p.psent,
                                  octetCount := p.osent, lastSrAt := clock);
      Tell(SetSlot(s1, i.value, m), BlocksTold(p.ssrc, p.blocks) + [SenderTold(p)])
  }

  ghost function HandleRr(s: State, p: RtcpPacket, from: Addr, size: u32): State
    requires p.ReceiverReport?
  {
    var (s1, i) := HandleRtcpSsrc(s, p.ssrc, from, size);
    if i.None? then s1 else Tell(s1, BlocksTold(p.ssrc, p.blocks))
  }

  function SetNames(m: Member, names: seq<Text>): Member {
    if names == [] then m else m.(cname := names[|names| - 1], validated := true)
  }

  ghost function HandleSdes(s: State, chunks: seq<Chunk>, from: Addr, size: u32): State
    decreases |chunks|
  {
    if chunks == [] then s
    else
      var (s1, i) := HandleRtcpSsrc(s, chunks[0].ssrc, from, size);
      var s2 := if i.None? then s1 else SetSlot(s1, i.value, SetNames(s1.slots[i.value], chunks[0].names));
      HandleSdes(s2, chunks[1..], from, size)
  }

  /** One source says goodbye. */
  function ByeOne(s: State, i: Slot): State {
    var s1 := Leave(s, true, s.slots[i].rtpHeard);
    SetSlot(s1, i, s1.slots[i].(bye := true, hist := s1.slots[i].hist.(left := s.timers.now))).(
      timers := Arm(Disarm(Disarm(s1.timers, SenderTimer(i)), MemberTimer(i)), LeaveTimer(i), LEAVE_TIMEOUT))
  }

  function HandleBye(s: State, ssrcs: seq<u32>): State
    decreases |ssrcs|
  {
    if ssrcs == [] then s
    else
      var i := Lookup(s, ssrcs[0]);
      HandleBye(if i.None? || s.slots[i.value].bye then s else ByeOne(s, i.value), ssrcs[1..])
  }

  ghost function HandleRtcp(s: State, p: RtcpPacket, from: Addr, size: u32, clock: (u32, u32)): State {
    match p
    case SenderReport(_, _, _, _, _, _, _) => HandleSr(s, p, from, size, clock)
    case ReceiverReport(_, _) => HandleRr(s, p, from, size)
    case SourceDescription(chunks) => HandleSdes(s, chunks, from, size)
    case Bye(ssrcs) => HandleBye(s, ssrcs)
    case Other(_) => s
  }

  ghost function HandleAll(s: State, packets: seq<RtcpPacket>, from: Addr, size: u32, clock: (u32, u32)): State
    decreases |packets|
  {
    if packets == [] then s
    else HandleAll(HandleRtcp(s, packets[0], from, size, clock), packets[1..], from, size, clock)
  }

  /** A received datagram.  A compound packet whose bodies run past its end is excluded by the
      callers of this function. */
  ghost function RxRtcp(s: State, received: Codec.Received, from: Addr, size: u32, clock: (u32, u32)): State {
    match received
    case Refused(error) => s.(rtcpStatus := RtcpMalformed(error), invalidRtcp := Wrap32(s.invalidRtcp + 1))
    case Compound(packets) => HandleAll(s.(rtcpStatus := RtcpNoError), packets, from, size, clock)
    case Overrun => s
  }

  // ---------------------------------------------------------------- timers

  function SenderTimedOut(s: State, i: Slot): State {
    var m := s.slots[i];
    var s1 := SetSlot(s, i, m.(rtpHeard := false, sender := if i == s.self then false else m.sender));
    var s2 := if i == s.self then s1.(control := s1.control.(weSent := false)) else s1;
    Leave(s2, false, true)
  }

  function MemberTimedOut(s: State, i: Slot): State {
    Dealloc(Leave(s, true, s.slots[i].rtpHeard), i)
  }

  function ConflictTimedOut(s: State, j: Entry): State {
    s.(conflicts := Expire(s.conflicts, j))
  }

  const ENCODER_BUFFER_LEN: nat := 256

  function ReportBlock(m: Member, r: LossReport, dlsr: u32): Block {
    Block(m.ssrc, r.fraction, r.lost, r.extendedMax, m.src.jitter,
          (m.lastSr.0 % 0x1_0000) * 0x1_0000 + m.lastSr.1 / 0x1_0000, dlsr)
  }

  /** Reports on every member but ourselves and those that left, in table order, until the
      buffer is full; a member whose block did not fit has its interval counters moved on all
      the same.  Returns whether every block fitted. */
  function ReportBlocks(slots: Slots, todo: seq<Slot>, room: int, dlsr: Slot -> u32, attempt: nat): (Slots, seq<Block>, bool)
    decreases |todo|
  {
    if todo == [] then (slots, [], true)
    else
      var m := slots[todo[0]];
      if m.isSelf || m.bye then ReportBlocks(slots, todo[1..], room, dlsr, attempt)
      else
        var r := Report(m.src).1;
        var slots1 := slots[todo[0] := Evolve(m, Summed(attempt))];
        if room < 24 then (slots1, [], false)
        else
          var (slots2, blocks, ok) := ReportBlocks(slots1, todo[1..], room - 24, dlsr, attempt);
          (slots2, [ReportBlock(m, r, dlsr(todo[0]))] + blocks, ok)
  }

  /** What the wall clock and the media clock say when a tick is handled: the time since each
      member's last sender report, the current time and the current RTP timestamp. */
  datatype Wall = Wall(dlsr: Slot -> u32, ntpSec: u32, ntpFrac: u32, rtpTs: u32)

  /** A report: a sender or receiver report and our own name. */
  function ReportPackets(s: State, blocks: seq<Block>, wall: Wall): seq<Codec.Built> {
    var self := s.slots[s.self];
    [Codec.Built(if self.sender then
                   SenderReport(self.ssrc, wall.ntpSec, wall.ntpFrac, wall.rtpTs, s.txPkts, s.txOctets, blocks)
                 else ReceiverReport(self.ssrc, blocks), None),
     Codec.Built(SourceDescription([Chunk(self.ssrc, [self.cname])]), None)]
  }

  /** The bytes of a report, or none if it does not fit the encoder's buffer. */
  function ReportMessage(packets: seq<Codec.Built>, fitted: bool): seq<u8> {
    if fitted && Codec.AllEncodable(packets) && |Codec.EncodeAll(packets)| <= ENCODER_BUFFER_LEN
    then Codec.EncodeAll(packets)
    else []
  }

  function ReportRoom(s: State): nat {
    ENCODER_BUFFER_LEN - if s.slots[s.self].sender then 28 else 8
  }

  function Sight(s: State, wall: Wall): Seen {
    Seen(s.slots, s.used, s.self, s.txPkts, s.txOctets, wall)
  }

  function SendReport(s: State, interval: real, wall: Wall): (State, nat) {
    var (slots, blocks, ok) := ReportBlocks(s.slots, s.used, ReportRoom(s), wall.dlsr, |s.out.reports|);
    var packets := ReportPackets(s, blocks, wall);
    var message := ReportMessage(packets, ok);
    var report := ReportSent(Now(s.timers), interval, s.control, Sight(s, wall), packets, message);
    (s.(slots := slots, out := s.out.(reports := s.out.reports + [report])), |message|)
  }

  /** Timer reconsideration (section 6.3.6 of RFC 3550, without raising pmembers). */
  function RtcpTimedOut(s: State, wall: Wall): State {
    var tc := Now(s.timers);
    var t := Interval(s.control, s.cfg.drand(s.drandAt));
    var s1 := s.(drandAt := s.drandAt + 1);
    var tn := s1.control.tp + t;
    if tn <= tc then ReportAndSchedule(s1, tc, t, wall) else Schedule(s1, tc, tn)
  }

  function ReportAndSchedule(s: State, tc: real, t: real, wall: Wall): State {
    ScheduleNext(ReportNow(s, tc, t, wall), tc)
  }

  function ScheduleNext(s: State, tc: real): State {
    var s1 := Schedule(s.(drandAt := s.drandAt + 1), tc, Interval(s.control, s.cfg.drand(s.drandAt)) + tc);
    s1.(control := s1.control.(initial := false))
  }

  function ReportNow(s: State, tc: real, t: real, wall: Wall): State {
    var (s1, size) := SendReport(s, t, wall);
    s1.(control := Averaged(s1.control, size as real).(tp := tc))
  }

  function HandleExpiry(s: State, e: TimerId, wall: Wall): State {
    match e
    case RtcpTimer => RtcpTimedOut(s, wall)
    case MemberTimer(i) => MemberTimedOut(s, i)
    case SenderTimer(i) => SenderTimedOut(s, i)
    case LeaveTimer(i) => Dealloc(s, i)
    case ConflictTimer(j) => ConflictTimedOut(s, j)
  }

  /** No expiry handler makes further timers due. */
  lemma ExpiredKeepsDue(s: State, e: TimerId, wall: Wall)
    ensures var r := HandleExpiry(s, e, wall); r.timers.now == s.timers.now && |Due(r.timers)| <= |Due(s.timers)|
  {
  }

  function DispatchAll(s: State, wall: Wall): State
    decreases |Due(s.timers)|
  {
    if Due(s.timers) == [] then s
    else
      var s1 := s.(timers := TakeFirst(s.timers));
      ExpiredKeepsDue(s1, Due(s.timers)[0], wall);
      DispatchAll(HandleExpiry(s1, Due(s.timers)[0], wall), wall)
  }

  function SessionTick(s: State, wall: Wall): State
    requires Settled(s.timers)
  {
    DispatchAll(s.(timers := AdvanceTimers(s.timers)), wall)
  }

  // ---------------------------------------------------------------- life of a session

  function Init(cfg: Config): State {
    var self := 0;
    var ssrc := cfg.random32(1);
    var m := BLANK_MEMBER.(ssrc := ssrc, isSelf := true, cname := cfg.cname, rtpAddr := cfg.rtpAddr,
                           rtcpAddr := cfg.rtcpAddr);
    var slots: Slots := seq(MAX_MEMBERS, i requires 0 <= i < MAX_MEMBERS => if i == 0 then m else BLANK_MEMBER);
    var control := Control(0.0, 0.0, 1, 1, 0, cfg.bandwidth, 256.0, false, true);
    var s := State(cfg, Flat(TICK_RATE, 0, [], []), slots, [0],
                   seq(MAX_MEMBERS - 1, i requires 0 <= i < MAX_MEMBERS - 1 => i + 1), 1, 0, control, EMPTY, 2, 1,
                   Wrap16(cfg.random32(0)), 0, 0, 0, 0, RtpNoError, RtcpNoError, Output([], [], [], [], [], NO_TALLY));
    Schedule(s, 0.0, Interval(control, cfg.drand(0)))
  }

  function DisarmMembers(t: Timers, members: seq<Slot>): Timers
    decreases |members|
  {
    if members == [] then t
    else
      var i := members[0];
      DisarmMembers(Disarm(Disarm(Disarm(t, MemberTimer(i)), SenderTimer(i)), LeaveTimer(i)), members[1..])
  }

  function DisarmConflicts(t: Timers, entries: seq<Entry>): Timers
    decreases |entries|
  {
    if entries == [] then t else DisarmConflicts(Disarm(t, ConflictTimer(entries[0])), entries[1..])
  }

  function Deinit(s: State): State {
    s.(timers := DisarmConflicts(DisarmMembers(Disarm(s.timers, RtcpTimer), s.used), s.conflicts.used))
  }

  type Datagram = b: seq<u8> | |b| < 0x1_0000_0000

  datatype Event =
    | RtpArrives(pkt: seq<u8>, from: Addr, arrival: u32)
    | RtcpArrives(msg: Datagram, from: Addr, clock: (u32, u32))
    | UserSends(payload: seq<u8>, ts: u32, csrcs: CsrcList)
    | TimePasses(wall: Wall)

  ghost function Step(s: State, event: Event): State
    requires Settled(s.timers)
  {
    match event
    case RtpArrives(pkt, from, arrival) => RxRtp(s, pkt, from, arrival)
    case RtcpArrives(msg, from, clock) => RxRtcp(s, Codec.Receive(msg), from, |msg|, clock)
    case UserSends(payload, ts, csrcs) => Tx(s, payload, ts, csrcs)
    case TimePasses(wall) => SessionTick(s, wall)
  }
}
