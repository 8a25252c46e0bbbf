/**
 A stream of RTP packets, over whole runs: once its source is validated, every packet within the window
 reaches the user, in order, whatever else happens in between.
 */
module SessionStreams {
  import opened Words
  import opened SoftTimer
  import opened SessionTimers
  import opened ConflictTable
  import opened RtpSource
  import opened SourceLife
  import opened Session
  import opened SessionInvariant
  import opened SessionHistory
  import opened SessionSteps
  import opened SessionResults
  import opened SessionMentions
  import opened SessionReception
  import opened SessionJoining
  import opened SessionTold
  import RtpPacket

  // ---------------------------------------------------------------- what is asked of the run

  /** The packet that a datagram carries, if it is from this source. */
  function CarriedFrom(event: Event, pt: u8, ssrc: u32): Option<RtpPacket.Packet> {
    match event
    case RtpArrives(pkt, _, _) =>
      var r := RtpPacket.Check(pkt, pt);
      if r.Accepted? && r.packet.ssrc == ssrc then Some(r.packet) else None
    case RtcpArrives(_, _, _) => None
    case UserSends(_, _, _) => None
    case TimePasses(_) => None
  }

  /** All packets of the source that arrive, in order. */
  function Arriving(events: seq<Event>, pt: u8, ssrc: u32): seq<RtpPacket.Packet> {
    if events == [] then []
    else
      var rest, p := Arriving(events[1..], pt, ssrc), CarriedFrom(events[0], pt, ssrc);
      if p.Some? then [p.value] + rest else rest
  }

  /** The packets of the source that the user has got. */
  function GotFrom(delivered: seq<Delivery>, ssrc: u32): seq<RtpPacket.Packet> {
    if delivered == [] then []
    else
      var n := |delivered| - 1;
      GotFrom(delivered[..n], ssrc) + if delivered[n].packet.ssrc == ssrc then [delivered[n].packet] else []
  }

  /** The next event is the stream's packet with true number `t`, from its address and within the window. */
  ghost predicate NextInStream(s: State, event: Event, i: Slot, from: Addr, high: int, t: int) {
    var p := CarriedFrom(event, s.cfg.pt, s.slots[i].ssrc);
    && p.Some? && event.RtpArrives? && event.from == from && p.value.seqno == Wrap16(t)
    && high - 99 <= t <= high + 2999
  }

  /** Or it does not name the source, and it is not the tick by which the source has been silent for 50. */
  ghost predicate Elsewhere(s: State, event: Event, i: Slot) {
    && !Mentions(event, s.cfg.pt, s.slots[i].ssrc)
    && (event.TimePasses? ==> s.timers.now + 1 < s.slots[i].hist.heard + 50)
  }

  /** A run that contains a stream of the member in slot `i`, whose highest number so far is `high`. */
  ghost predicate StreamRun(s: State, events: seq<Event>, i: Slot, from: Addr, high: int)
    requires Good(s) && Run(s, events)
    decreases |events|
  {
    events == [] ||
    (StepGood(s, events[0]);
     var s1 := Step(s, events[0]);
     (Elsewhere(s, events[0], i) && StreamRun(s1, events[1..], i, from, high)) ||
     exists t :: NextInStream(s, events[0], i, from, high, t) && StreamRun(s1, events[1..], i, from, Max(high, t)))
  }

  /** A member that sends, is bound to this address, and whose record stands for these true numbers. */
  ghost predicate Streaming(s: State, i: Slot, from: Addr, base: int, high: int) {
    var m := s.slots[i];
    && i in s.used && i != s.self && !m.bye && m.rtpHeard && m.rtpAddr == from
    && m.hist.heard <= m.hist.refreshed
    && Tracks(m.src, base, high)
  }

  // ---------------------------------------------------------------- single steps

  /** Notes of arrivals do not concern the numbers. */
  lemma {:induction false} ArrivalsTrack(s: Source, ts: u32, arrival: u32, n: nat, base: int, high: int)
    requires Tracks(s, base, high)
    ensures Tracks(Life(s, Arrivals(ts, arrival, n)), base, high)
  {
    if n == 0 {
      NothingHappens(s);
      assert Arrivals(ts, arrival, 0) == [];
    } else {
      ArrivalsTrack(s, ts, arrival, n - 1, base, high);
      hide Life, Tracks, Undergo;
      LifeSnoc(s, Arrivals(ts, arrival, n - 1), Arrived(ts, arrival));
      assert Arrivals(ts, arrival, n - 1) + [Arrived(ts, arrival)] == Arrivals(ts, arrival, n);
      ArrivalTracks(Life(s, Arrivals(ts, arrival, n - 1)), ts, arrival, base, high);
    }
  }

  lemma ArrivalTracks(s: Source, ts: u32, arrival: u32, base: int, high: int)
    requires Tracks(s, base, high)
    ensures Tracks(Undergo(s, Arrived(ts, arrival)), base, high)
  {
    hide NextJitter, TransitChange;
  }

  lemma PacketTracks(s: Source, p: RtpPacket.Packet, arrival: u32, n: nat, base: int, high: int, t: int)
    requires Tracks(s, base, high) && high - 99 <= t <= high + 2999 && p.seqno == Wrap16(t)
    ensures UpdateSeq(s, p.seqno).1
    ensures Tracks(Life(s, [Checked(p.seqno)] + Arrivals(p.ts, arrival, n)), base, Max(high, t))
  {
    hide UpdateSeq, Life, Tracks;
    TracksStep(s, base, high, t);
    OneOp(s, Checked(p.seqno));
    LifeAppend(s, [Checked(p.seqno)], Arrivals(p.ts, arrival, n));
    ArrivalsTrack(UpdateSeq(s, p.seqno).0, p.ts, arrival, n, base, Max(high, t));
  }

  lemma GotOneMore(delivered: seq<Delivery>, d: Delivery, ssrc: u32)
    ensures GotFrom(delivered + [d], ssrc) == GotFrom(delivered, ssrc) + if d.packet.ssrc == ssrc then [d.packet] else []
  {
    assert (delivered + [d])[..|delivered|] == delivered;
  }

  /** A packet of the stream is delivered, and the stream goes on. */
  lemma StreamStep(s: State, event: Event, i: Slot, from: Addr, base: int, high: int, t: int)
    requires Good(s) && Admissible(s, event) && Streaming(s, i, from, base, high) && NextInStream(s, event, i, from, high, t)
    ensures var u, p := Step(s, event), CarriedFrom(event, s.cfg.pt, s.slots[i].ssrc).value;
            && Streaming(u, i, from, base, Max(high, t))
            && GotFrom(u.out.delivered, s.slots[i].ssrc) == GotFrom(s.out.delivered, s.slots[i].ssrc) + [p]
            && u.slots[i].ssrc == s.slots[i].ssrc
  {
    hide Good, Admissible, Step, Tracks, UpdateSeq, Life, RtpPacket.Check, Carried, GotFrom;
    var m, p := s.slots[i], CarriedFrom(event, s.cfg.pt, s.slots[i].ssrc).value;
    CarriedIs(event.pkt, s.cfg.pt, p);
    PacketTracks(m.src, p, event.arrival, 1 + multiset(p.csrcs)[p.ssrc], base, high, t);
    GoodSettled(s);
    TakenIs(s, p, from, i);
    DeliveredIff(s, event.pkt, from, event.arrival);
    EntryAfter(s, event.pkt, p, from, event.arrival, i);
    StreamEntry(m, p, from, s.timers.now, event.arrival, exists j: Slot :: Taken(s, p, from, j));
    GotOneMore(s.out.delivered, Delivery(p, from, Touched(m, from, s.timers.now, [])), m.ssrc);
    StillThere(s, event, i);
  }

  lemma StreamEntry(m: Member, p: RtpPacket.Packet, from: Addr, now: nat, arrival: u32, taken: bool)
    requires m.ssrc == p.ssrc && !m.bye && m.rtpHeard && m.rtpAddr == from && UpdateSeq(m.src, p.seqno).1
    ensures var n := AfterPacket(m, p, from, now, arrival, taken);
            && n.ssrc == m.ssrc && !n.bye && n.rtpHeard && n.rtpAddr == from && n.hist.heard == n.hist.refreshed
            && n.src == Life(m.src, [Checked(p.seqno)] + Arrivals(p.ts, arrival, 1 + multiset(p.csrcs)[p.ssrc]))
  {
    hide UpdateSeq, Life;
  }

  lemma StillThere(s: State, event: Event, i: Slot)
    requires Good(s) && Admissible(s, event) && !event.TimePasses? && i in s.used && i != s.self
    ensures i in Step(s, event).used && i != Step(s, event).self && Step(s, event).cfg == s.cfg && Good(Step(s, event))
  {
    StepGood(s, event);
    hide Good, Admissible, Step, OutputGood, SeqsOk, RenumberOk;
  }

  /** An event that does not name the source, before it has been silent for 50 ticks, leaves the stream as it
      is. */
  lemma ElsewhereStep(s: State, event: Event, i: Slot, from: Addr, base: int, high: int)
    requires Good(s) && Admissible(s, event) && Streaming(s, i, from, base, high) && Elsewhere(s, event, i)
    ensures var u := Step(s, event);
            && Streaming(u, i, from, base, high)
            && GotFrom(u.out.delivered, s.slots[i].ssrc) == GotFrom(s.out.delivered, s.slots[i].ssrc)
            && u.slots[i].ssrc == s.slots[i].ssrc
  {
    hide Admissible, Step, Tracks, Mentions, SeqsOk, AllReportedOk, OutputGood, RenumberOk, SpacingOk, TimersOk, CountersOk, ConflictsOk, GotFrom;
    OthersDelivered(s, event, s.slots[i].ssrc);
    if event.TimePasses? {
      TickStreams(s, event.wall, i, from, base, high);
    } else {
      assert i !in s.free;
      UnmentionedIsUntouched(s, event, i);
      StillThere(s, event, i);
    }
  }

  lemma TickStreams(s: State, wall: Wall, i: Slot, from: Addr, base: int, high: int)
    requires Good(s) && Streaming(s, i, from, base, high) && s.timers.now + 1 < s.slots[i].hist.heard + 50
    ensures var u := Step(s, TimePasses(wall)); Streaming(u, i, from, base, high) && u.slots[i].ssrc == s.slots[i].ssrc
  {
    hide SessionTick, Good;
    TickGoodSelf(s, wall);
    TickIsExact(s, wall);
  }

  /** Nothing of a source is delivered by an event that does not name it. */
  lemma OthersDelivered(s: State, event: Event, ssrc: u32)
    requires Good(s) && Admissible(s, event) && !Mentions(event, s.cfg.pt, ssrc)
    ensures GotFrom(Step(s, event).out.delivered, ssrc) == GotFrom(s.out.delivered, ssrc)
  {
    hide Good, Admissible, Step, RtpPacket.Check, Carried, GotFrom, Taken;
    GoodSettled(s);
    match event
    case RtpArrives(pkt, from, arrival) => OthersPacket(s, pkt, from, arrival, ssrc);
    case RtcpArrives(msg, from, clock) => RtcpChangesOnly(s, msg, from, clock);
    case UserSends(payload, ts, csrcs) => SendsOnly(s, payload, ts, csrcs);
    case TimePasses(wall) => TicksOnly(s, wall);
  }

  lemma OthersPacket(s: State, pkt: seq<u8>, from: Addr, arrival: u32, ssrc: u32)
    requires Good(s) && Admissible(s, RtpArrives(pkt, from, arrival)) && !Mentions(RtpArrives(pkt, from, arrival), s.cfg.pt, ssrc)
    ensures Settled(s.timers)
    ensures GotFrom(Step(s, RtpArrives(pkt, from, arrival)).out.delivered, ssrc) == GotFrom(s.out.delivered, ssrc)
  {
    hide Good, Admissible, Step, RtpPacket.Check, Carried, GotFrom, Taken;
    GoodSettled(s);
    DeliveredIff(s, pkt, from, arrival);
    if p: RtpPacket.Packet, i: Slot :| Carried(pkt, s.cfg.pt, p) && Taken(s, p, from, i) {
      CarriedIs(pkt, s.cfg.pt, p);
      GotOneMore(s.out.delivered, Delivery(p, from, Touched(s.slots[i], from, s.timers.now, [])), ssrc);
      assert GotFrom(s.out.delivered, ssrc) + [] == GotFrom(s.out.delivered, ssrc);
    }
  }

  lemma SendsOnly(s: State, payload: seq<u8>, ts: u32, csrcs: CsrcList)
    requires Settled(s.timers)
    ensures Step(s, UserSends(payload, ts, csrcs)).out.delivered == s.out.delivered
  {
    hide RtpPacket.Encode, TooBig, Rearm;
  }

  lemma TicksOnly(s: State, wall: Wall)
    requires Good(s)
    ensures Settled(s.timers) && Step(s, TimePasses(wall)).out.delivered == s.out.delivered
  {
    hide SessionTick, Inv, SeqsOk, AllReportedOk, OutputGood, RenumberOk, SpacingOk, MembersAged;
    TickGood(s, wall);
  }

  // ---------------------------------------------------------------- runs

  /** Every packet of the stream reaches the user, in order and once, and nothing else of its source. */
  lemma {:induction false} StreamDelivered(s: State, events: seq<Event>, i: Slot, from: Addr, base: int, high: int)
    requires Good(s) && Run(s, events) && Streaming(s, i, from, base, high) && StreamRun(s, events, i, from, high)
    ensures var x := s.slots[i].ssrc;
            GotFrom(RunEnd(s, events).out.delivered, x) == GotFrom(s.out.delivered, x) + Arriving(events, s.cfg.pt, x)
    decreases |events|
  {
    hide Inv, SeqsOk, AllReportedOk, OutputGood, RenumberOk, SpacingOk, Admissible, Step, Streaming, Mentions, CarriedFrom, GotFrom;
    var x := s.slots[i].ssrc;
    if events == [] {
      assert GotFrom(s.out.delivered, x) + [] == GotFrom(s.out.delivered, x);
    } else {
      StepGood(s, events[0]);
      var s1, rest := Step(s, events[0]), Arriving(events[1..], s.cfg.pt, x);
      if Elsewhere(s, events[0], i) && StreamRun(s1, events[1..], i, from, high) {
        ElsewhereStep(s, events[0], i, from, base, high);
        NotCarried(events[0], s.cfg.pt, x);
        StreamDelivered(s1, events[1..], i, from, base, high);
      } else {
        var t :| NextInStream(s, events[0], i, from, high, t) && StreamRun(s1, events[1..], i, from, Max(high, t));
        StreamStep(s, events[0], i, from, base, high, t);
        StreamDelivered(s1, events[1..], i, from, base, Max(high, t));
        var p := CarriedFrom(events[0], s.cfg.pt, x).value;
        assert GotFrom(s.out.delivered, x) + [p] + rest == GotFrom(s.out.delivered, x) + ([p] + rest);
      }
    }
  }

  lemma NotCarried(event: Event, pt: u8, ssrc: u32)
    requires !Mentions(event, pt, ssrc)
    ensures CarriedFrom(event, pt, ssrc) == None
  {
    hide RtpPacket.Check;
  }

  // ---------------------------------------------------------------- the beginning of a stream

  /** A packet of this source and number from this address leads from one state to the next. */
  ghost predicate Brings(s: State, t: State, event: Event, from: Addr, ssrc: u32, seqno: u16) {
    var p := CarriedFrom(event, s.cfg.pt, ssrc);
    Follows(s, event, t) && p.Some? && event.RtpArrives? && event.from == from && p.value.seqno == seqno
  }

  lemma BroughtGood(s: State, t: State, event: Event, from: Addr, ssrc: u32, seqno: u16)
    requires Good(s) && Brings(s, t, event, from, ssrc, seqno)
    ensures Good(t) && t.cfg == s.cfg && t.timers.now == s.timers.now
  {
    StepGood(s, event);
    hide Good, Admissible, Step;
  }

  lemma FirstBrings(s: State, t: State, event: Event, from: Addr, ssrc: u32, h: u16)
    requires Good(s) && Brings(s, t, event, from, ssrc, h) && Unknown(s, ssrc) && s.free != []
    ensures var i, m := s.free[0], t.slots[s.free[0]];
            && i in t.used && i != t.self && m.ssrc == ssrc && m.rtpHeard && Listens(m, from)
            && m.src == InitSeq(s.slots[i].src, h, true)
    ensures t.out == s.out
  {
    hide Good, Admissible, Step, RtpPacket.Check, Carried, Life, InitSeq;
    var p := CarriedFrom(event, s.cfg.pt, ssrc).value;
    CarriedIs(event.pkt, s.cfg.pt, p);
    SourceEnters(s, event.pkt, p, from, event.arrival);
    OneOp(s.slots[s.free[0]].src, Heard(h));
    BroughtGood(s, t, event, from, ssrc, h);
    assert s.free[0] in t.used;
    NotOurs(t, s.free[0]);
  }

  lemma NotOurs(t: State, i: Slot)
    requires Good(t) && i in t.used && !t.slots[i].isSelf
    ensures i != t.self
  {
    hide TimersOk, CountersOk, ConflictsOk, SeqsOk, AllReportedOk, OutputGood, RenumberOk, SpacingOk;
  }

  lemma NextBrings(s: State, t: State, event: Event, from: Addr, ssrc: u32, q: u16, i: Slot)
    requires Good(s) && Brings(s, t, event, from, ssrc, q) && i in s.used && i != s.self
    requires var m := s.slots[i]; m.ssrc == ssrc && m.rtpHeard && Listens(m, from)
    ensures var m, n, (src, ok) := s.slots[i], t.slots[i], UpdateSeq(s.slots[i].src, q);
            && i in t.used && i != t.self && n.ssrc == ssrc && n.rtpHeard && Listens(n, from) && n.hist.heard == n.hist.refreshed
            && CarriedFrom(event, s.cfg.pt, ssrc).Some?
            && (!ok ==> n.src == src && t.out.delivered == s.out.delivered)
            && (ok ==>
                  && (forall base, high :: Tracks(src, base, high) ==> Tracks(n.src, base, high))
                  && |t.out.delivered| == |s.out.delivered| + 1 && t.out.delivered[..|s.out.delivered|] == s.out.delivered
                  && t.out.delivered[|s.out.delivered|].packet == CarriedFrom(event, s.cfg.pt, ssrc).value)
  {
    hide Good, Admissible, Step, RtpPacket.Check, Carried, Life, UpdateSeq, Tracks, Taken;
    var m, p := s.slots[i], CarriedFrom(event, s.cfg.pt, ssrc).value;
    CarriedIs(event.pkt, s.cfg.pt, p);
    EntryAfter(s, event.pkt, p, from, event.arrival, i);
    OneOp(m.src, Checked(q));
    StillThere(s, event, i);
    DeliveredIff(s, event.pkt, from, event.arrival);
    TakenIs(s, p, from, i);
    if UpdateSeq(m.src, q).1 {
      var n := 1 + multiset(p.csrcs)[p.ssrc];
      LifeAppend(m.src, [Checked(q)], Arrivals(p.ts, event.arrival, n));
      forall base, high | Tracks(UpdateSeq(m.src, q).0, base, high) ensures Tracks(t.slots[i].src, base, high) {
        ArrivalsTrack(UpdateSeq(m.src, q).0, p.ts, event.arrival, n, base, high);
      }
    } else {
      NotTaken(s, event.pkt, p, from, i);
    }
  }

  lemma NotTaken(s: State, pkt: seq<u8>, p: RtpPacket.Packet, from: Addr, i: Slot)
    requires Good(s) && i in s.used && s.slots[i].ssrc == p.ssrc && Carried(pkt, s.cfg.pt, p) && !Taken(s, p, from, i)
    ensures forall q: RtpPacket.Packet, j: Slot :: !(Carried(pkt, s.cfg.pt, q) && Taken(s, q, from, j))
  {
    hide TimersOk, CountersOk, ConflictsOk, SeqsOk, AllReportedOk, OutputGood, RenumberOk, SpacingOk, Carried, UpdateSeq, RtpPacket.Check;
    CarriedIs(pkt, s.cfg.pt, p);
    forall q: RtpPacket.Packet, j: Slot ensures !(Carried(pkt, s.cfg.pt, q) && Taken(s, q, from, j)) {
      CarriedIs(pkt, s.cfg.pt, q);
    }
  }

  /** From a source that nothing is known of, three packets arrive from one address: any first one, and then
      two in sequence that do not wrap.  Exactly the third is delivered, and the stream has begun. */
  lemma ThirdIsDelivered(s: State, s1: State, s2: State, s3: State, events: seq<Event>, from: Addr, ssrc: u32, h: u16, q: u16)
    requires Good(s) && Unknown(s, ssrc) && s.free != [] && |events| == 3 && q < 0xFFFF
    requires Brings(s, s1, events[0], from, ssrc, h) && Brings(s1, s2, events[1], from, ssrc, q)
    requires Brings(s2, s3, events[2], from, ssrc, q + 1)
    ensures Good(s3) && Streaming(s3, s.free[0], from, q + 1, q + 1) && s3.slots[s.free[0]].ssrc == ssrc
    ensures |s3.out.delivered| == |s.out.delivered| + 1 && s3.out.delivered[..|s.out.delivered|] == s.out.delivered
    ensures CarriedFrom(events[2], s.cfg.pt, ssrc) == Some(s3.out.delivered[|s.out.delivered|].packet)
  {
    hide Good, Brings, UpdateSeq, InitSeq, Tracks;
    var i := s.free[0];
    FirstBrings(s, s1, events[0], from, ssrc, h);
    BroughtGood(s, s1, events[0], from, ssrc, h);
    ValidatedIffNoWrap(s.slots[i].src, h, q);
    NextBrings(s1, s2, events[1], from, ssrc, q, i);
    BroughtGood(s1, s2, events[1], from, ssrc, q);
    NextBrings(s2, s3, events[2], from, ssrc, q + 1, i);
    BroughtGood(s2, s3, events[2], from, ssrc, q + 1);
  }
}
