/**
 The life of one member's reception record: what the successive report computations add up to, what
 of it reaches a receiver when not every report is sent, and whose figures a record holds after its
 slot has been given to a new member.
 */
module SourceLife {
  import opened Words
  import opened RtpSource

  /** What happens to the record of a member after its slot has been allocated: it is heard on RTP
      for the first time, a sequence number is checked, an accepted packet's arrival is noted, or
      the figures for an attempt to report are computed. */
  datatype SourceOp = Heard(seqno: u16) | Checked(seqno: u16) | Arrived(ts: u32, arrival: u32) | Summed(attempt: nat)

  function Undergo(s: Source, op: SourceOp): Source {
    match op
    case Heard(seqno) => InitSeq(s, seqno, true)
    case Checked(seqno) => UpdateSeq(s, seqno).0
    case Arrived(ts, arrival) => ComputeJitter(s, ts, arrival)
    case Summed(_) => Report(s).0
  }

  /** The record after all of `ops`, when the slot's former occupant had left `s` behind. */
  function Life(s: Source, ops: seq<SourceOp>): Source {
    if ops == [] then s else Undergo(Life(s, ops[..|ops| - 1]), ops[|ops| - 1])
  }

  /** Whether the member has been heard on RTP. */
  predicate HeardIn(ops: seq<SourceOp>) {
    ops != [] && (ops[|ops| - 1].Heard? || HeardIn(ops[..|ops| - 1]))
  }

  /** Packets are checked and noted only after the first hearing. */
  predicate InOrder(ops: seq<SourceOp>) {
    ops != [] ==>
      var before, op := ops[..|ops| - 1], ops[|ops| - 1];
      InOrder(before) && (op.Checked? || op.Arrived? ==> HeardIn(before))
  }

  lemma LifeSnoc(s: Source, ops: seq<SourceOp>, op: SourceOp)
    ensures Life(s, ops + [op]) == Undergo(Life(s, ops), op)
    ensures HeardIn(ops + [op]) <==> HeardIn(ops) || op.Heard?
    ensures InOrder(ops + [op]) <==> InOrder(ops) && (op.Checked? || op.Arrived? ==> HeardIn(ops))
  {
    var more := ops + [op];
    assert more[..|ops|] == ops && more[|ops|] == op;
  }

  lemma {:induction false} LifeAppend(s: Source, a: seq<SourceOp>, b: seq<SourceOp>)
    ensures Life(s, a + b) == Life(Life(s, a), b)
    decreases |b|
  {
    hide Undergo;
    if b == [] {
      assert a + b == a;
    } else {
      var n := |b| - 1;
      assert (a + b)[..|a + b| - 1] == a + b[..n] && (a + b)[|a + b| - 1] == b[n];
      LifeAppend(s, a, b[..n]);
    }
  }

  // ---------------------------------------------------------------- sums over report computations

  /** No first hearing and no re-synchronisation. */
  predicate NoRestart(s: Source, ops: seq<SourceOp>) {
    ops != [] ==>
      var before, op := ops[..|ops| - 1], ops[|ops| - 1];
      NoRestart(s, before) && !op.Heard? && (op.Checked? ==> !Reinitialises(Life(s, before), op.seqno))
  }

  datatype Totals = Totals(expected: int, received: int, lost: int)

  function WithReport(t: Totals, r: LossReport): Totals {
    Totals(t.expected + r.expectedInterval, t.received + r.receivedInterval, t.lost + r.lostInterval)
  }

  /** The sums of the interval figures over all computations. */
  function SumOfReports(s: Source, ops: seq<SourceOp>): Totals {
    if ops == [] then Totals(0, 0, 0)
    else
      var before, op := ops[..|ops| - 1], ops[|ops| - 1];
      var sum := SumOfReports(s, before);
      if op.Summed? then WithReport(sum, Report(Life(s, before)).1) else sum
  }

  /** The sums over the computations for attempts whose report was sent, or over the others. */
  function SumWhere(s: Source, ops: seq<SourceOp>, sent: nat -> bool, wanted: bool): Totals {
    if ops == [] then Totals(0, 0, 0)
    else
      var before, op := ops[..|ops| - 1], ops[|ops| - 1];
      var sum := SumWhere(s, before, sent, wanted);
      if op.Summed? && sent(op.attempt) == wanted then WithReport(sum, Report(Life(s, before)).1) else sum
  }

  /** Conservation: over any life without a restart, the interval figures of the successive
      computations add up to what the record says at the last one, so that every expected and
      every received packet is accounted for in exactly one interval. */
  lemma {:induction false} ReportsTelescope(s: Source, ops: seq<SourceOp>)
    requires NoRestart(s, ops)
    ensures var sum, r := SumOfReports(s, ops), Life(s, ops);
            && Wrap32(sum.expected) == Wrap32(r.expectedPrior - s.expectedPrior)
            && Wrap32(sum.received) == Wrap32(r.receivedPrior - s.receivedPrior)
            && Wrap32(sum.lost) == Wrap32(sum.expected - sum.received)
    decreases |ops|
  {
    hide Wrap32, MaskLost, Fraction, UpdateSeq, ComputeJitter;
    if ops == [] {
      assert s.expectedPrior - s.expectedPrior == 0 == s.receivedPrior - s.receivedPrior;
    } else {
      var before, op := ops[..|ops| - 1], ops[|ops| - 1];
      ReportsTelescope(s, before);
      match op
      case Checked(seqno) => PriorsStay(Life(s, before), seqno);
      case Arrived(ts, arrival) => PriorsUnnoted(Life(s, before), ts, arrival);
      case Summed(_) => TelescopeStep(s, Life(s, before), SumOfReports(s, before));
    }
  }

  lemma PriorsUnnoted(s: Source, ts: u32, arrival: u32)
    ensures var r := ComputeJitter(s, ts, arrival);
            r.expectedPrior == s.expectedPrior && r.receivedPrior == s.receivedPrior
  {
  }

  lemma TelescopeStep(s: Source, t: Source, sum: Totals)
    requires Wrap32(sum.expected) == Wrap32(t.expectedPrior - s.expectedPrior)
    requires Wrap32(sum.received) == Wrap32(t.receivedPrior - s.receivedPrior)
    requires Wrap32(sum.lost) == Wrap32(sum.expected - sum.received)
    ensures var r, more := Report(t).0, WithReport(sum, Report(t).1);
            && Wrap32(more.expected) == Wrap32(r.expectedPrior - s.expectedPrior)
            && Wrap32(more.received) == Wrap32(r.receivedPrior - s.receivedPrior)
            && Wrap32(more.lost) == Wrap32(more.expected - more.received)
  {
    hide Wrap32, MaskLost, Fraction;
    var r, report := Report(t).0, Report(t).1;
    WrapTwice(ExpectedCount(t) - t.expectedPrior);
    WrapTwice(t.received - t.receivedPrior);
    WrapTwice(report.expectedInterval - report.receivedInterval);
    Telescope(sum.expected, t.expectedPrior - s.expectedPrior, report.expectedInterval, r.expectedPrior - t.expectedPrior);
    Telescope(sum.received, t.receivedPrior - s.receivedPrior, report.receivedInterval, r.receivedPrior - t.receivedPrior);
    Telescope(sum.lost, sum.expected - sum.received, report.lostInterval, report.expectedInterval - report.receivedInterval);
  }

  /** From validation up to the computation for an attempt to report, sent or not, the interval figures
      sum up to the cumulative ones. */
  lemma LossAddsUp(s: Source, ops: seq<SourceOp>, attempt: nat)
    requires s.expectedPrior == 0 && s.receivedPrior == 0 && NoRestart(s, ops)
    ensures var sum, r := SumOfReports(s, ops + [Summed(attempt)]), Life(s, ops);
            && Wrap32(sum.expected) == ExpectedCount(r)
            && Wrap32(sum.received) == r.received
            && Wrap32(sum.lost) == Wrap32(ExpectedCount(r) - r.received)
  {
    hide Wrap32, SumOfReports, ExpectedCount, UpdateSeq, ComputeJitter;
    var all := ops + [Summed(attempt)];
    assert all[..|ops|] == ops && all[|ops|] == Summed(attempt);
    ReportsTelescope(s, all);
    hide NoRestart;
    var sum, r := SumOfReports(s, all), Life(s, ops);
    LifeSnoc(s, ops, Summed(attempt));
    PriorsAfter(r);
    hide Life, Undergo;
    WordIsItself(ExpectedCount(r));
    WordIsItself(r.received);
    WrapNegated(sum.received, r.received);
    Telescope(sum.expected, ExpectedCount(r), 0 - sum.received, 0 - r.received);
  }

  lemma PriorsAfter(s: Source)
    ensures Undergo(s, Summed(0)) == Report(s).0
    ensures Report(s).0.expectedPrior == ExpectedCount(s) && Report(s).0.receivedPrior == s.received
  {
  }

  // ---------------------------------------------------------------- what a receiver of the reports sees

  /** A source has just been validated, and no figures have been computed since. */
  predicate JustValidated(s: Source) {
    s.probation == 0 && s.expectedPrior == 0 && s.receivedPrior == 0
  }

  /** How far a packet moves the highest sequence number of a validated source on. */
  function Moves(s: Source, seqno: u16): nat {
    if Wrap16(seqno - s.maxSeq) < MAX_DROPOUT then Wrap16(seqno - s.maxSeq) else 0
  }

  function Accepts(s: Source, seqno: u16): nat {
    if UpdateSeq(s, seqno).1 then 1 else 0
  }

  /** Sequence numbers gone by, and packets accepted, counted without bound. */
  datatype Traffic = Traffic(moved: nat, accepted: nat)

  function WithPacket(t: Traffic, s: Source, seqno: u16): Traffic {
    Traffic(t.moved + Moves(s, seqno), t.accepted + Accepts(s, seqno))
  }

  /** All traffic up to the end of `ops`; that up to validation counts as well. */
  function AllTraffic(s: Source, ops: seq<SourceOp>): Traffic {
    if ops == [] then Traffic(ExpectedCount(s), s.received)
    else
      var before, op := ops[..|ops| - 1], ops[|ops| - 1];
      if op.Checked? then WithPacket(AllTraffic(s, before), Life(s, before), op.seqno) else AllTraffic(s, before)
  }

  /** The traffic since the last computation. */
  function Pending(s: Source, ops: seq<SourceOp>): Traffic {
    if ops == [] then Traffic(ExpectedCount(s), s.received)
    else
      var before, op := ops[..|ops| - 1], ops[|ops| - 1];
      match op
      case Checked(seqno) => WithPacket(Pending(s, before), Life(s, before), seqno)
      case Summed(_) => Traffic(0, 0)
      case _ => Pending(s, before)
  }

  /** The traffic in intervals that ended with an attempt whose report was not sent. */
  function Unreported(s: Source, ops: seq<SourceOp>, sent: nat -> bool): Traffic {
    if ops == [] then Traffic(0, 0)
    else
      var before, op := ops[..|ops| - 1], ops[|ops| - 1];
      var t, p := Unreported(s, before, sent), Pending(s, before);
      if op.Summed? && !sent(op.attempt) then Traffic(t.moved + p.moved, t.accepted + p.accepted) else t
  }

  /** At every attempt whose report was not sent, no packet had been accepted since the attempt before. */
  ghost predicate NothingAcceptedUnsent(s: Source, ops: seq<SourceOp>, sent: nat -> bool) {
    forall k | 0 <= k < |ops| && ops[k].Summed? && !sent(ops[k].attempt) :: Pending(s, ops[..k]).accepted == 0
  }

  /** At every attempt whose report was not sent, no packet had moved the highest sequence number since
      the attempt before. */
  ghost predicate NothingMovedUnsent(s: Source, ops: seq<SourceOp>, sent: nat -> bool) {
    forall k | 0 <= k < |ops| && ops[k].Summed? && !sent(ops[k].attempt) :: Pending(s, ops[..k]).moved == 0
  }

  /** A packet of a validated source counts as far as it moves, and once if it is accepted. */
  lemma CountsMove(s: Source, seqno: u16)
    requires s.probation == 0 && !Reinitialises(s, seqno)
    ensures var t := UpdateSeq(s, seqno).0;
            && t.probation == 0 && t.expectedPrior == s.expectedPrior && t.receivedPrior == s.receivedPrior
            && ExpectedCount(t) == Wrap32(ExpectedCount(s) + Moves(s, seqno))
            && t.received == Wrap32(s.received + Accepts(s, seqno))
  {
    var t, d := UpdateSeq(s, seqno).0, Wrap16(seqno - s.maxSeq);
    WordIsItself(s.received);
    if d < MAX_DROPOUT {
      var turn := if seqno < s.maxSeq then 0x1_0000 else 0;
      assert seqno - s.maxSeq + turn == d;
      var start := s.cycles + s.maxSeq - s.baseSeq + 1;
      hide Wrap32;
      WrapAdd(s.cycles + turn, t.maxSeq - s.baseSeq + 1, 0);
      WordIsItself(s.cycles);
      assert ExpectedCount(t) == Wrap32(s.cycles + turn + (t.maxSeq - s.baseSeq + 1));
      WrapAdd(start, d, 0);
    } else {
      WordIsItself(ExpectedCount(s));
    }
  }

  /** The record counts the traffic modulo 2^32. */
  lemma {:induction false} RecordCounts(s: Source, ops: seq<SourceOp>)
    requires JustValidated(s) && NoRestart(s, ops)
    ensures var r, all, pending := Life(s, ops), AllTraffic(s, ops), Pending(s, ops);
            && r.probation == 0
            && ExpectedCount(r) == Wrap32(all.moved) && r.received == Wrap32(all.accepted)
            && Wrap32(ExpectedCount(r) - r.expectedPrior) == Wrap32(pending.moved)
            && Wrap32(r.received - r.receivedPrior) == Wrap32(pending.accepted)
    decreases |ops|
  {
    hide Wrap32, UpdateSeq, ExpectedCount, Moves, Accepts;
    if ops == [] {
      WordIsItself(ExpectedCount(s));
      WordIsItself(s.received);
    } else {
      var before, op := ops[..|ops| - 1], ops[|ops| - 1];
      RecordCounts(s, before);
      match op
      case Checked(seqno) => PacketCounts(Life(s, before), seqno, AllTraffic(s, before), Pending(s, before));
      case Arrived(ts, arrival) => CountsUnnoted(Life(s, before), ts, arrival);
      case Summed(_) => CountsReported(Life(s, before));
    }
  }

  lemma PacketCounts(s: Source, seqno: u16, all: Traffic, pending: Traffic)
    requires s.probation == 0 && !Reinitialises(s, seqno)
    requires ExpectedCount(s) == Wrap32(all.moved) && s.received == Wrap32(all.accepted)
    requires Wrap32(ExpectedCount(s) - s.expectedPrior) == Wrap32(pending.moved)
    requires Wrap32(s.received - s.receivedPrior) == Wrap32(pending.accepted)
    ensures var t := UpdateSeq(s, seqno).0;
            && t.probation == 0
            && ExpectedCount(t) == Wrap32(WithPacket(all, s, seqno).moved)
            && t.received == Wrap32(WithPacket(all, s, seqno).accepted)
            && Wrap32(ExpectedCount(t) - t.expectedPrior) == Wrap32(WithPacket(pending, s, seqno).moved)
            && Wrap32(t.received - t.receivedPrior) == Wrap32(WithPacket(pending, s, seqno).accepted)
  {
    CountsMove(s, seqno);
    hide Wrap32, UpdateSeq, ExpectedCount, Moves, Accepts, Reinitialises;
    OneMore(ExpectedCount(s), s.expectedPrior, all.moved, pending.moved, Moves(s, seqno));
    OneMore(s.received, s.receivedPrior, all.accepted, pending.accepted, Accepts(s, seqno));
  }

  lemma OneMore(count: int, prior: int, all: int, pending: int, more: int)
    requires count == Wrap32(all) && Wrap32(count - prior) == Wrap32(pending)
    ensures Wrap32(count + more) == Wrap32(all + more)
    ensures Wrap32(Wrap32(count + more) - prior) == Wrap32(pending + more)
  {
    hide Wrap32;
    WrapAdd(all, more, 0);
    WrapAdd(count + more, -prior, 0);
    WrapShift(count - prior, pending, more);
  }

  lemma CountsUnnoted(s: Source, ts: u32, arrival: u32)
    ensures var r := ComputeJitter(s, ts, arrival);
            && r.probation == s.probation && ExpectedCount(r) == ExpectedCount(s) && r.received == s.received
            && r.expectedPrior == s.expectedPrior && r.receivedPrior == s.receivedPrior
  {
  }

  lemma CountsReported(s: Source)
    ensures var r := Report(s).0;
            && r.probation == s.probation && ExpectedCount(r) == ExpectedCount(s) && r.received == s.received
            && r.expectedPrior == ExpectedCount(r) && r.receivedPrior == r.received
            && Wrap32(ExpectedCount(r) - r.expectedPrior) == Wrap32(0) && Wrap32(r.received - r.receivedPrior) == Wrap32(0)
  {
  }

  /** The intervals that were not sent sum up to the traffic in them, modulo 2^32. */
  lemma {:induction false} UnsentIsUnreported(s: Source, ops: seq<SourceOp>, sent: nat -> bool)
    requires JustValidated(s) && NoRestart(s, ops)
    ensures var unsent, t := SumWhere(s, ops, sent, false), Unreported(s, ops, sent);
            && Wrap32(unsent.expected) == Wrap32(t.moved) && Wrap32(unsent.received) == Wrap32(t.accepted)
            && Wrap32(unsent.lost) == Wrap32(t.moved - t.accepted)
    decreases |ops|
  {
    hide Wrap32, Report, Life, Pending;
    if ops != [] {
      var before, op := ops[..|ops| - 1], ops[|ops| - 1];
      UnsentIsUnreported(s, before, sent);
      RecordCounts(s, before);
      if op.Summed? && !sent(op.attempt) {
        IntervalIsPending(Life(s, before), Pending(s, before), SumWhere(s, before, sent, false), Unreported(s, before, sent));
      }
    }
  }

  lemma IntervalIsPending(s: Source, pending: Traffic, unsent: Totals, t: Traffic)
    requires Wrap32(ExpectedCount(s) - s.expectedPrior) == Wrap32(pending.moved)
    requires Wrap32(s.received - s.receivedPrior) == Wrap32(pending.accepted)
    requires Wrap32(unsent.expected) == Wrap32(t.moved) && Wrap32(unsent.received) == Wrap32(t.accepted)
    requires Wrap32(unsent.lost) == Wrap32(t.moved - t.accepted)
    ensures var more := WithReport(unsent, Report(s).1);
            && Wrap32(more.expected) == Wrap32(t.moved + pending.moved)
            && Wrap32(more.received) == Wrap32(t.accepted + pending.accepted)
            && Wrap32(more.lost) == Wrap32(t.moved + pending.moved - (t.accepted + pending.accepted))
  {
    hide Wrap32, MaskLost, Fraction, ExpectedCount;
    var r := Report(s).1;
    WrapTwice(ExpectedCount(s) - s.expectedPrior);
    WrapTwice(s.received - s.receivedPrior);
    WrapTwice(r.expectedInterval - r.receivedInterval);
    WrapNegated(r.receivedInterval, pending.accepted);
    Telescope(r.expectedInterval, pending.moved, 0 - r.receivedInterval, 0 - pending.accepted);
    Telescope(unsent.expected, t.moved, r.expectedInterval, pending.moved);
    Telescope(unsent.received, t.accepted, r.receivedInterval, pending.accepted);
    Telescope(unsent.lost, t.moved - t.accepted, r.lostInterval, pending.moved - pending.accepted);
  }

  lemma {:induction false} UnreportedIsPart(s: Source, ops: seq<SourceOp>, sent: nat -> bool)
    ensures var all, pending, t := AllTraffic(s, ops), Pending(s, ops), Unreported(s, ops, sent);
            t.moved + pending.moved <= all.moved && t.accepted + pending.accepted <= all.accepted
    decreases |ops|
  {
    hide Life, Moves, Accepts;
    if ops != [] {
      UnreportedIsPart(s, ops[..|ops| - 1], sent);
    }
  }

  lemma {:induction false} NoneUnreported(s: Source, ops: seq<SourceOp>, sent: nat -> bool)
    ensures Unreported(s, ops, sent).accepted == 0 <==> NothingAcceptedUnsent(s, ops, sent)
    ensures Unreported(s, ops, sent).moved == 0 <==> NothingMovedUnsent(s, ops, sent)
    decreases |ops|
  {
    hide Life, Pending;
    if ops != [] {
      var n := |ops| - 1;
      NoneUnreported(s, ops[..n], sent);
      NothingSnoc(s, ops, sent);
      hide NothingAcceptedUnsent, NothingMovedUnsent;
    }
  }

  lemma NothingSnoc(s: Source, ops: seq<SourceOp>, sent: nat -> bool)
    requires ops != []
    ensures var before, op := ops[..|ops| - 1], ops[|ops| - 1];
            var unsent, pending := op.Summed? && !sent(op.attempt), Pending(s, before);
            && (NothingAcceptedUnsent(s, ops, sent) <==> NothingAcceptedUnsent(s, before, sent) && (unsent ==> pending.accepted == 0))
            && (NothingMovedUnsent(s, ops, sent) <==> NothingMovedUnsent(s, before, sent) && (unsent ==> pending.moved == 0))
  {
    hide Life, Pending;
    var n := |ops| - 1;
    assert forall k | 0 <= k < n :: ops[..n][..k] == ops[..k] && ops[..n][k] == ops[k];
  }

  lemma {:induction false} SentAndUnsent(s: Source, ops: seq<SourceOp>, sent: nat -> bool)
    ensures var all, yes, no := SumOfReports(s, ops), SumWhere(s, ops, sent, true), SumWhere(s, ops, sent, false);
            && all.expected == yes.expected + no.expected
            && all.received == yes.received + no.received
            && all.lost == yes.lost + no.lost
    decreases |ops|
  {
    hide Report, Life;
    if ops != [] {
      SentAndUnsent(s, ops[..|ops| - 1], sent);
    }
  }

  /** What a receiver of the reports sees: from validation on, and as long as the 32-bit counts have not
      wrapped around, the interval figures of the reports that were sent sum up to the cumulative ones of
      the last of them, as to packets received, if and only if no packet was accepted in an interval
      that ended with an attempt not sent; as to packets expected, if and only if no packet moved the
      highest sequence number in such an interval; as to losses, if and only if as many packets were
      accepted in such intervals as sequence numbers went by. */
  lemma SentAddUpIff(s: Source, ops: seq<SourceOp>, sent: nat -> bool, attempt: nat)
    requires JustValidated(s) && NoRestart(s, ops) && sent(attempt)
    requires AllTraffic(s, ops).moved < 0x1_0000_0000 && AllTraffic(s, ops).accepted < 0x1_0000_0000
    ensures var sum, r := SumWhere(s, ops + [Summed(attempt)], sent, true), Life(s, ops);
            && (Wrap32(sum.received) == r.received <==> NothingAcceptedUnsent(s, ops, sent))
            && (Wrap32(sum.expected) == ExpectedCount(r) <==> NothingMovedUnsent(s, ops, sent))
            && (Wrap32(sum.lost) == Wrap32(ExpectedCount(r) - r.received) <==>
                  Unreported(s, ops, sent).moved == Unreported(s, ops, sent).accepted)
  {
    hide SumWhere, Life, ExpectedCount, AllTraffic, Pending, Unreported, NothingAcceptedUnsent, NothingMovedUnsent, Wrap32;
    LackIsUnreported(s, ops, sent, attempt);
    UnreportedIsPart(s, ops, sent);
    NoneUnreported(s, ops, sent);
    var t := Unreported(s, ops, sent);
    ZeroIfSmall(t.moved);
    ZeroIfSmall(t.accepted);
    ZeroIfSmall(t.moved - t.accepted);
  }

  /** What the reports that were sent lack is the traffic in the other intervals. */
  lemma LackIsUnreported(s: Source, ops: seq<SourceOp>, sent: nat -> bool, attempt: nat)
    requires JustValidated(s) && NoRestart(s, ops) && sent(attempt)
    ensures var sum, r, t := SumWhere(s, ops + [Summed(attempt)], sent, true), Life(s, ops), Unreported(s, ops, sent);
            && (Wrap32(sum.received) == r.received <==> Wrap32(t.accepted) == 0)
            && (Wrap32(sum.expected) == ExpectedCount(r) <==> Wrap32(t.moved) == 0)
            && (Wrap32(sum.lost) == Wrap32(ExpectedCount(r) - r.received) <==> Wrap32(t.moved - t.accepted) == 0)
  {
    hide Wrap32, SumOfReports, SumWhere, Life, NoRestart, ExpectedCount, Unreported, Report;
    var all := ops + [Summed(attempt)];
    LossAddsUp(s, ops, attempt);
    SentAndUnsent(s, all, sent);
    UnsentIsUnreported(s, ops, sent);
    SumSnoc(s, ops, Summed(attempt), sent, false);
    hide JustValidated;
    var yes, no, r := SumWhere(s, all, sent, true), SumWhere(s, all, sent, false), Life(s, ops);
    WrapPart(yes.expected, no.expected, ExpectedCount(r));
    WrapPart(yes.received, no.received, r.received);
    WrapPart(yes.lost, no.lost, Wrap32(ExpectedCount(r) - r.received));
  }

  lemma ZeroIfSmall(n: int)
    requires -0x1_0000_0000 < n < 0x1_0000_0000
    ensures Wrap32(n) == 0 <==> n == 0
  {
  }

  /** An input for which nothing adds up: after two packets of a validated source, a report that does not
      fit is followed by one that does.  Neither packet is in any interval that is sent. */
  lemma UnsentIsLost()
    ensures var s := Life(BLANK, [Heard(1), Checked(1), Checked(2), Checked(3)]);
            && JustValidated(s) && ExpectedCount(s) == 2 && s.received == 2
            && SumWhere(s, [Summed(0), Summed(1)], k => k == 1, true) == Totals(0, 0, 0)
  {
    TwoPackets();
    UnsentFirst(Life(BLANK, [Heard(1), Checked(1), Checked(2), Checked(3)]), k => k == 1);
  }

  lemma UnsentFirst(s: Source, sent: nat -> bool)
    requires !sent(0) && sent(1)
    ensures SumWhere(s, [Summed(0), Summed(1)], sent, true) == Totals(0, 0, 0)
  {
    hide Report, Life, SumWhere;
    NothingNew(s);
    NothingHappens(s);
    assert [Summed(0), Summed(1)] == [Summed(0)] + [Summed(1)] && [Summed(0)] == [] + [Summed(0)];
    LifeSnoc(s, [], Summed(0));
    SumSnoc(s, [], Summed(0), sent, true);
    SumSnoc(s, [Summed(0)], Summed(1), sent, true);
    SumOfNone(s, sent, true);
  }

  lemma SumSnoc(s: Source, ops: seq<SourceOp>, op: SourceOp, sent: nat -> bool, wanted: bool)
    ensures var sum := SumWhere(s, ops, sent, wanted);
            SumWhere(s, ops + [op], sent, wanted) ==
              if op.Summed? && sent(op.attempt) == wanted then WithReport(sum, Report(Life(s, ops)).1) else sum
  {
    hide Report, Life;
    assert (ops + [op])[..|ops|] == ops;
  }

  lemma SumOfNone(s: Source, sent: nat -> bool, wanted: bool)
    ensures SumWhere(s, [], sent, wanted) == Totals(0, 0, 0)
  {
  }

  lemma NothingNew(s: Source)
    ensures var r := Report(Report(s).0).1; r.expectedInterval == 0 && r.receivedInterval == 0 && r.lostInterval == 0
  {
  }

  lemma TwoPackets()
    ensures Life(BLANK, [Heard(1), Checked(1), Checked(2), Checked(3)]) ==
            BLANK.(maxSeq := 3, baseSeq := 2, badSeq := 0x1_0001, received := 2)
  {
    var s3 := BLANK.(maxSeq := 2, baseSeq := 2, badSeq := 0x1_0001, received := 1);
    assert Undergo(s3, Checked(3)) == s3.(maxSeq := 3, received := 2);
    ValidatedAtTwo();
    hide Life, HeardIn, InOrder, Undergo;
    LifeSnoc(BLANK, [Heard(1), Checked(1), Checked(2)], Checked(3));
    assert [Heard(1), Checked(1), Checked(2)] + [Checked(3)] == [Heard(1), Checked(1), Checked(2), Checked(3)];
  }

  /** Two packets in sequence, 1 and 2, validate a source. */
  lemma ValidatedAtTwo()
    ensures Life(BLANK, [Heard(1), Checked(1), Checked(2)]) ==
            BLANK.(maxSeq := 2, baseSeq := 2, badSeq := 0x1_0001, received := 1)
  {
    var s1 := BLANK.(baseSeq := 1, badSeq := 0x1_0001, probation := 2);
    var s2 := s1.(maxSeq := 1, probation := 1);
    var s3 := BLANK.(maxSeq := 2, baseSeq := 2, badSeq := 0x1_0001, received := 1);
    assert Undergo(BLANK, Heard(1)) == s1 && Undergo(s1, Checked(1)) == s2;
    assert Undergo(s2, Checked(2)) == s3;
    hide Life, HeardIn, InOrder, Undergo;
    NothingHappens(BLANK);
    LifeSnoc(BLANK, [], Heard(1));
    assert [] + [Heard(1)] == [Heard(1)];
    LifeSnoc(BLANK, [Heard(1)], Checked(1));
    assert [Heard(1)] + [Checked(1)] == [Heard(1), Checked(1)];
    LifeSnoc(BLANK, [Heard(1), Checked(1)], Checked(2));
    assert [Heard(1), Checked(1)] + [Checked(2)] == [Heard(1), Checked(1), Checked(2)];
  }

  // ---------------------------------------------------------------- whose figures these are

  /** Everything in a record but transit time and jitter. */
  function Counts(s: Source): Source {
    s.(transit := 0, jitter := 0)
  }

  lemma UndergoCounts(s: Source, t: Source, op: SourceOp)
    requires Counts(s) == Counts(t) || op.Heard?
    ensures Counts(Undergo(s, op)) == Counts(Undergo(t, op))
  {
    hide Wrap32, MaskLost, Fraction, Signed32, NextJitter, Abs, TransitChange;
  }

  lemma {:induction false} CountsForget(s: Source, t: Source, ops: seq<SourceOp>)
    requires HeardIn(ops)
    ensures Counts(Life(s, ops)) == Counts(Life(t, ops))
    decreases |ops|
  {
    hide Undergo, Counts;
    var n := |ops| - 1;
    if HeardIn(ops[..n]) {
      CountsForget(s, t, ops[..n]);
    }
    UndergoCounts(Life(s, ops[..n]), Life(t, ops[..n]), ops[n]);
  }

  lemma FiguresOfCounts(s: Source, t: Source)
    requires Counts(s) == Counts(t)
    ensures Report(s).1 == Report(t).1
  {
    hide Wrap32, MaskLost, Fraction, Signed32;
  }

  lemma {:induction false} UnheardKeepsMax(s: Source, ops: seq<SourceOp>)
    requires InOrder(ops) && !HeardIn(ops)
    ensures Life(s, ops).maxSeq == s.maxSeq && Life(s, ops).cycles == s.cycles
    decreases |ops|
  {
    if ops != [] {
      UnheardKeepsMax(s, ops[..|ops| - 1]);
    }
  }

  /** A slot's record is not cleared when it is allocated.  The sequence and loss figures of a
      report on its new occupant are the same whatever the former one has left behind, if and only
      if the new one has been heard on RTP since. */
  lemma FiguresOwnIffHeard(ops: seq<SourceOp>)
    requires InOrder(ops)
    ensures (forall left: Source :: Report(Life(left, ops)).1 == Report(Life(BLANK, ops)).1) <==> HeardIn(ops)
  {
    hide Report, Life, InitSeq, UpdateSeq;
    if HeardIn(ops) {
      forall left: Source ensures Report(Life(left, ops)).1 == Report(Life(BLANK, ops)).1 {
        CountsForget(left, BLANK, ops);
        FiguresOfCounts(Life(left, ops), Life(BLANK, ops));
      }
    } else {
      var left := BLANK.(maxSeq := 1);
      UnheardKeepsMax(left, ops);
      UnheardKeepsMax(BLANK, ops);
      MaxInReport(Life(left, ops));
      MaxInReport(Life(BLANK, ops));
    }
  }

  lemma MaxInReport(s: Source)
    requires s.cycles == 0
    ensures Report(s).1.extendedMax == s.maxSeq
  {
    hide MaskLost, Fraction, Signed32;
  }

  /** An input for which they are not: the former occupant lost eight of ten packets, and the new
      one, of which no RTP packet has come, is reported with these losses. */
  lemma FiguresInherited()
    ensures var left := Life(BLANK, [Heard(1), Checked(1), Checked(2), Checked(11)]);
            var r, own := Report(Life(left, [])).1, Report(Life(BLANK, [])).1;
            r.extendedMax == 11 && r.lost == 8 && r.fraction == 204 && own.extendedMax == 0 && own.lost == 1
  {
    hide Fraction, Life, ExpectedCount, Report;
    LossyOccupant();
    var left := BLANK.(maxSeq := 11, baseSeq := 2, badSeq := 0x1_0001, received := 2);
    TenExpected();
    NothingHappens(left);
    NothingHappens(BLANK);
    FirstReport(left);
    FirstReport(BLANK);
  }

  lemma TenExpected()
    ensures ExpectedCount(BLANK.(maxSeq := 11, baseSeq := 2, badSeq := 0x1_0001, received := 2)) == 10
    ensures ExpectedCount(BLANK) == 1 && Fraction(10, 8) == 204
  {
  }

  lemma FirstReport(s: Source)
    requires s.expectedPrior == 0 && s.receivedPrior == 0 && s.received <= ExpectedCount(s) < s.received + 0x80_0000
    ensures var r, lost := Report(s).1, ExpectedCount(s) - s.received;
            r.lost == lost && r.fraction == Fraction(ExpectedCount(s), lost) && r.extendedMax == Wrap32(s.cycles + s.maxSeq)
  {
    hide ExpectedCount, Fraction, Wrap32;
    SmallIsItself(ExpectedCount(s));
    SmallIsItself(s.received);
    SmallIsItself(ExpectedCount(s) - s.received);
  }

  lemma NothingHappens(s: Source)
    ensures Life(s, []) == s
  {
  }

  lemma LossyOccupant()
    ensures Life(BLANK, [Heard(1), Checked(1), Checked(2), Checked(11)]) ==
            BLANK.(maxSeq := 11, baseSeq := 2, badSeq := 0x1_0001, received := 2)
  {
    var s3 := BLANK.(maxSeq := 2, baseSeq := 2, badSeq := 0x1_0001, received := 1);
    assert Undergo(s3, Checked(11)) == s3.(maxSeq := 11, received := 2);
    ValidatedAtTwo();
    hide Life, HeardIn, InOrder, Undergo;
    LifeSnoc(BLANK, [Heard(1), Checked(1), Checked(2)], Checked(11));
    assert [Heard(1), Checked(1), Checked(2)] + [Checked(11)] == [Heard(1), Checked(1), Checked(2), Checked(11)];
  }

  /** Whether the arrival of a packet has been noted. */
  predicate ArrivedIn(ops: seq<SourceOp>) {
    ops != [] && (ops[|ops| - 1].Arrived? || ArrivedIn(ops[..|ops| - 1]))
  }

  /** The transit time of the first packet noted. */
  function FirstTransit(ops: seq<SourceOp>): u32
    requires ArrivedIn(ops)
  {
    var n := |ops| - 1;
    if ArrivedIn(ops[..n]) then FirstTransit(ops[..n]) else Wrap32(ops[n].arrival - ops[n].ts)
  }

  /** What a former occupant can leave behind to make the estimate as small, or as large, as
      possible. */
  function Smallest(ops: seq<SourceOp>): Source
    requires ArrivedIn(ops)
  {
    BLANK.(jitter := 0, transit := FirstTransit(ops))
  }

  function Largest(ops: seq<SourceOp>): Source
    requires ArrivedIn(ops)
  {
    BLANK.(jitter := 0xFFFF_FFFF, transit := Wrap32(FirstTransit(ops) - 0x8000_0000))
  }

  lemma {:induction false} NothingArrived(s: Source, ops: seq<SourceOp>)
    requires !ArrivedIn(ops)
    ensures Life(s, ops).jitter == s.jitter && Life(s, ops).transit == s.transit
    decreases |ops|
  {
    if ops != [] {
      NothingArrived(s, ops[..|ops| - 1]);
    }
  }

  ghost predicate Between(low: Source, s: Source, high: Source) {
    low.transit == s.transit == high.transit && low.jitter <= s.jitter <= high.jitter
  }

  lemma UndergoBetween(low: Source, s: Source, high: Source, op: SourceOp)
    requires Between(low, s, high)
    ensures Between(Undergo(low, op), Undergo(s, op), Undergo(high, op))
  {
    hide UpdateSeq, Report;
    match op
    case Heard(_) =>
    case Checked(seqno) => JitterUnchecked(low, seqno); JitterUnchecked(s, seqno); JitterUnchecked(high, seqno);
    case Arrived(ts, arrival) =>
      var d := Abs(TransitChange(s, ts, arrival));
      hide NextJitter;
      JitterIsInteger(low.jitter, d);
      JitterIsInteger(s.jitter, d);
      JitterIsInteger(high.jitter, d);
    case Summed(_) => JitterUnreported(low); JitterUnreported(s); JitterUnreported(high);
  }

  lemma JitterUnchecked(s: Source, seqno: u16)
    ensures UpdateSeq(s, seqno).0.jitter == s.jitter && UpdateSeq(s, seqno).0.transit == s.transit
  {
  }

  lemma JitterUnreported(s: Source)
    ensures Report(s).0.jitter == s.jitter && Report(s).0.transit == s.transit
  {
  }

  /** The first packet brings the records of all former occupants between the two extremes. */
  lemma FirstArrival(low: Source, s: Source, high: Source, ts: u32, arrival: u32)
    requires low.jitter == 0 && high.jitter == 0xFFFF_FFFF
    requires low.transit == Wrap32(arrival - ts) && high.transit == Wrap32(low.transit - 0x8000_0000)
    ensures Between(ComputeJitter(low, ts, arrival), ComputeJitter(s, ts, arrival), ComputeJitter(high, ts, arrival))
  {
    HalfTurn(low.transit);
    assert TransitChange(low, ts, arrival) == 0;
    assert Abs(TransitChange(high, ts, arrival)) == 0x8000_0000;
    var d := Abs(TransitChange(s, ts, arrival));
    hide NextJitter;
    JitterIsInteger(0, 0);
    JitterIsInteger(s.jitter, d);
    JitterIsInteger(0xFFFF_FFFF, 0x8000_0000);
  }

  lemma HalfTurn(t: u32)
    ensures Wrap32(t - Wrap32(t - 0x8000_0000)) == 0x8000_0000
  {
  }

  lemma {:induction false} LifeBetween(s: Source, ops: seq<SourceOp>)
    requires ArrivedIn(ops)
    ensures Between(Life(Smallest(ops), ops), Life(s, ops), Life(Largest(ops), ops))
    decreases |ops|
  {
    hide Undergo, Between, ComputeJitter;
    var n := |ops| - 1;
    var before, op := ops[..n], ops[n];
    if ArrivedIn(before) {
      LifeBetween(s, before);
      UndergoBetween(Life(Smallest(ops), before), Life(s, before), Life(Largest(ops), before), op);
    } else {
      FirstLife(s, before, op);
    }
  }

  lemma FirstLife(s: Source, before: seq<SourceOp>, op: SourceOp)
    requires !ArrivedIn(before) && op.Arrived?
    ensures var low := BLANK.(jitter := 0, transit := Wrap32(op.arrival - op.ts));
            var high := BLANK.(jitter := 0xFFFF_FFFF, transit := Wrap32(low.transit - 0x8000_0000));
            Between(Undergo(Life(low, before), op), Undergo(Life(s, before), op), Undergo(Life(high, before), op))
  {
    hide Between, ComputeJitter, Life;
    var low := BLANK.(jitter := 0, transit := Wrap32(op.arrival - op.ts));
    var high := BLANK.(jitter := 0xFFFF_FFFF, transit := Wrap32(low.transit - 0x8000_0000));
    NothingArrived(low, before);
    NothingArrived(s, before);
    NothingArrived(high, before);
    FirstArrival(Life(low, before), Life(s, before), Life(high, before), op.ts, op.arrival);
  }

  /** Nor are transit time and jitter ever cleared.  The jitter of the new occupant is the same
      whatever the former one has left behind, if and only if a packet has arrived and the packets
      since then have brought the smallest and the largest possible start to the same estimate. */
  lemma JitterOwnIffForgotten(ops: seq<SourceOp>)
    ensures (forall left: Source :: Life(left, ops).jitter == Life(BLANK, ops).jitter) <==>
            ArrivedIn(ops) && Life(Smallest(ops), ops).jitter == Life(Largest(ops), ops).jitter
  {
    hide Life;
    if ArrivedIn(ops) {
      LifeBetween(BLANK, ops);
      forall left: Source
        ensures Life(Smallest(ops), ops).jitter <= Life(left, ops).jitter <= Life(Largest(ops), ops).jitter
      {
        LifeBetween(left, ops);
      }
    } else {
      NothingArrived(BLANK, ops);
      NothingArrived(BLANK.(jitter := 1), ops);
    }
  }

  /** An input for which it is not: a former occupant whose second packet took 25600 units longer than
      the first leaves 3100 units of jitter to a new one that has sent a single packet. */
  lemma JitterInherited()
    ensures var left := Life(BLANK, [Heard(0), Arrived(0, 0), Arrived(0, 25600)]);
            var ops := [Heard(0), Arrived(0, 0)];
            Life(left, ops).jitter == 3100 && Life(BLANK, ops).jitter == 0
  {
    hide Life, NextJitter, ComputeJitter;
    HeardOnce(BLANK);
    PromptPacket(InitSeq(BLANK, 0, true));
    LateOccupant();
    HeardOnce(Life(BLANK, [Heard(0), Arrived(0, 0), Arrived(0, 25600)]));
    PromptPacket(InitSeq(Life(BLANK, [Heard(0), Arrived(0, 0), Arrived(0, 25600)]), 0, true));
  }

  lemma PromptPacket(s: Source)
    requires s.transit <= 0x8000_0000
    ensures ComputeJitter(s, 0, 0).jitter == (15 * s.jitter + s.transit) / 16
  {
    assert Wrap32(0 - s.transit) == if s.transit == 0 then 0 else 0x1_0000_0000 - s.transit;
    assert Abs(TransitChange(s, 0, 0)) == s.transit;
    JitterIsInteger(s.jitter, s.transit);
    hide NextJitter;
  }

  lemma LateOccupant()
    ensures var s := Life(BLANK, [Heard(0), Arrived(0, 0), Arrived(0, 25600)]); s.jitter == 1600 && s.transit == 25600
  {
    hide Life, NextJitter;
    HeardOnce(BLANK);
    JitterIsInteger(0, 0);
    LifeSnoc(BLANK, [Heard(0), Arrived(0, 0)], Arrived(0, 25600));
    assert [Heard(0), Arrived(0, 0)] + [Arrived(0, 25600)] == [Heard(0), Arrived(0, 0), Arrived(0, 25600)];
    JitterIsInteger(0, 25600);
  }

  lemma HeardOnce(s: Source)
    ensures Life(s, [Heard(0), Arrived(0, 0)]) == ComputeJitter(InitSeq(s, 0, true), 0, 0)
  {
    hide ComputeJitter, InitSeq;
    NothingHappens(s);
    assert [Heard(0)] == [] + [Heard(0)] && [Heard(0), Arrived(0, 0)] == [Heard(0)] + [Arrived(0, 0)];
    LifeSnoc(s, [], Heard(0));
    LifeSnoc(s, [Heard(0)], Arrived(0, 0));
  }
}
