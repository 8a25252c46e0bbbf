/**
 Per-source reception state: sequence number validation (section A.1 of RFC 3550), loss
 accounting for report blocks (section A.3) and interarrival jitter (section A.8).

 `Source` is the record and the functions on it; `ReceptionState` updates the same record
 in place, field by field.
 */
module RtpSource {
  import opened Words
  import opened RtcpTypes

  const MAX_DROPOUT: nat := 3000
  const MAX_MISORDER: nat := 100
  const MIN_SEQUENTIAL: nat := 2

  datatype Source = Source(
    maxSeq: u16,
    cycles: u32,
    baseSeq: u32,
    badSeq: u32,
    probation: u32,
    received: u32,
    expectedPrior: u32,
    receivedPrior: u32,
    transit: u32,
    jitter: u32)

  const BLANK := Source(0, 0, 0, 0, 0, 0, 0, 0, 0, 0)

  // ---------------------------------------------------------------- sequence numbers

  function InitSeq(s: Source, seqno: u16, first: bool): Source {
    var base := s.(baseSeq := seqno, maxSeq := seqno, badSeq := 0x1_0001, cycles := 0,
                   received := 0, receivedPrior := 0, expectedPrior := 0);
    if first then base.(maxSeq := Wrap16(seqno - 1), probation := MIN_SEQUENTIAL) else base
  }

  function CountReceived(s: Source): Source {
    s.(received := Wrap32(s.received + 1))
  }

  /** The new record, and whether the packet is accepted. */
  function UpdateSeq(s: Source, seqno: u16): (Source, bool) {
    var udelta := Wrap16(seqno - s.maxSeq);
    if s.probation != 0 then
      if seqno == s.maxSeq + 1 then
        var t := s.(probation := s.probation - 1, maxSeq := seqno);
        if t.probation == 0 then (CountReceived(InitSeq(t, seqno, false)), true) else (t, false)
      else
        (s.(probation := MIN_SEQUENTIAL - 1, maxSeq := seqno), false)
    else if udelta < MAX_DROPOUT then
      var cycles := if seqno < s.maxSeq then Wrap32(s.cycles + 0x1_0000) else s.cycles;
      (CountReceived(s.(cycles := cycles, maxSeq := seqno)), true)
    else if udelta <= 0x1_0000 - MAX_MISORDER then
      if seqno == s.badSeq then
        (CountReceived(InitSeq(s, seqno, true)), true)
      else
        (s.(badSeq := Wrap16(seqno + 1)), false)
    else
      (CountReceived(s), true)
  }

  /** The true, unbounded sequence numbers of a run of packets, as 16-bit fields on the wire. */
  function Receive(s: Source, stream: seq<int>): (r: Source)
    decreases |stream|
  {
    if stream == [] then s else Receive(UpdateSeq(s, Wrap16(stream[0])).0, stream[1..])
  }

  ghost predicate AllAccepted(s: Source, stream: seq<int>)
    decreases |stream|
  {
    stream == [] ||
    (UpdateSeq(s, Wrap16(stream[0])).1 && AllAccepted(UpdateSeq(s, Wrap16(stream[0])).0, stream[1..]))
  }

  function Max(a: int, b: int): int { if a < b then b else a }

  function RunningMax(high: int, stream: seq<int>): int
    decreases |stream|
  {
    if stream == [] then high else RunningMax(Max(high, stream[0]), stream[1..])
  }

  /** Every packet is at most 99 behind and at most 2999 ahead of the highest so far. */
  ghost predicate WithinWindow(high: int, stream: seq<int>)
    decreases |stream|
  {
    stream == [] ||
    (high - 99 <= stream[0] <= high + 2999 && WithinWindow(Max(high, stream[0]), stream[1..]))
  }

  /** A validated record that stands for the true positions `base` (first) and `high` (highest). */
  ghost predicate Tracks(s: Source, base: int, high: int) {
    && s.probation == 0
    && s.maxSeq == Wrap16(high)
    && s.cycles % 0x1_0000 == 0
    && Wrap32(s.cycles + s.maxSeq - s.baseSeq) == Wrap32(high - base)
  }

  /** The position that report blocks are computed from: how far the source has got. */
  function Progress(s: Source): u32 {
    Wrap32(s.cycles + s.maxSeq - s.baseSeq)
  }

  /** A packet at true position `t` within the window of a record that tracks `high`. */
  lemma TracksStep(s: Source, base: int, high: int, t: int)
    requires Tracks(s, base, high) && high - 99 <= t <= high + 2999
    ensures var (r, ok) := UpdateSeq(s, Wrap16(t));
            && ok && Tracks(r, base, Max(high, t))
            && r.received == Wrap32(s.received + 1)
            && r.baseSeq == s.baseSeq && r.expectedPrior == s.expectedPrior && r.receivedPrior == s.receivedPrior
  {
    var q, m := high / 0x1_0000, high % 0x1_0000;
    var p, n := t / 0x1_0000, t % 0x1_0000;
    assert high == q * 0x1_0000 + m && t == p * 0x1_0000 + n;
    assert Wrap16(n - m) == if t >= high then t - high else t - high + 0x1_0000 by {
      assert q - 1 <= p <= q + 1;
    }
    if t >= high {
      var wrapped := if n < m then 1 else 0;
      assert p == q + wrapped;
      assert t - high == wrapped * 0x1_0000 + n - m;
      WrapShift(s.cycles + m - s.baseSeq, high - base, t - high);
      WrapCycles(s.cycles, wrapped, n - s.baseSeq);
    }
  }

  lemma WrapShift(a: int, b: int, d: int)
    requires Wrap32(a) == Wrap32(b)
    ensures Wrap32(a + d) == Wrap32(b + d)
  {
    assert a == (a / 0x1_0000_0000) * 0x1_0000_0000 + a % 0x1_0000_0000;
    assert b == (b / 0x1_0000_0000) * 0x1_0000_0000 + b % 0x1_0000_0000;
    var k := a / 0x1_0000_0000 - b / 0x1_0000_0000;
    assert a + d == b + d + k * 0x1_0000_0000;
    WrapTurns(b + d, k);
  }

  lemma WrapTurns(n: int, k: int)
    ensures Wrap32(n + k * 0x1_0000_0000) == Wrap32(n)
  {
  }

  lemma WrapCycles(cycles: u32, wrapped: int, rest: int)
    requires wrapped == 0 || wrapped == 1
    ensures Wrap32(Wrap32(cycles + wrapped * 0x1_0000) + rest) == Wrap32(cycles + wrapped * 0x1_0000 + rest)
    ensures cycles % 0x1_0000 == 0 ==> Wrap32(cycles + wrapped * 0x1_0000) % 0x1_0000 == 0
  {
  }

  /** For any stream of true sequence numbers that stays within the window, no packet is
      rejected, the 32-bit record reconstructs how far the true sequence number has come
      since validation, and every packet is counted. */
  lemma {:induction false} StreamReconstructed(s: Source, base: int, high: int, stream: seq<int>)
    requires Tracks(s, base, high) && WithinWindow(high, stream)
    ensures AllAccepted(s, stream)
    ensures Tracks(Receive(s, stream), base, RunningMax(high, stream))
    ensures Receive(s, stream).received == Wrap32(s.received + |stream|)
    decreases |stream|
  {
    hide UpdateSeq, Tracks, Wrap32, Wrap16;
    if stream != [] {
      var t := stream[0];
      TracksStep(s, base, high, t);
      var r := UpdateSeq(s, Wrap16(t)).0;
      StreamReconstructed(r, base, Max(high, t), stream[1..]);
      WrapTwice(s.received + 1);
      WrapShift(r.received, s.received + 1, |stream| - 1);
    } else {
      WordIsItself(s.received);
    }
  }

  /** As long as the true distance is below 2^32, the record holds it exactly. */
  lemma ProgressIsTrueDistance(s: Source, base: int, stream: seq<int>)
    requires Tracks(s, base, base) && WithinWindow(base, stream)
    requires RunningMax(base, stream) - base < 0x1_0000_0000
    ensures Progress(Receive(s, stream)) == RunningMax(base, stream) - base
  {
    StreamReconstructed(s, base, base, stream);
    RunningMaxGrows(base, stream);
  }

  lemma {:induction false} RunningMaxGrows(high: int, stream: seq<int>)
    ensures high <= RunningMax(high, stream)
    decreases |stream|
  {
    if stream != [] {
      RunningMaxGrows(Max(high, stream[0]), stream[1..]);
    }
  }

  /** Validation: from any first hearing, a source is accepted with the second of two packets
      q and q + 1, and then it is tracked from there. The test compares with q + 1 without
      wrapping, so a source whose two first packets are 65535 and 0 is not accepted: the
      packets validate the source exactly when q is below 65535. */
  lemma ValidatedIffNoWrap(earlier: Source, heard: u16, q: u16)
    ensures var s0 := InitSeq(earlier, heard, true);
            var (s1, ok1) := UpdateSeq(s0, q);
            var (s2, ok2) := UpdateSeq(s1, Wrap16(q + 1));
            && !ok1
            && (ok2 <==> q < 0xFFFF)
            && (ok2 ==> s2.received == 1 && Tracks(s2, q + 1, q + 1))
  {
  }

  /** A run of packets after validation, starting from the packet that validated the source. */
  lemma ReconstructedFromValidation(earlier: Source, heard: u16, base: int, stream: seq<int>)
    requires Wrap16(base) != 0 && WithinWindow(base, stream)
    requires RunningMax(base, stream) - base < 0x1_0000_0000
    ensures var s0 := InitSeq(earlier, heard, true);
            var s1 := UpdateSeq(s0, Wrap16(base - 1)).0;
            var (s2, ok) := UpdateSeq(s1, Wrap16(base));
            && ok && AllAccepted(s2, stream)
            && Progress(Receive(s2, stream)) == RunningMax(base, stream) - base
            && Receive(s2, stream).received == Wrap32(1 + |stream|)
  {
    var q := Wrap16(base - 1);
    assert q == Wrap16(base) - 1 && Wrap16(q + 1) == Wrap16(base);
    ValidatedIffNoWrap(earlier, heard, q);
    var s1 := UpdateSeq(InitSeq(earlier, heard, true), q).0;
    var s2 := UpdateSeq(s1, Wrap16(base)).0;
    assert Tracks(s2, base, base);
    StreamReconstructed(s2, base, base, stream);
    ProgressIsTrueDistance(s2, base, stream);
  }

  /** A packet that starts the record afresh. */
  predicate Reinitialises(s: Source, seqno: u16) {
    if s.probation != 0 then s.probation == 1 && seqno == s.maxSeq + 1
    else seqno == s.badSeq && MAX_DROPOUT <= Wrap16(seqno - s.maxSeq) <= 0x1_0000 - MAX_MISORDER
  }

  /** The packet with which a validated source is re-synchronised is accepted, but it also puts the
      source back on probation: whatever packet comes next is rejected. */
  lemma RestartLosesNext(s: Source, q: u16)
    requires s.probation == 0 && Reinitialises(s, q)
    ensures UpdateSeq(s, q).1
    ensures forall x: u16 :: !UpdateSeq(UpdateSeq(s, q).0, x).1
  {
  }

  /** When a validated source jumps away, the first packet of the jump is rejected and remembered;
      the next in sequence is accepted, and re-synchronises the source exactly if the jump was not
      the largest possible one; then the third packet is rejected, whatever it is. */
  lemma RestartLosesThirdPacket(s: Source, q: u16)
    requires s.probation == 0 && q != s.badSeq
    requires MAX_DROPOUT <= Wrap16(q - s.maxSeq) <= 0x1_0000 - MAX_MISORDER
    ensures var (s1, ok1) := UpdateSeq(s, q);
            var (s2, ok2) := UpdateSeq(s1, Wrap16(q + 1));
            && !ok1 && ok2
            && (Reinitialises(s1, Wrap16(q + 1)) <==> Wrap16(q - s.maxSeq) < 0x1_0000 - MAX_MISORDER)
            && (Reinitialises(s1, Wrap16(q + 1)) ==> s2.received == 1 && forall x: u16 :: !UpdateSeq(s2, x).1)
  {
    NextDelta(q, s.maxSeq);
    var s1 := UpdateSeq(s, q).0;
    if Reinitialises(s1, Wrap16(q + 1)) {
      RestartLosesNext(s1, Wrap16(q + 1));
    }
  }

  lemma NextDelta(q: u16, max: u16)
    requires Wrap16(q - max) < 0xFFFF
    ensures Wrap16(Wrap16(q + 1) - max) == Wrap16(q - max) + 1
  {
  }

  // ---------------------------------------------------------------- loss accounting

  datatype LossReport = LossReport(
    extendedMax: u32,
    expected: u32,
    lost: u24,
    expectedInterval: u32,
    receivedInterval: u32,
    lostInterval: u32,
    fraction: u8)

  function ExpectedCount(s: Source): u32 {
    Wrap32(s.cycles + s.maxSeq - s.baseSeq + 1)
  }

  /** The 24-bit cumulative loss field, masked the way the program masks it. */
  function MaskLost(lost: int): (r: u32)
    requires -0x8000_0000 <= lost < 0x8000_0000
    ensures r <= 0x80_0000
  {
    if 0 <= lost then lost % 0x80_0000
    else if (lost / 0x80_0000) % 2 == 1 then 0x80_0000 else 0
  }

  function Fraction(expectedInterval: u32, lostInterval: u32): u8 {
    if expectedInterval == 0 || lostInterval == 0 then 0
    else (Wrap32(lostInterval * 256) / expectedInterval) % 0x100
  }

  /** The figures of one report block, and the record with the interval counters moved on. */
  function Report(s: Source): (Source, LossReport) {
    var expected := ExpectedCount(s);
    var expectedInterval := Wrap32(expected - s.expectedPrior);
    var receivedInterval := Wrap32(s.received - s.receivedPrior);
    var lostInterval := Wrap32(expectedInterval - receivedInterval);
    (s.(expectedPrior := expected, receivedPrior := s.received),
     LossReport(Wrap32(s.cycles + s.maxSeq), expected, MaskLost(Signed32(Wrap32(expected - s.received))),
                expectedInterval, receivedInterval, lostInterval, Fraction(expectedInterval, lostInterval)))
  }

  lemma WrapAdd(a: int, b: int, c: int)
    ensures Wrap32(Wrap32(a) + b) == Wrap32(a + b)
    ensures Wrap32(a - Wrap32(b)) == Wrap32(a - b)
    ensures Wrap32(b) == Wrap32(c) ==> Wrap32(a + b) == Wrap32(a + c)
  {
    var qa, qb := a / 0x1_0000_0000, b / 0x1_0000_0000;
    assert a == qa * 0x1_0000_0000 + Wrap32(a) && b == qb * 0x1_0000_0000 + Wrap32(b);
    WrapTurns(Wrap32(a) + b, qa);
    WrapTurns(a - Wrap32(b), -qb);
    if Wrap32(b) == Wrap32(c) {
      WrapShift(b, c, a);
    }
  }

  lemma PriorsStay(s: Source, seqno: u16)
    requires !Reinitialises(s, seqno)
    ensures var r := UpdateSeq(s, seqno).0;
            r.expectedPrior == s.expectedPrior && r.receivedPrior == s.receivedPrior
  {
  }

  lemma WrapPart(a: int, b: int, sum: u32)
    requires Wrap32(a + b) == sum
    ensures Wrap32(a) == sum <==> Wrap32(b) == 0
  {
    hide Wrap32;
    if Wrap32(b) == 0 {
      WrapTwice(0);
      assert Wrap32(0) == 0 by { SmallIsItself(0); }
      WrapShift(b, 0, a);
    }
    if Wrap32(a) == sum {
      WrapShift(a + b, a, -a);
      assert Wrap32(0) == 0 by { SmallIsItself(0); }
    }
  }

  lemma WrapTwice(n: int)
    ensures Wrap32(Wrap32(n)) == Wrap32(n)
  {
  }

  lemma WrapNegated(n: int, m: int)
    requires Wrap32(n) == Wrap32(m)
    ensures Wrap32(-n) == Wrap32(-m)
  {
    WrapShift(n, m, -n - m);
  }

  lemma Telescope(a: int, a': int, b: int, b': int)
    requires Wrap32(a) == Wrap32(a') && Wrap32(b) == Wrap32(b')
    ensures Wrap32(a + b) == Wrap32(a' + b')
  {
    WrapShift(a, a', b);
    WrapShift(b, b', a');
  }

  lemma WordIsItself(n: u32)
    ensures Wrap32(n) == n
  {
  }

  /** The fraction lost as section A.3 of RFC 3550 defines it, on signed numbers. */
  function RfcFraction(expected: nat, received: nat): nat {
    if expected == 0 || expected <= received then 0 else ((expected - received) * 256) / expected
  }

  /** With no duplicates in the interval and less than 2^24 packets lost, the reported fraction
      is the defined one exactly when the interval did not lose everything it expected. */
  lemma FractionExact(expected: u32, received: u32)
    requires received <= expected && expected - received < 0x100_0000
    ensures Fraction(expected, Wrap32(expected - received)) == RfcFraction(expected, received)
            <==> expected == 0 || 0 < received
  {
    var lost := expected - received;
    if lost != 0 {
      SmallIsItself(lost * 256);
      if received == 0 {
        assert lost * 256 == 256 * expected;
        DivExact(expected);
      } else {
        DivBelow(lost * 256, expected);
        assert (lost * 256) / expected % 256 == (lost * 256) / expected;
      }
    }
    WordIsItself(lost);
  }

  lemma DivExact(d: nat)
    requires 0 < d
    ensures (256 * d) / d == 256
  {
  }

  lemma DivBelow(n: nat, d: nat)
    requires 0 < d && n < 256 * d
    ensures 0 <= n / d < 256
  {
    var q := n / d;
    assert n == q * d + n % d;
    assert 256 <= q ==> 256 * d <= q * d;
  }

  /** With d packets more than expected the unsigned interval loss wraps around: the fraction is
      -256 d modulo 2^32, divided by the expected packets and cut to eight bits.  The definition gives 0,
      so the field is right if and only if that comes out as 0. */
  lemma FractionForDuplicates(expected: u32, d: nat)
    requires 0 < expected
    ensures var field := Fraction(expected, Wrap32(expected - (expected + d)));
            && field == (Wrap32(-256 * d) / expected) % 0x100
            && (field == RfcFraction(expected, expected + d) <==> (Wrap32(-256 * d) / expected) % 0x100 == 0)
    ensures 0 < 256 * d <= 0x1_0000_0000 ==> Wrap32(-256 * d) == 0x1_0000_0000 - 256 * d
  {
    var lost := Wrap32(0 - d);
    assert expected - (expected + d) == 0 - d;
    Times256(0 - d);
    if lost == 0 {
      SmallIsItself(0);
    }
    if 0 < 256 * d <= 0x1_0000_0000 {
      WrapTurns(-256 * d, 1);
      SmallIsItself(0x1_0000_0000 - 256 * d);
    }
    hide Wrap32;
  }

  lemma Times256(n: int)
    ensures Wrap32(Wrap32(n) * 256) == Wrap32(n * 256)
  {
    var q := n / 0x1_0000_0000;
    assert n == q * 0x1_0000_0000 + Wrap32(n);
    assert n * 256 == Wrap32(n) * 256 + (q * 256) * 0x1_0000_0000;
    WrapTurns(Wrap32(n) * 256, q * 256);
  }

  /** One duplicate among ten expected packets is reported as half of them lost. */
  lemma FractionWrongForDuplicates()
    ensures Fraction(10, Wrap32(10 - 11)) == 128 && RfcFraction(10, 11) == 0
  {
    FractionForDuplicates(10, 1);
  }

  /** The cumulative loss as the 24-bit two's complement number section 6.4.1 of RFC 3550
      asks for, clamped to what fits. */
  function RfcLost(lost: int): u32 {
    if 0x7F_FFFF < lost then 0x7F_FFFF
    else if lost < -0x80_0000 then 0x80_0000
    else lost % 0x100_0000
  }

  /** Exactly when the masked field carries the defined value: for no loss of 2^23 packets or
      more except multiples that mask to the maximum, and for no negative loss except where
      bit 23 happens to stand for the minimum. */
  lemma LostExact(lost: int)
    requires -0x8000_0000 <= lost < 0x8000_0000
    ensures MaskLost(lost) == RfcLost(lost) <==>
            if 0 <= lost then lost < 0x80_0000 || lost % 0x80_0000 == 0x7F_FFFF
            else lost <= -0x80_0000 && (lost / 0x80_0000) % 2 == 1
  {
    if -0x80_0000 <= lost < 0 {
      assert lost / 0x80_0000 == -1;
      assert lost % 0x100_0000 == lost + 0x100_0000;
    }
  }

  /** The figures of a report, from the record: the highest number with its cycles, all losses so far, and the
      losses since the last report, each right exactly under the conditions of LostExact and FractionExact;
      and the counts that the next interval starts from. */
  lemma ReportExact(s: Source)
    ensures var (t, r) := Report(s);
            var expected := Wrap32(s.cycles + s.maxSeq - s.baseSeq + 1);
            var lost := Signed32(Wrap32(expected - s.received));
            var due, got := Wrap32(expected - s.expectedPrior), Wrap32(s.received - s.receivedPrior);
            && r.extendedMax == Wrap32(s.cycles + s.maxSeq)
            && r.lost == (if 0 <= lost then lost % 0x80_0000 else if lost / 0x80_0000 % 2 == 1 then 0x80_0000 else 0)
            && (0 <= lost < 0x80_0000 ==> r.lost == RfcLost(lost))
            && (got <= due && due - got < 0x100_0000 ==>
                  (r.fraction == RfcFraction(due, got) <==> due == 0 || 0 < got))
            && t == s.(expectedPrior := expected, receivedPrior := s.received)
  {
    hide Wrap32, Signed32, Fraction, RfcFraction, MaskLost, RfcLost;
    var expected := Wrap32(s.cycles + s.maxSeq - s.baseSeq + 1);
    MaskIs(Signed32(Wrap32(expected - s.received)));
    var due, got := Wrap32(expected - s.expectedPrior), Wrap32(s.received - s.receivedPrior);
    if got <= due && due - got < 0x100_0000 {
      FractionExact(due, got);
    }
  }

  lemma MaskIs(lost: int)
    requires -0x8000_0000 <= lost < 0x8000_0000
    ensures MaskLost(lost) == if 0 <= lost then lost % 0x80_0000 else if lost / 0x80_0000 % 2 == 1 then 0x80_0000 else 0
    ensures 0 <= lost < 0x80_0000 ==> MaskLost(lost) == RfcLost(lost)
  {
  }

  // ---------------------------------------------------------------- jitter

  function Abs(n: int): nat { if n < 0 then -n else n }

  /** The distance of two transit times, read as signed 32-bit words. */
  function TransitChange(s: Source, rtpTs: u32, arrival: u32): int {
    Signed32(Wrap32(Wrap32(arrival - rtpTs) - s.transit))
  }

  /** The absolute value of a signed 32-bit word. */
  type Change = d: nat | d <= 0x8000_0000

  /** The update is computed in floating point, exactly, and then truncated to a word. */
  function NextJitter(jitter: u32, d: Change): u32 {
    (jitter as real + (1.0 / 16.0) * (d as real - jitter as real)).Floor
  }

  function ComputeJitter(s: Source, rtpTs: u32, arrival: u32): Source {
    s.(transit := Wrap32(arrival - rtpTs), jitter := NextJitter(s.jitter, Abs(TransitChange(s, rtpTs, arrival))))
  }

  /** Truncating the floating-point update is dividing (15 j + d) by 16. */
  lemma JitterIsInteger(jitter: u32, d: Change)
    ensures NextJitter(jitter, d) == (15 * jitter + d) / 16
  {
    var q, r := (15 * jitter + d) / 16, (15 * jitter + d) % 16;
    assert 15 * jitter + d == 16 * q + r;
    assert jitter as real + (1.0 / 16.0) * (d as real - jitter as real) == q as real + (r as real) / 16.0;
  }

  /** What the arrival of a packet does to a record: the transit time is arrival less timestamp, and a
      sixteenth of the absolute value of its change, read as a signed word, enters the jitter. */
  lemma ArrivalNoted(s: Source, ts: u32, arrival: u32)
    ensures var transit := (arrival - ts) % 0x1_0000_0000;
            var up := (transit - s.transit) % 0x1_0000_0000;
            var change := if up < 0x8000_0000 then up else 0x1_0000_0000 - up;
            ComputeJitter(s, ts, arrival) == s.(transit := transit, jitter := (15 * s.jitter + change) / 16)
  {
    JitterIsInteger(s.jitter, Abs(TransitChange(s, ts, arrival)));
    hide NextJitter;
  }

  function JitterRun(jitter: u32, changes: seq<Change>): u32
    decreases |changes|
  {
    if changes == [] then jitter else JitterRun(NextJitter(jitter, changes[0]), changes[1..])
  }

  /** The estimate never exceeds the largest transit change seen, or where it started. */
  lemma {:induction false} JitterBounded(jitter: u32, changes: seq<Change>, bound: nat)
    requires forall i | 0 <= i < |changes| :: changes[i] <= bound
    requires jitter <= bound
    ensures JitterRun(jitter, changes) <= bound
    decreases |changes|
  {
    if changes != [] {
      JitterIsInteger(jitter, changes[0]);
      JitterBounded(NextJitter(jitter, changes[0]), changes[1..], bound);
    }
  }

  /** `n` packets in a row with the same transit change. */
  function Steady(jitter: u32, c: Change, n: nat): u32
    decreases n
  {
    if n == 0 then jitter else Steady(NextJitter(jitter, c), c, n - 1)
  }

  predicate InBand(jitter: u32, c: nat) {
    c <= jitter + 15 && jitter <= c
  }

  /** Inside the band of 15 below the steady change the estimate stands still; outside it, it
      moves toward the band by at least one and does not overshoot it. */
  lemma JitterStep(jitter: u32, c: Change)
    ensures var next := NextJitter(jitter, c);
            if InBand(jitter, c) then next == jitter
            else if jitter < c then jitter < next <= c
            else c <= next < jitter
  {
    JitterIsInteger(jitter, c);
  }

  /** Under a steady transit change the estimate reaches the band and stays there for good. */
  lemma {:induction false} JitterSettles(jitter: u32, c: Change) returns (n: nat)
    ensures n <= Abs(jitter - c)
    ensures forall k: nat | n <= k :: InBand(Steady(jitter, c, k), c)
    decreases Abs(jitter - c)
  {
    JitterStep(jitter, c);
    if InBand(jitter, c) {
      n := 0;
      forall k: nat ensures InBand(Steady(jitter, c, k), c) {
        StaysInBand(jitter, c, k);
      }
    } else {
      var m := JitterSettles(NextJitter(jitter, c), c);
      n := m + 1;
      forall k: nat | n <= k ensures InBand(Steady(jitter, c, k), c) {
        assert InBand(Steady(NextJitter(jitter, c), c, k - 1), c);
      }
    }
  }

  lemma {:induction false} StaysInBand(jitter: u32, c: Change, k: nat)
    requires InBand(jitter, c)
    ensures Steady(jitter, c, k) == jitter
    decreases k
  {
    if k != 0 {
      JitterStep(jitter, c);
      StaysInBand(NextJitter(jitter, c), c, k - 1);
    }
  }

  // ---------------------------------------------------------------- in place

  /** The record as the program keeps it, updated field by field. */
  class ReceptionState {
    var maxSeq: u16
    var cycles: u32
    var baseSeq: u32
    var badSeq: u32
    var probation: u32
    var received: u32
    var expectedPrior: u32
    var receivedPrior: u32
    var transit: u32
    var jitter: u32

    function Value(): Source
      reads this
    {
      Source(maxSeq, cycles, baseSeq, badSeq, probation, received, expectedPrior, receivedPrior, transit, jitter)
    }

    constructor ()
      ensures Value() == BLANK
    {
      maxSeq, cycles, baseSeq, badSeq, probation := 0, 0, 0, 0, 0;
      received, expectedPrior, receivedPrior, transit, jitter := 0, 0, 0, 0, 0;
    }

    method Init(seqno: u16, first: bool)
      modifies this
      ensures Value() == InitSeq(old(Value()), seqno, first)
    {
      baseSeq := seqno;
      maxSeq := seqno;
      badSeq := 0x1_0000 + 1;
      cycles := 0;
      received := 0;
      receivedPrior := 0;
      expectedPrior := 0;
      if first {
        maxSeq := Wrap16(seqno - 1);
        probation := MIN_SEQUENTIAL;
      }
    }

    method Update(seqno: u16) returns (ok: bool)
      modifies this
      ensures (Value(), ok) == UpdateSeq(old(Value()), seqno)
    {
      var udelta := Wrap16(seqno - maxSeq);
      if probation != 0 {
        if seqno == maxSeq + 1 {
          probation := probation - 1;
          maxSeq := seqno;
          if probation == 0 {
            Init(seqno, false);
            received := Wrap32(received + 1);
            return true;
          }
        } else {
          probation := MIN_SEQUENTIAL - 1;
          maxSeq := seqno;
        }
        return false;
      } else if udelta < MAX_DROPOUT {
        if seqno < maxSeq {
          cycles := Wrap32(cycles + 0x1_0000);
        }
        maxSeq := seqno;
      } else if udelta <= 0x1_0000 - MAX_MISORDER {
        if seqno == badSeq {
          Init(seqno, true);
        } else {
          badSeq := Wrap16(seqno + 1);
          return false;
        }
      }
      received := Wrap32(received + 1);
      return true;
    }

    method MakeReport() returns (report: LossReport)
      modifies this
      ensures (Value(), report) == Report(old(Value()))
    {
      hide Wrap32, MaskLost, Fraction, Signed32;
      var extendedMax := Wrap32(cycles + maxSeq);
      WrapTwice(cycles + maxSeq);
      WrapAdd(1 - baseSeq, extendedMax, cycles + maxSeq);
      var expected := Wrap32(extendedMax - baseSeq + 1);
      var lost := MaskLost(Signed32(Wrap32(expected - received)));
      var expectedInterval := Wrap32(expected - expectedPrior);
      expectedPrior := expected;
      var receivedInterval := Wrap32(received - receivedPrior);
      receivedPrior := received;
      var lostInterval := Wrap32(expectedInterval as int - receivedInterval);
      var fraction := Fraction(expectedInterval, lostInterval);
      report := LossReport(extendedMax, expected, lost, expectedInterval, receivedInterval, lostInterval, fraction);
    }

    method UpdateJitter(rtpTs: u32, arrival: u32)
      modifies this
      ensures Value() == ComputeJitter(old(Value()), rtpTs, arrival)
    {
      var now := Wrap32(arrival - rtpTs);
      var d := Signed32(Wrap32(now - transit));
      transit := now;
      if d < 0 {
        d := -d;
      }
      jitter := NextJitter(jitter, d);
    }
  }
}
