/**
 The RTCP interval in the terms of section 6.3.1 of RFC 3550: from the control variables and plain
 numbers alone, without the steps in which the program computes it.
 */
module SessionInterval {
  import opened Session

  /** What the bandwidth allows.  More than a quarter of the members send: all share the whole bandwidth.
      Otherwise the senders share a quarter of it and the others the rest. */
  function Allowed(c: Control): real {
    if c.members < 4 * c.senders then c.avgSize * c.members as real / c.bw
    else if c.weSent then c.avgSize * c.senders as real * 4.0 / c.bw
    else c.avgSize * (c.members as int - c.senders) as real * 4.0 / (3.0 * c.bw)
  }

  /** How many share. */
  function Sharers(c: Control): int {
    if c.members < 4 * c.senders then c.members else if c.weSent then c.senders else c.members as int - c.senders
  }

  /** At least 5 seconds, and at least 2.5 before the first report. */
  function Larger(c: Control): real {
    var least := if c.initial then 2.5 else 5.0;
    if Allowed(c) < least then least else Allowed(c)
  }

  /** Half to one and a half times that, and less because reconsideration makes it longer. */
  function Drawn(c: Control, draw: Draw): real {
    Larger(c) * (draw + 0.5) / 1.21828
  }

  /** What the program computes step by step. */
  lemma IntervalIs(c: Control, draw: Draw)
    ensures Interval(c, draw) == Drawn(c, draw)
  {
    hide Computed, Allowed;
    ComputedIsAllowed(c);
  }

  lemma ComputedIsAllowed(c: Control)
    ensures Computed(c) == Allowed(c) && EffectiveMembers(c) == Sharers(c)
  {
    assert SendersShare(c) <==> 4 * c.senders <= c.members;
    hide SendersShare;
    if c.members < 4 * c.senders {
    } else if c.weSent {
      SameQuotient(c.avgSize * c.senders as real, c.bw, 0.25, 4.0, 1.0);
    } else {
      SameQuotient(c.avgSize * (c.members as int - c.senders) as real, c.bw, 0.75, 4.0, 3.0);
    }
  }

  lemma SameQuotient(x: real, bw: Bandwidth, part: real, up: real, down: real)
    requires 0.0 < part && 0.0 < down && part * up == down
    ensures 0.0 < bw * part && 0.0 < down * bw && x / (bw * part) == x * up / (down * bw)
  {
    Positive(bw, part);
    Positive(down, bw);
    var q := x / (bw * part);
    Regroup(q, bw, part, up, down);
    Quotient(q, x * up, down * bw);
  }

  lemma Positive(a: real, b: real)
    requires 0.0 < a && 0.0 < b
    ensures 0.0 < a * b
  {
  }

  lemma Regroup(q: real, bw: real, part: real, up: real, down: real)
    requires part * up == down
    ensures q * (bw * part) * up == q * (down * bw)
  {
    assert q * (bw * part) * up == q * bw * (part * up);
  }

  lemma Quotient(q: real, a: real, b: real)
    requires b != 0.0 && a == q * b
    ensures a / b == q
  {
  }

  lemma Scale(a: real, b: real, f: real, g: real)
    requires a <= b && 0.0 <= b && f <= g && 0.0 < f
    ensures a * f <= b * g
  {
    assert a * f <= b * f;
    assert b * f <= b * g;
  }

  /** The randomised interval stays above half of the minimum and half of what the bandwidth allows. */
  lemma IntervalFloor(c: Control, draw: Draw)
    requires !c.initial
    ensures 2.5 / 1.21828 <= Interval(c, draw)
    ensures 0.5 * Allowed(c) / 1.21828 <= Interval(c, draw)
  {
    hide Interval, Allowed;
    IntervalIs(c, draw);
    Scale(5.0, Larger(c), 0.5, draw + 0.5);
    Scale(Allowed(c), Larger(c), 0.5, draw + 0.5);
    Divide(2.5, Larger(c) * (draw + 0.5));
    Divide(0.5 * Allowed(c), Larger(c) * (draw + 0.5));
  }

  /** The randomised interval lies between half and one and a half times the larger of the minimum and
      what the bandwidth allows, compensated. */
  lemma IntervalWithin(c: Control, draw: Draw)
    ensures Larger(c) * 0.5 / 1.21828 <= Interval(c, draw) < Larger(c) * 1.5 / 1.21828
    ensures 0.0 < Interval(c, draw)
  {
    hide Interval, Allowed;
    IntervalIs(c, draw);
    LargerPositive(c);
    hide Larger;
    Around(Larger(c), draw, Interval(c, draw));
  }

  lemma LargerPositive(c: Control)
    ensures 2.5 <= Larger(c)
  {
    hide Allowed;
  }

  lemma Around(x: real, draw: Draw, t: real)
    requires 2.5 <= x && t == x * (draw + 0.5) / 1.21828
    ensures x * 0.5 / 1.21828 <= t < x * 1.5 / 1.21828 && 0.0 < t
  {
    var y := x * (draw + 0.5);
    assert x * 0.5 <= y < x * 1.5;
    Divide(x * 0.5, y);
    Divide(y, x * 1.5);
    Divide(0.0, y);
  }

  lemma Divide(a: real, b: real)
    ensures a <= b ==> a / 1.21828 <= b / 1.21828
    ensures a < b ==> a / 1.21828 < b / 1.21828
  {
  }
}
