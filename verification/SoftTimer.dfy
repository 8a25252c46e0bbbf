/**
 The soft timer: eight buckets of timer elements, driven one tick at a time.

 `Flat` is the reference: one list of armed timers in arming order, each with the
 unbounded tick at which it is due.  `Wheel` is the implementation: a 32-bit tick
 counter that wraps around, one list per bucket, and the list of timers collected
 for the current tick.  Every method of `Wheel` is tied to the `Flat` operation it
 implements, so clients reason about `Flat` alone.
 */
module SoftTimer {
  import opened Words

  const NUM_BUCKETS: nat := 8  // moduli are written out as literals, to keep them linear

  /** The timer tick and the expiry tick of an element are unsigned 32-bit words. */
  const WRAP: nat := 0x1_0000_0000

  /** The place of a timer that has been collected for the current tick. */
  const TIMEOUT_LIST: nat := 8

  datatype Armed<E> = Armed(elem: E, deadline: nat)

  /** What has happened to timers so far, oldest first. */
  datatype Note<E> =
    | Started(elem: E, tick: nat)
    | Stopped(elem: E, tick: nat)
    | Fired(elem: E, tick: nat)

  datatype Flat<E> = Flat(rate: int, now: nat, armed: seq<Armed<E>>, log: seq<Note<E>>)

  /** A call a timer callback may make. */
  datatype Op<E> = OpAdd(elem: E, millis: int) | OpDel(elem: E)

  // ---------------------------------------------------------------- delays

  /** Division that truncates toward zero. */
  function TruncDiv(a: int, b: int): int
    requires 0 < b
  {
    if 0 <= a then a / b else -((-a) / b)
  }

  function TicksFromMillis(rate: int, millis: int): (ticks: nat)
    requires 0 < rate
    ensures ticks < WRAP
  {
    var quotient := TruncDiv(millis, rate);
    (if millis - quotient * rate != 0 then quotient + 1 else quotient) % 0x1_0000_0000
  }

  /** The number of ticks after which a timer fires: a delay of zero ticks misses the
      current tick and comes round again only after the counter has wrapped. */
  function Delay(rate: int, millis: int): (d: nat)
    requires 0 < rate
    ensures 1 <= d <= WRAP
  {
    var ticks := TicksFromMillis(rate, millis);
    if ticks == 0 then WRAP else ticks
  }

  /** For every positive delay the timer waits for the least number of whole ticks that
      covers it. */
  lemma DelayRoundsUp(rate: int, millis: int)
    requires 0 < rate && 1 <= millis < 0x8000_0000
    ensures (Delay(rate, millis) - 1) * rate < millis <= Delay(rate, millis) * rate
  {
    var q, r := millis / rate, millis % rate;
    QuotientBound(rate, millis, q, r);
    var up := if r != 0 then q + 1 else q;
    assert up * rate == q * rate + if r != 0 then rate else 0;
    assert (up - 1) * rate == up * rate - rate;
    assert 1 <= up < WRAP;
    assert TicksFromMillis(rate, millis) == up;
  }

  lemma QuotientBound(rate: int, millis: int, q: int, r: int)
    requires 0 < rate && 1 <= millis && millis == q * rate + r && 0 <= r < rate
    ensures 0 <= q <= millis && (r == 0 ==> 1 <= q)
  {
    assert q <= -1 ==> q * rate <= -rate;
    assert 0 <= q ==> q <= q * rate;
  }

  // ---------------------------------------------------------------- the flat reference

  function Names<E(!new)>(armed: seq<Armed<E>>): set<E> {
    set x | x in armed :: x.elem
  }

  ghost predicate Distinct<E(!new)>(armed: seq<Armed<E>>) {
    forall i, j | 0 <= i < j < |armed| :: armed[i].elem != armed[j].elem
  }

  /** Armed timers are distinct and due now or within one turn of the counter. */
  ghost predicate WellFormed<E(!new)>(f: Flat<E>) {
    && 0 < f.rate
    && Distinct(f.armed)
    && forall x | x in f.armed :: f.now <= x.deadline <= f.now + WRAP
  }

  /** Between ticks nothing is due any more. */
  ghost predicate Settled<E(!new)>(f: Flat<E>) {
    forall x | x in f.armed :: f.now < x.deadline
  }

  function DeadlineOf<E(==,!new)>(armed: seq<Armed<E>>, e: E): (d: Option<nat>)
    ensures d.Some? <==> e in Names(armed)
    ensures d.Some? ==> Armed(e, d.value) in armed
  {
    if armed == [] then None
    else if armed[0].elem == e then Some(armed[0].deadline)
    else
      assert armed == [armed[0]] + armed[1..];
      DeadlineOf(armed[1..], e)
  }

  function Without<E(==,!new)>(armed: seq<Armed<E>>, e: E): (r: seq<Armed<E>>)
    ensures forall x :: x in r <==> x in armed && x.elem != e
    ensures |r| <= |armed|
  {
    if armed == [] then []
    else
      assert armed == [armed[0]] + armed[1..];
      (if armed[0].elem == e then [] else [armed[0]]) + Without(armed[1..], e)
  }

  function Add<E(==,!new)>(f: Flat<E>, e: E, millis: int): Flat<E>
    requires 0 < f.rate
  {
    if e in Names(f.armed) then f
    else
      var deadline := f.now + Delay(f.rate, millis);
      f.(armed := f.armed + [Armed(e, deadline)], log := f.log + [Started(e, deadline)])
  }

  function Del<E(==,!new)>(f: Flat<E>, e: E): Flat<E> {
    if e !in Names(f.armed) then f
    else f.(armed := Without(f.armed, e), log := f.log + [Stopped(e, f.now)])
  }

  function Apply<E(==,!new)>(f: Flat<E>, op: Op<E>): Flat<E>
    requires 0 < f.rate
  {
    match op
    case OpAdd(e, millis) => Add(f, e, millis)
    case OpDel(e) => Del(f, e)
  }

  function ApplyAll<E(==,!new)>(f: Flat<E>, ops: seq<Op<E>>): (r: Flat<E>)
    requires 0 < f.rate
    ensures r.rate == f.rate && r.now == f.now
    decreases |ops|
  {
    if ops == [] then f else ApplyAll(Apply(f, ops[0]), ops[1..])
  }

  function Advance<E(!new)>(f: Flat<E>): Flat<E> {
    f.(now := f.now + 1)
  }

  /** Where the wheel keeps a timer. */
  function Place<E(!new)>(x: Armed<E>, now: nat): nat {
    if x.deadline == now then TIMEOUT_LIST else x.deadline % 8
  }

  /** The timers kept in one place, in arming order. */
  function Listed<E(!new)>(armed: seq<Armed<E>>, now: nat, place: nat): (r: seq<E>)
    ensures |r| <= |armed|
  {
    if armed == [] then []
    else
      (if Place(armed[0], now) == place then [armed[0].elem] else []) + Listed(armed[1..], now, place)
  }

  function Due<E(!new)>(f: Flat<E>): seq<E> {
    Listed(f.armed, f.now, TIMEOUT_LIST)
  }

  /** Takes the first timer that is due. */
  function Fire<E(==,!new)>(f: Flat<E>): Flat<E>
    requires Due(f) != []
  {
    var e := Due(f)[0];
    f.(armed := Without(f.armed, e), log := f.log + [Fired(e, f.now)])
  }

  /** One whole tick: the k-th callback that runs makes the calls `script[k]`. */
  function Tick<E(==,!new)>(f: Flat<E>, script: seq<seq<Op<E>>>): Flat<E>
    requires WellFormed(f) && Settled(f)
  {
    AdvanceKeeps(f);
    Dispatch(Advance(f), script)
  }

  function Dispatch<E(==,!new)>(f: Flat<E>, script: seq<seq<Op<E>>>): Flat<E>
    requires WellFormed(f)
    decreases |Due(f)|
  {
    if Due(f) == [] then f
    else
      var ops := if script == [] then [] else script[0];
      FireKeeps(f);
      ApplyAllKeeps(Fire(f), ops);
      Dispatch(ApplyAll(Fire(f), ops), if script == [] then [] else script[1..])
  }

  // ---------------------------------------------------------------- lemmas on lists

  lemma {:induction false} ListedAppend<E(!new)>(a: seq<Armed<E>>, b: seq<Armed<E>>, now: nat, place: nat)
    ensures Listed(a + b, now, place) == Listed(a, now, place) + Listed(b, now, place)
  {
    hide Place;
    if a == [] {
      assert a + b == b;
    } else {
      ListedAppend(a[1..], b, now, place);
      var head := if Place(a[0], now) == place then [a[0].elem] else [];
      assert (a + b)[0] == a[0] && (a + b)[1..] == a[1..] + b;
      Assoc(head, Listed(a[1..], now, place), Listed(b, now, place));
    }
  }

  lemma Assoc<E(!new)>(a: seq<E>, b: seq<E>, c: seq<E>)
    ensures (a + b) + c == a + (b + c)
  {
  }

  lemma {:induction false} ListedHas<E(!new)>(armed: seq<Armed<E>>, now: nat, place: nat, x: Armed<E>)
    requires x in armed && Place(x, now) == place
    ensures x.elem in Listed(armed, now, place)
  {
    hide Place;
    if armed[0] != x {
      ListedHas(armed[1..], now, place, x);
    }
  }

  lemma {:induction false} ListedFrom<E(!new)>(armed: seq<Armed<E>>, now: nat, place: nat, e: E) returns (x: Armed<E>)
    requires e in Listed(armed, now, place)
    ensures x in armed && x.elem == e && Place(x, now) == place
  {
    hide Place;
    if Place(armed[0], now) == place && armed[0].elem == e {
      x := armed[0];
    } else {
      x := ListedFrom(armed[1..], now, place, e);
    }
  }

  /** Drops every occurrence of one element. */
  function Remove<E(==,!new)>(s: seq<E>, e: E): (r: seq<E>)
    ensures forall x :: x in r <==> x in s && x != e
  {
    if s == [] then []
    else
      assert s == [s[0]] + s[1..];
      (if s[0] == e then [] else [s[0]]) + Remove(s[1..], e)
  }

  lemma {:induction false} RemoveAppend<E(!new)>(s: seq<E>, t: seq<E>, e: E)
    ensures Remove(s + t, e) == Remove(s, e) + Remove(t, e)
  {
    if s == [] {
      assert s + t == t;
    } else {
      RemoveAppend(s[1..], t, e);
      assert (s + t)[0] == s[0] && (s + t)[1..] == s[1..] + t;
      Assoc(if s[0] == e then [] else [s[0]], Remove(s[1..], e), Remove(t, e));
    }
  }

  lemma {:induction false} RemoveAbsent<E(!new)>(s: seq<E>, e: E)
    requires e !in s
    ensures Remove(s, e) == s
  {
    if s != [] {
      RemoveAbsent(s[1..], e);
      assert s == [s[0]] + s[1..];
    }
  }

  lemma {:induction false} ListedWithout<E(!new)>(a: seq<Armed<E>>, e: E, now: nat, place: nat)
    ensures Listed(Without(a, e), now, place) == Remove(Listed(a, now, place), e)
  {
    hide Place;
    if a != [] {
      var head := if Place(a[0], now) == place then [a[0].elem] else [];
      var kept := if a[0].elem == e then [] else [a[0]];
      ListedWithout(a[1..], e, now, place);
      ListedAppend(kept, Without(a[1..], e), now, place);
      RemoveAppend(head, Listed(a[1..], now, place), e);
    }
  }

  lemma {:induction false} WithoutDistinct<E(!new)>(a: seq<Armed<E>>, e: E)
    requires Distinct(a)
    ensures Distinct(Without(a, e))
  {
    if a != [] {
      assert Distinct(a[1..]);
      WithoutDistinct(a[1..], e);
      assert forall x | x in Without(a[1..], e) :: x in a[1..];
    }
  }

  lemma {:induction false} WithoutDeadline<E(!new)>(a: seq<Armed<E>>, e: E, other: E)
    ensures DeadlineOf(Without(a, e), other) == if other == e then None else DeadlineOf(a, other)
  {
    if a != [] {
      var rest := Without(a[1..], e);
      WithoutDeadline(a[1..], e, other);
      if a[0].elem == e {
        assert Without(a, e) == rest;
      } else {
        assert Without(a, e)[0] == a[0] && Without(a, e)[1..] == rest;
      }
    }
  }

  lemma {:induction false} AppendDeadline<E(!new)>(a: seq<Armed<E>>, x: Armed<E>, other: E)
    requires x.elem !in Names(a)
    ensures DeadlineOf(a + [x], other) == if other == x.elem then Some(x.deadline) else DeadlineOf(a, other)
  {
    if a != [] {
      assert (a + [x])[1..] == a[1..] + [x];
      assert Names(a[1..]) <= Names(a);
      AppendDeadline(a[1..], x, other);
    }
  }

  /** In a list of distinct timers an armed timer has one deadline. */
  lemma {:induction false} DistinctDeadline<E(!new)>(a: seq<Armed<E>>, x: Armed<E>)
    requires Distinct(a) && x in a
    ensures DeadlineOf(a, x.elem) == Some(x.deadline)
  {
    if a[0] != x {
      assert x in a[1..];
      DistinctDeadline(a[1..], x);
    }
  }

  // ---------------------------------------------------------------- what every operation keeps

  lemma AddKeeps<E(!new)>(f: Flat<E>, e: E, millis: int)
    requires WellFormed(f)
    ensures var r := Add(f, e, millis);
            && WellFormed(r) && r.rate == f.rate && r.now == f.now && Due(r) == Due(f)
            && Names(r.armed) == Names(f.armed) + {e}
            && (Settled(f) ==> Settled(r))
  {
    var r := Add(f, e, millis);
    if e !in Names(f.armed) {
      var x := Armed(e, f.now + Delay(f.rate, millis));
      forall y | y in f.armed ensures y.elem != e {
        assert y.elem in Names(f.armed);
      }
      ListedAppend(f.armed, [x], f.now, TIMEOUT_LIST);
      assert x in r.armed;
    }
  }

  lemma DelKeeps<E(!new)>(f: Flat<E>, e: E)
    requires WellFormed(f)
    ensures var r := Del(f, e);
            && WellFormed(r) && r.rate == f.rate && r.now == f.now && Due(r) == Remove(Due(f), e)
            && Names(r.armed) == Names(f.armed) - {e}
            && (Settled(f) ==> Settled(r))
  {
    ListedWithout(f.armed, e, f.now, TIMEOUT_LIST);
    if e in Names(f.armed) {
      WithoutDistinct(f.armed, e);
    } else {
      if e in Due(f) {
        var _ := ListedFrom(f.armed, f.now, TIMEOUT_LIST, e);
      }
      RemoveAbsent(Due(f), e);
    }
  }

  lemma AdvanceKeeps<E(!new)>(f: Flat<E>)
    requires WellFormed(f) && Settled(f)
    ensures WellFormed(Advance(f))
  {
  }

  lemma {:induction false} ListedDistinct<E(!new)>(a: seq<Armed<E>>, now: nat, place: nat)
    requires Distinct(a)
    ensures forall i, j | 0 <= i < j < |Listed(a, now, place)| :: Listed(a, now, place)[i] != Listed(a, now, place)[j]
  {
    hide Place;
    if a != [] {
      ListedDistinct(a[1..], now, place);
      assert Distinct(a[1..]);
      var rest := Listed(a[1..], now, place);
      if Place(a[0], now) == place {
        forall j | 0 <= j < |rest| ensures rest[j] != a[0].elem {
          var x := ListedFrom(a[1..], now, place, rest[j]);
        }
      }
    }
  }

  lemma FireKeeps<E(!new)>(f: Flat<E>)
    requires WellFormed(f) && Due(f) != []
    ensures WellFormed(Fire(f)) && Due(Fire(f)) == Due(f)[1..]
    ensures Armed(Due(f)[0], f.now) in f.armed
    ensures Names(Fire(f).armed) == Names(f.armed) - {Due(f)[0]}
  {
    var due := Due(f);
    var e := due[0];
    var x := ListedFrom(f.armed, f.now, TIMEOUT_LIST, e);
    WithoutDistinct(f.armed, e);
    ListedWithout(f.armed, e, f.now, TIMEOUT_LIST);
    ListedDistinct(f.armed, f.now, TIMEOUT_LIST);
    NamesWithout(f.armed, e);
    hide Listed, Without, Distinct, Names;
    RemoveFirst(due);
  }

  lemma NamesWithout<E(!new)>(armed: seq<Armed<E>>, e: E)
    ensures Names(Without(armed, e)) == Names(armed) - {e}
  {
  }

  lemma RemoveFirst<E(!new)>(s: seq<E>)
    requires s != [] && forall i, j | 0 <= i < j < |s| :: s[i] != s[j]
    ensures Remove(s, s[0]) == s[1..]
  {
    assert s[0] !in s[1..];
    RemoveAbsent(s[1..], s[0]);
  }

  lemma {:induction false} RemoveLength<E(!new)>(s: seq<E>, e: E)
    ensures |Remove(s, e)| <= |s|
  {
    if s != [] {
      RemoveLength(s[1..], e);
    }
  }

  /** Callbacks can only shrink the list of timers still to be fired in this tick. */
  lemma {:induction false} ApplyAllKeeps<E(!new)>(f: Flat<E>, ops: seq<Op<E>>)
    requires WellFormed(f)
    ensures WellFormed(ApplyAll(f, ops)) && |Due(ApplyAll(f, ops))| <= |Due(f)|
    ensures Settled(f) ==> Settled(ApplyAll(f, ops))
    decreases |ops|
  {
    if ops != [] {
      match ops[0] {
        case OpAdd(e, millis) => AddKeeps(f, e, millis);
        case OpDel(e) => DelKeeps(f, e); RemoveLength(Due(f), e);
      }
      ApplyAllKeeps(Apply(f, ops[0]), ops[1..]);
    }
  }

  lemma {:induction false} DispatchSettles<E(!new)>(f: Flat<E>, script: seq<seq<Op<E>>>)
    requires WellFormed(f)
    ensures var r := Dispatch(f, script); WellFormed(r) && Settled(r) && r.rate == f.rate && r.now == f.now
    decreases |Due(f)|
  {
    if Due(f) == [] {
      forall x | x in f.armed ensures f.now < x.deadline {
        if x.deadline == f.now {
          ListedHas(f.armed, f.now, TIMEOUT_LIST, x);
        }
      }
    } else {
      var ops := if script == [] then [] else script[0];
      FireKeeps(f);
      ApplyAllKeeps(Fire(f), ops);
      DispatchSettles(ApplyAll(Fire(f), ops), if script == [] then [] else script[1..]);
    }
  }

  // ---------------------------------------------------------------- every timer fires on time, once

  /** Follows one timer through the log: the inner option is the deadline it waits for,
      the outer one is None if the log breaks the life cycle of a timer. */
  ghost function Replay<E(!new)>(log: seq<Note<E>>, e: E): Option<Option<nat>> {
    if log == [] then Some(None)
    else
      var last := log[|log| - 1];
      var before := Replay(log[..|log| - 1], e);
      if last.elem != e || before.None? then before
      else match (before.value, last)
        case (None, Started(_, deadline)) => Some(Some(deadline))
        case (Some(deadline), Stopped(_, tick)) => if tick <= deadline then Some(None) else None
        case (Some(deadline), Fired(_, tick)) => if tick == deadline then Some(None) else None
        case _ => None
  }

  /** The log explains which timers are armed, and for when. */
  ghost predicate Explained<E(!new)>(f: Flat<E>) {
    forall e :: Replay(f.log, e) == Some(DeadlineOf(f.armed, e))
  }

  lemma ReplayLast<E(!new)>(log: seq<Note<E>>, last: Note<E>, e: E)
    requires last.elem != e
    ensures Replay(log + [last], e) == Replay(log, e)
  {
    assert (log + [last])[..|log|] == log;
  }

  lemma ReplaySame<E(!new)>(log: seq<Note<E>>, last: Note<E>)
    ensures Replay(log + [last], last.elem) ==
            var before := Replay(log, last.elem);
            if before.None? then before
            else match (before.value, last)
              case (None, Started(_, deadline)) => Some(Some(deadline))
              case (Some(deadline), Stopped(_, tick)) => if tick <= deadline then Some(None) else None
              case (Some(deadline), Fired(_, tick)) => if tick == deadline then Some(None) else None
              case _ => None
  {
    assert (log + [last])[..|log|] == log;
  }

  lemma AddExplained<E(!new)>(f: Flat<E>, e: E, millis: int)
    requires WellFormed(f) && Explained(f)
    ensures Explained(Add(f, e, millis))
  {
    if e !in Names(f.armed) {
      var x := Armed(e, f.now + Delay(f.rate, millis));
      forall other ensures Replay(f.log + [Started(e, x.deadline)], other) == Some(DeadlineOf(f.armed + [x], other)) {
        AppendDeadline(f.armed, x, other);
        assert Replay(f.log, other) == Some(DeadlineOf(f.armed, other));
        if other == e {
          ReplaySame(f.log, Started(e, x.deadline));
        } else {
          ReplayLast(f.log, Started(e, x.deadline), other);
        }
      }
    }
  }

  lemma RemovalExplained<E(!new)>(f: Flat<E>, e: E, note: Note<E>)
    requires WellFormed(f) && Explained(f) && e in Names(f.armed)
    requires note == Stopped(e, f.now) || (note == Fired(e, f.now) && Armed(e, f.now) in f.armed)
    ensures Explained(f.(armed := Without(f.armed, e), log := f.log + [note]))
  {
    var r := f.(armed := Without(f.armed, e), log := f.log + [note]);
    if note.Fired? {
      DistinctDeadline(f.armed, Armed(e, f.now));
    }
    forall other ensures Replay(r.log, other) == Some(DeadlineOf(r.armed, other)) {
      WithoutDeadline(f.armed, e, other);
      assert Replay(f.log, other) == Some(DeadlineOf(f.armed, other));
      if other == e {
        ReplaySame(f.log, note);
      } else {
        ReplayLast(f.log, note, other);
      }
    }
  }

  lemma DelExplained<E(!new)>(f: Flat<E>, e: E)
    requires WellFormed(f) && Explained(f)
    ensures Explained(Del(f, e))
  {
    if e in Names(f.armed) {
      RemovalExplained(f, e, Stopped(e, f.now));
    }
  }

  lemma FireExplained<E(!new)>(f: Flat<E>)
    requires WellFormed(f) && Explained(f) && Due(f) != []
    ensures Explained(Fire(f))
  {
    FireKeeps(f);
    RemovalExplained(f, Due(f)[0], Fired(Due(f)[0], f.now));
  }

  lemma {:induction false} ApplyAllExplained<E(!new)>(f: Flat<E>, ops: seq<Op<E>>)
    requires WellFormed(f) && Explained(f)
    ensures Explained(ApplyAll(f, ops))
    decreases |ops|
  {
    if ops != [] {
      ApplyAllKeeps(f, [ops[0]]);
      assert ApplyAll(f, [ops[0]]) == Apply(f, ops[0]);
      match ops[0] {
        case OpAdd(e, millis) => AddExplained(f, e, millis);
        case OpDel(e) => DelExplained(f, e);
      }
      ApplyAllExplained(Apply(f, ops[0]), ops[1..]);
    }
  }

  lemma {:induction false} DispatchExplained<E(!new)>(f: Flat<E>, script: seq<seq<Op<E>>>)
    requires WellFormed(f) && Explained(f)
    ensures Explained(Dispatch(f, script))
    decreases |Due(f)|
  {
    if Due(f) != [] {
      var ops := if script == [] then [] else script[0];
      FireKeeps(f);
      FireExplained(f);
      ApplyAllKeeps(Fire(f), ops);
      ApplyAllExplained(Fire(f), ops);
      DispatchExplained(ApplyAll(Fire(f), ops), if script == [] then [] else script[1..]);
    }
  }

  /** What a user of the timer does: single calls and whole ticks. */
  datatype TimerUse<E> = Call(op: Op<E>) | Pass(script: seq<seq<Op<E>>>)

  ghost predicate Sound<E(!new)>(f: Flat<E>) {
    WellFormed(f) && Settled(f) && Explained(f)
  }

  lemma StepSound<E(!new)>(f: Flat<E>, event: TimerUse<E>)
    requires Sound(f)
    ensures Sound(if event.Call? then Apply(f, event.op) else Tick(f, event.script))
  {
    match event {
      case Call(op) =>
        assert ApplyAll(f, [op]) == Apply(f, op);
        ApplyAllKeeps(f, [op]);
        ApplyAllExplained(f, [op]);
      case Pass(script) =>
        AdvanceKeeps(f);
        DispatchSettles(Advance(f), script);
        assert Explained(Advance(f));
        DispatchExplained(Advance(f), script);
    }
  }

  ghost function RunTimer<E(!new)>(f: Flat<E>, events: seq<TimerUse<E>>): (r: Flat<E>)
    requires Sound(f)
    ensures Sound(r)
    decreases |events|
  {
    if events == [] then f
    else
      StepSound(f, events[0]);
      RunTimer(if events[0].Call? then Apply(f, events[0].op) else Tick(f, events[0].script), events[1..])
  }

  /** The last note about a timer says what it waits for. */
  lemma {:induction false} LastNote<E(!new)>(log: seq<Note<E>>, e: E, k: nat)
    requires k < |log| && log[k].elem == e && forall i | k < i < |log| :: log[i].elem != e
    requires Replay(log, e).Some?
    ensures Replay(log, e).value == if log[k].Started? then Some(log[k].tick) else None
  {
    if k < |log| - 1 {
      LastNote(log[..|log| - 1], e, k);
    }
  }

  lemma {:induction false} ReplayPrefix<E(!new)>(log: seq<Note<E>>, e: E, n: nat)
    requires n <= |log| && Replay(log, e).Some?
    ensures Replay(log[..n], e).Some?
  {
    if n == |log| {
      assert log[..n] == log;
    } else {
      ReplayPrefix(log[..|log| - 1], e, n);
      assert log[..|log| - 1][..n] == log[..n];
    }
  }

  lemma {:induction false} WaitsSinceStart<E(!new)>(log: seq<Note<E>>, e: E, deadline: nat) returns (j: nat)
    requires Replay(log, e) == Some(Some(deadline))
    ensures j < |log| && log[j] == Started(e, deadline)
    ensures forall i | j < i < |log| :: log[i].elem != e
  {
    if log[|log| - 1].elem == e {
      j := |log| - 1;
    } else {
      j := WaitsSinceStart(log[..|log| - 1], e, deadline);
    }
  }

  /** Never early, never late, never twice: whenever a timer fires, it fires in the very
      tick it was last armed for, and nothing happened to it in between. */
  lemma FiresOnTime<E(!new)>(f: Flat<E>, k: nat) returns (j: nat)
    requires Explained(f) && k < |f.log| && f.log[k].Fired?
    ensures j < k && f.log[j] == Started(f.log[k].elem, f.log[k].tick)
    ensures forall i | j < i < k :: f.log[i].elem != f.log[k].elem
  {
    var e := f.log[k].elem;
    ReplayPrefix(f.log, e, k + 1);
    assert f.log[..k + 1][..k] == f.log[..k];
    j := WaitsSinceStart(f.log[..k], e, f.log[k].tick);
  }

  /** Never forgotten: once the tick a timer was armed for has passed, the next thing that
      happened to it after arming is that it fired in that tick or was stopped by then. */
  lemma FiresUnlessStopped<E(!new)>(f: Flat<E>, j: nat) returns (k: nat)
    requires Sound(f) && j < |f.log| && f.log[j].Started? && f.log[j].tick <= f.now
    ensures j < k < |f.log| && f.log[k].elem == f.log[j].elem
    ensures forall i | j < i < k :: f.log[i].elem != f.log[j].elem
    ensures f.log[k] == Fired(f.log[j].elem, f.log[j].tick) || (f.log[k].Stopped? && f.log[k].tick <= f.log[j].tick)
  {
    var e, deadline := f.log[j].elem, f.log[j].tick;
    if forall i | j < i < |f.log| :: f.log[i].elem != e {
      LastNote(f.log, e, j);
      assert false;
    }
    k := j + 1;
    while f.log[k].elem != e
      invariant j < k < |f.log|
      invariant forall i | j < i < k :: f.log[i].elem != e
      invariant exists i | k <= i < |f.log| :: f.log[i].elem == e
      decreases |f.log| - k
    {
      k := k + 1;
    }
    NextNote(f.log, j, k);
  }

  /** In a log that explains a timer, an arming is followed by a firing in its tick or a stop by then. */
  lemma NextNote<E(!new)>(log: seq<Note<E>>, j: nat, k: nat)
    requires j < k < |log| && log[k].elem == log[j].elem && log[j].Started?
    requires (forall i | j < i < k :: log[i].elem != log[j].elem) && Replay(log, log[j].elem).Some?
    ensures log[k] == Fired(log[j].elem, log[j].tick) || (log[k].Stopped? && log[k].tick <= log[j].tick)
  {
    ReplayPrefix(log, log[j].elem, k);
    ReplayPrefix(log, log[j].elem, k + 1);
    LastNote(log[..k], log[j].elem, j);
    assert log[..k + 1][..k] == log[..k];
  }

  /** Entry `k` of a log is the first about the timer of entry `j` since that one. */
  ghost predicate NextAbout<E(!new)>(log: seq<Note<E>>, j: nat, k: nat) {
    && j < k < |log| && log[k].elem == log[j].elem
    && forall i | j < i < k :: log[i].elem != log[j].elem
  }

  /** Over any run of calls and ticks with arbitrary callbacks, from an empty timer on: every firing is
      the next event of its timer after an arming for that very tick; and the next event of a timer armed
      for a tick that has passed is its firing in that tick, or a stop by then. */
  lemma RunFires<E(!new)>(rate: int, events: seq<TimerUse<E>>)
    requires 0 < rate
    ensures var f: Flat<E> := Flat(rate, 0, [], []); Sound(f)
    ensures var log := RunTimer(Flat(rate, 0, [], []), events).log;
            forall k | 0 <= k < |log| && log[k].Fired? ::
              exists j: nat :: NextAbout(log, j, k) && log[j] == Started(log[k].elem, log[k].tick)
    ensures var f := RunTimer(Flat(rate, 0, [], []), events);
            forall j | 0 <= j < |f.log| && f.log[j].Started? && f.log[j].tick <= f.now ::
              exists k: nat :: NextAbout(f.log, j, k) &&
                (f.log[k] == Fired(f.log[j].elem, f.log[j].tick) || (f.log[k].Stopped? && f.log[k].tick <= f.log[j].tick))
  {
    hide Due, Replay, RunTimer;
    var none: Flat<E> := Flat(rate, 0, [], []);
    EmptySound(none);
    var f := RunTimer(none, events);
    forall k | 0 <= k < |f.log| && f.log[k].Fired?
      ensures exists j: nat :: NextAbout(f.log, j, k) && f.log[j] == Started(f.log[k].elem, f.log[k].tick)
    {
      var j := FiresOnTime(f, k);
      assert NextAbout(f.log, j, k);
    }
    forall j | 0 <= j < |f.log| && f.log[j].Started? && f.log[j].tick <= f.now
      ensures exists k: nat :: NextAbout(f.log, j, k) &&
                (f.log[k] == Fired(f.log[j].elem, f.log[j].tick) || (f.log[k].Stopped? && f.log[k].tick <= f.log[j].tick))
    {
      var k := FiresUnlessStopped(f, j);
      assert NextAbout(f.log, j, k);
    }
  }

  lemma EmptySound<E(!new)>(f: Flat<E>)
    requires 0 < f.rate && f.now == 0 && f.armed == [] && f.log == []
    ensures Sound(f)
  {
  }

  // ---------------------------------------------------------------- firing order

  ghost predicate Subsequence<E(!new)>(s: seq<E>, t: seq<E>) {
    s == [] || (t != [] && (if s[0] == t[0] then Subsequence(s[1..], t[1..]) else Subsequence(s, t[1..])))
  }

  /** The timers fired so far, oldest first. */
  ghost function FiredElems<E(!new)>(log: seq<Note<E>>): seq<E> {
    if log == [] then []
    else
      var last := log[|log| - 1];
      FiredElems(log[..|log| - 1]) + if last.Fired? then [last.elem] else []
  }

  lemma FiredSnoc<E(!new)>(log: seq<Note<E>>, note: Note<E>)
    ensures FiredElems(log + [note]) == FiredElems(log) + if note.Fired? then [note.elem] else []
  {
    assert (log + [note])[..|log|] == log;
  }

  lemma {:induction false} SubsequenceSelf<E(!new)>(s: seq<E>)
    ensures Subsequence(s, s)
  {
    if s != [] {
      SubsequenceSelf(s[1..]);
    }
  }

  lemma {:induction false} SubsequenceTail<E(!new)>(s: seq<E>, t: seq<E>)
    requires s != [] && Subsequence(s, t)
    ensures Subsequence(s[1..], t)
    decreases |t|
  {
    if s[0] == t[0] {
      if s[1..] != [] && s[1] == t[0] {
        SubsequenceTail(s[1..], t[1..]);
      }
    } else {
      SubsequenceTail(s, t[1..]);
      if s[1..] != [] && s[1] == t[0] {
        SubsequenceTail(s[1..], t[1..]);
      }
    }
  }

  lemma {:induction false} SubsequenceTrans<E(!new)>(s: seq<E>, t: seq<E>, u: seq<E>)
    requires Subsequence(s, t) && Subsequence(t, u)
    ensures Subsequence(s, u)
    decreases |u|
  {
    if s != [] {
      if t[0] != u[0] {
        SubsequenceTrans(s, t, u[1..]);
        if s[0] == u[0] {
          SubsequenceTail(s, u[1..]);
        }
      } else if s[0] == t[0] {
        SubsequenceTrans(s[1..], t[1..], u[1..]);
      } else {
        SubsequenceTrans(s, t[1..], u[1..]);
      }
    }
  }

  lemma {:induction false} RemoveSubsequence<E(!new)>(s: seq<E>, e: E)
    ensures Subsequence(Remove(s, e), s)
  {
    if s != [] {
      RemoveSubsequence(s[1..], e);
      var rest := Remove(s[1..], e);
      if s[0] == e {
        assert Remove(s, e) == rest;
        RemoveSkips(s[1..], e, s);
      } else {
        assert Remove(s, e)[0] == s[0] && Remove(s, e)[1..] == rest;
      }
    }
  }

  lemma RemoveSkips<E(!new)>(tail: seq<E>, e: E, s: seq<E>)
    requires s != [] && s[1..] == tail && Subsequence(Remove(tail, e), tail)
    ensures Subsequence(Remove(tail, e), s)
  {
    if Remove(tail, e) != [] && Remove(tail, e)[0] == s[0] {
      SubsequenceTail(Remove(tail, e), tail);
    }
  }

  lemma CallFiresNothing<E(!new)>(f: Flat<E>, op: Op<E>)
    requires WellFormed(f)
    ensures FiredElems(Apply(f, op).log) == FiredElems(f.log)
    ensures WellFormed(Apply(f, op)) && Subsequence(Due(Apply(f, op)), Due(f))
  {
    match op
    case OpAdd(e, millis) =>
      AddKeeps(f, e, millis);
      SubsequenceSelf(Due(f));
      FiredSnoc(f.log, Started(e, f.now + Delay(f.rate, millis)));
    case OpDel(e) =>
      DelKeeps(f, e);
      RemoveSubsequence(Due(f), e);
      FiredSnoc(f.log, Stopped(e, f.now));
  }

  lemma {:induction false} CallsFireNothing<E(!new)>(f: Flat<E>, ops: seq<Op<E>>)
    requires WellFormed(f)
    ensures FiredElems(ApplyAll(f, ops).log) == FiredElems(f.log)
    ensures Subsequence(Due(ApplyAll(f, ops)), Due(f))
    decreases |ops|
  {
    hide Apply, Due;
    if ops == [] {
      SubsequenceSelf(Due(f));
    } else {
      CallFiresNothing(f, ops[0]);
      var g := Apply(f, ops[0]);
      CallsFireNothing(g, ops[1..]);
      SubsequenceTrans(Due(ApplyAll(g, ops[1..])), Due(g), Due(f));
    }
  }

  lemma {:induction false} DispatchOrder<E(!new)>(f: Flat<E>, script: seq<seq<Op<E>>>) returns (fired: seq<E>)
    requires WellFormed(f)
    ensures FiredElems(Dispatch(f, script).log) == FiredElems(f.log) + fired
    ensures Subsequence(fired, Due(f))
    decreases |Due(f)|
  {
    if Due(f) == [] {
      fired := [];
    } else {
      var ops := if script == [] then [] else script[0];
      FireKeeps(f);
      ApplyAllKeeps(Fire(f), ops);
      CallsFireNothing(Fire(f), ops);
      var rest := DispatchOrder(ApplyAll(Fire(f), ops), if script == [] then [] else script[1..]);
      FiredSnoc(f.log, Fired(Due(f)[0], f.now));
      fired := [Due(f)[0]] + rest;
      OrderStep(FiredElems(f.log), rest, Due(ApplyAll(Fire(f), ops)), Due(f));
    }
  }

  lemma OrderStep<E(!new)>(before: seq<E>, rest: seq<E>, later: seq<E>, due: seq<E>)
    requires due != [] && Subsequence(rest, later) && Subsequence(later, due[1..])
    ensures Subsequence([due[0]] + rest, due)
    ensures (before + [due[0]]) + rest == before + ([due[0]] + rest)
  {
    SubsequenceTrans(rest, later, due[1..]);
    assert ([due[0]] + rest)[1..] == rest;
  }

  /** Timers with the same deadline fire in the order in which they were armed, whatever the
      callbacks in between do: the list of armed timers grows at its end only. */
  lemma FiresInArmingOrder<E(!new)>(f: Flat<E>, script: seq<seq<Op<E>>>) returns (fired: seq<E>)
    requires WellFormed(f) && Settled(f)
    ensures FiredElems(Tick(f, script).log) == FiredElems(f.log) + fired
    ensures Subsequence(fired, Listed(f.armed, f.now + 1, TIMEOUT_LIST))
  {
    AdvanceKeeps(f);
    fired := DispatchOrder(Advance(f), script);
  }

  // ---------------------------------------------------------------- the wheel

  predicate IsDue<E(==,!new)>(words: map<E, nat>, e: E, tick: nat) {
    e in words && words[e] == tick
  }

  /** The part of a bucket that is collected in this tick, judged on 32-bit words. */
  function Expired<E(==,!new)>(s: seq<E>, words: map<E, nat>, tick: nat): seq<E>
  {
    if s == [] then []
    else (if IsDue(words, s[0], tick) then [s[0]] else []) + Expired(s[1..], words, tick)
  }

  function Unexpired<E(==,!new)>(s: seq<E>, words: map<E, nat>, tick: nat): seq<E>
  {
    if s == [] then []
    else (if IsDue(words, s[0], tick) then [] else [s[0]]) + Unexpired(s[1..], words, tick)
  }

  lemma {:induction false} ExpiredSnoc<E(!new)>(s: seq<E>, e: E, words: map<E, nat>, tick: nat)
    ensures Expired(s + [e], words, tick) == Expired(s, words, tick) + (if IsDue(words, e, tick) then [e] else [])
    ensures Unexpired(s + [e], words, tick) == Unexpired(s, words, tick) + (if IsDue(words, e, tick) then [] else [e])
  {
    if s != [] {
      assert (s + [e])[1..] == s[1..] + [e];
      ExpiredSnoc(s[1..], e, words, tick);
    }
  }

  ghost predicate WordsMatch<E(!new)>(armed: seq<Armed<E>>, words: map<E, nat>) {
    forall x | x in armed :: x.elem in words && words[x.elem] == x.deadline % 0x1_0000_0000
  }

  lemma SameWord(now: nat, deadline: nat)
    requires now < deadline <= now + WRAP
    ensures deadline % 0x1_0000_0000 == (now + 1) % 0x1_0000_0000 <==> deadline == now + 1
    ensures deadline == now + 1 ==> deadline % 8 == (now + 1) % 8
  {
  }

  /** The 32-bit expiry word stored in the element selects the bucket of its deadline. */
  lemma ExpiryWord(now: nat, ticks: nat, delay: nat)
    requires ticks < WRAP && delay == if ticks == 0 then WRAP else ticks
    ensures (now % 0x1_0000_0000 + ticks) % 0x1_0000_0000 == (now + delay) % 0x1_0000_0000
    ensures (now + delay) % 0x1_0000_0000 % 8 == (now + delay) % 8
  {
    var turns, word := now / WRAP, now % 0x1_0000_0000;
    assert now == turns * WRAP + word;
    WordOf(now + delay);
    if word + ticks < WRAP {
      assert (now + delay) % 0x1_0000_0000 == word + ticks;
    } else {
      assert (now + delay) % 0x1_0000_0000 == word + ticks - WRAP;
    }
  }

  lemma WordOf(n: nat)
    ensures n % 0x1_0000_0000 % 8 == n % 8
  {
    var turns, word := n / WRAP, n % 0x1_0000_0000;
    var eighths := turns * 0x2000_0000 + word / 8;
    assert n == turns * 0x1_0000_0000 + word;
    assert n == 8 * eighths + word % 8;
  }

  /** Collecting a bucket by 32-bit comparison moves exactly the timers that are due in the
      new tick, in order, even when the counter has wrapped since they were armed. */
  lemma {:induction false} CollectIsDue<E(!new)>(armed: seq<Armed<E>>, words: map<E, nat>, now: nat)
    requires forall x | x in armed :: now < x.deadline <= now + WRAP
    requires WordsMatch(armed, words)
    ensures var bucket := Listed(armed, now, (now + 1) % 8);
            && Expired(bucket, words, (now + 1) % 0x1_0000_0000) == Listed(armed, now + 1, TIMEOUT_LIST)
            && Unexpired(bucket, words, (now + 1) % 0x1_0000_0000) == Listed(armed, now + 1, (now + 1) % 8)
  {
    if armed != [] {
      assert forall x | x in armed[1..] :: x in armed;
      CollectIsDue(armed[1..], words, now);
      var x := armed[0];
      var current := (now + 1) % 8;
      SameWord(now, x.deadline);
      var rest := Listed(armed[1..], now, current);
      if Place(x, now) == current {
        assert Listed(armed, now, current) == [x.elem] + rest;
        assert ([x.elem] + rest)[1..] == rest;
      } else {
        assert Listed(armed, now, current) == rest;
      }
    }
  }

  /** Timers in the other buckets stay where they are when the tick advances. */
  lemma {:induction false} OtherBucketsStay<E(!new)>(armed: seq<Armed<E>>, now: nat, b: nat)
    requires forall x | x in armed :: now < x.deadline
    requires b < NUM_BUCKETS && b != (now + 1) % 8
    ensures Listed(armed, now + 1, b) == Listed(armed, now, b)
  {
    if armed != [] {
      assert forall x | x in armed[1..] :: x in armed;
      OtherBucketsStay(armed[1..], now, b);
    }
  }

  ghost predicate BucketsMatch<E(!new)>(buckets: seq<seq<E>>, armed: seq<Armed<E>>, now: nat) {
    |buckets| == 8 && forall b: nat | b < 8 :: buckets[b] == Listed(armed, now, b)
  }

  lemma BucketsAdd<E(!new)>(armed: seq<Armed<E>>, x: Armed<E>, now: nat, buckets: seq<seq<E>>)
    requires BucketsMatch(buckets, armed, now) && x.deadline != now
    ensures var b := x.deadline % 8; BucketsMatch(buckets[b := buckets[b] + [x.elem]], armed + [x], now)
  {
    forall b: nat | b < 8 {
      ListedAppend(armed, [x], now, b);
    }
    assert forall b: nat | b < 8 :: Listed([x], now, b) == if b == x.deadline % 8 then [x.elem] else [];
  }

  lemma BucketsDel<E(!new)>(armed: seq<Armed<E>>, e: E, now: nat, buckets: seq<seq<E>>)
    requires BucketsMatch(buckets, armed, now)
    ensures BucketsMatch(seq(8, b requires 0 <= b < 8 => Remove(buckets[b], e)), Without(armed, e), now)
  {
    forall b: nat | b < 8 {
      ListedWithout(armed, e, now, b);
    }
  }

  /** What one tick does to the buckets as a whole. */
  lemma BucketsAdvance<E(!new)>(armed: seq<Armed<E>>, words: map<E, nat>, now: nat, buckets: seq<seq<E>>)
    requires forall x | x in armed :: now < x.deadline <= now + WRAP
    requires WordsMatch(armed, words) && BucketsMatch(buckets, armed, now)
    ensures var c, tick := (now + 1) % 8, (now + 1) % 0x1_0000_0000;
            && Expired(buckets[c], words, tick) == Listed(armed, now + 1, TIMEOUT_LIST)
            && BucketsMatch(buckets[c := Unexpired(buckets[c], words, tick)], armed, now + 1)
  {
    CollectIsDue(armed, words, now);
    forall b: nat | b < 8 && b != (now + 1) % 8
      ensures Listed(armed, now + 1, b) == Listed(armed, now, b)
    {
      OtherBucketsStay(armed, now, b);
    }
  }

  class Wheel<E(==,!new)> {
    const rate: int
    var tick: nat
    const buckets: array<seq<E>>
    var timeoutList: seq<E>
    var expiry: map<E, nat>
    ghost var flat: Flat<E>

    ghost predicate Valid()
      reads this, buckets
    {
      && WellFormed(flat)
      && rate == flat.rate
      && tick == flat.now % 0x1_0000_0000
      && buckets.Length == NUM_BUCKETS
      && timeoutList == Due(flat)
      && BucketsMatch(buckets[..], flat.armed, flat.now)
      && WordsMatch(flat.armed, expiry)
    }

    constructor (rate: int)
      requires 0 < rate
      ensures Valid() && fresh(buckets) && flat == Flat(rate, 0, [], [])
    {
      this.rate := rate;
      tick := 0;
      buckets := new seq<E>[NUM_BUCKETS](_ => []);
      timeoutList := [];
      expiry := map[];
      flat := Flat(rate, 0, [], []);
    }

    /** A timer runs while it is in a bucket or waits in the list collected for this tick. */
    predicate IsRunning(e: E)
      requires buckets.Length == NUM_BUCKETS
      reads this, buckets
    {
      e in timeoutList || exists b: nat | b < NUM_BUCKETS :: e in buckets[b]
    }

    lemma RunningIffArmed(e: E)
      requires Valid()
      ensures IsRunning(e) <==> e in Names(flat.armed)
    {
      if e in Names(flat.armed) {
        var x :| x in flat.armed && x.elem == e;
        var place := Place(x, flat.now);
        ListedHas(flat.armed, flat.now, place, x);
        assert place == TIMEOUT_LIST || e in buckets[place];
      }
      if e in timeoutList {
        var _ := ListedFrom(flat.armed, flat.now, TIMEOUT_LIST, e);
      }
      if b: nat :| b < NUM_BUCKETS && e in buckets[b] {
        var _ := ListedFrom(flat.armed, flat.now, b, e);
      }
    }

    method Start(e: E, millis: int)
      requires Valid()
      modifies this, buckets
      ensures Valid() && flat == Add(old(flat), e, millis)
    {
      hide BucketsMatch, Listed;
      RunningIffArmed(e);
      if IsRunning(e) {
        return;
      }
      ExpiryWord(flat.now, TicksFromMillis(rate, millis), Delay(rate, millis));
      var due := (tick + TicksFromMillis(rate, millis)) % 0x1_0000_0000;
      var target := due % 8;
      ghost var x := Armed(e, flat.now + Delay(rate, millis));
      BucketsAdd(flat.armed, x, flat.now, buckets[..]);
      AddKeeps(flat, e, millis);
      expiry := expiry[e := due];
      buckets[target] := buckets[target] + [e];
      assert buckets[..] == old(buckets[..])[target := old(buckets[..])[target] + [e]];
      flat := Add(flat, e, millis);
      assert flat.armed == old(flat).armed + [x];
    }

    method Stop(e: E)
      requires Valid()
      modifies this, buckets
      ensures Valid() && flat == Del(old(flat), e)
    {
      RunningIffArmed(e);
      if !IsRunning(e) {
        return;
      }
      BucketsDel(flat.armed, e, flat.now, buckets[..]);
      DelKeeps(flat, e);
      timeoutList := Remove(timeoutList, e);
      forall b | 0 <= b < buckets.Length {
        buckets[b] := Remove(buckets[b], e);
      }
      assert buckets[..] == seq(8, b requires 0 <= b < 8 => Remove(old(buckets[..])[b], e));
      flat := Del(flat, e);
    }

    /** The first half of a tick: count it and collect the timers that are due. */
    method Collect()
      requires Valid() && Settled(flat)
      modifies this, buckets
      ensures Valid() && flat == Advance(old(flat))
    {
      hide BucketsMatch, Listed, IsDue;
      AdvanceKeeps(flat);
      BucketsAdvance(flat.armed, expiry, flat.now, buckets[..]);
      ExpiryWord(flat.now, 1, 1);
      tick := (tick + 1) % 0x1_0000_0000;
      var current := tick % 8;
      assert current == (old(flat).now + 1) % 8;
      var bucket := buckets[current];
      var collected, kept := [], [];
      for i := 0 to |bucket|
        modifies {}
        invariant collected == Expired(bucket[..i], expiry, tick)
        invariant kept == Unexpired(bucket[..i], expiry, tick)
      {
        assert bucket[..i + 1] == bucket[..i] + [bucket[i]];
        ExpiredSnoc(bucket[..i], bucket[i], expiry, tick);
        if IsDue(expiry, bucket[i], tick) {
          collected := collected + [bucket[i]];
        } else {
          kept := kept + [bucket[i]];
        }
      }
      assert bucket[..|bucket|] == bucket;
      timeoutList := collected;
      buckets[current] := kept;
      assert buckets[..] == old(buckets[..])[current := kept];
      flat := Advance(flat);
    }

    /** The second half, one timer at a time: take the first collected timer. */
    method TakeExpired() returns (e: E)
      requires Valid() && timeoutList != []
      modifies this
      ensures Valid() && Due(old(flat)) != [] && e == Due(old(flat))[0] && flat == Fire(old(flat))
    {
      e := timeoutList[0];
      FireKeeps(flat);
      forall b: nat | b < 8
        ensures Listed(Fire(flat).armed, flat.now, b) == Listed(flat.armed, flat.now, b)
      {
        if e in Listed(flat.armed, flat.now, b) {
          OnePlace(flat.armed, e, flat.now, b, TIMEOUT_LIST);
        }
        ListedWithout(flat.armed, e, flat.now, b);
        RemoveAbsent(Listed(flat.armed, flat.now, b), e);
      }
      timeoutList := timeoutList[1..];
      flat := Fire(flat);
    }

    /** The calls a callback makes. */
    method Make(ops: seq<Op<E>>)
      requires Valid()
      modifies this, buckets
      ensures Valid() && flat == ApplyAll(old(flat), ops)
    {
      var i := 0;
      while i < |ops|
        invariant 0 <= i <= |ops|
        invariant Valid() && ApplyAll(flat, ops[i..]) == ApplyAll(old(flat), ops)
      {
        match ops[i] {
          case OpAdd(e, millis) => Start(e, millis);
          case OpDel(e) => Stop(e);
        }
        assert ops[i..][1..] == ops[i + 1..];
        i := i + 1;
      }
    }

    /** A whole tick with arbitrary callbacks.  The loop ends because callbacks can only
        shrink the list of collected timers. */
    method Drive(script: seq<seq<Op<E>>>)
      requires Valid() && Settled(flat)
      modifies this, buckets
      ensures Valid() && Settled(flat) && flat == Tick(old(flat), script)
    {
      Collect();
      ghost var start := flat;
      DispatchSettles(flat, script);
      var k := 0;
      while timeoutList != []
        invariant Valid() && k >= 0
        invariant Dispatch(flat, if k <= |script| then script[k..] else []) == Dispatch(start, script)
        decreases |timeoutList|
      {
        ghost var rest := if k <= |script| then script[k..] else [];
        FireKeeps(flat);
        var _ := TakeExpired();
        ghost var fired := flat;
        if k < |script| {
          assert rest[1..] == script[k + 1..];
          Make(script[k]);
          ApplyAllKeeps(fired, script[k]);
        }
        k := k + 1;
      }
    }
  }

  lemma OnePlace<E(!new)>(armed: seq<Armed<E>>, e: E, now: nat, p: nat, q: nat)
    requires Distinct(armed)
    requires e in Listed(armed, now, p) && e in Listed(armed, now, q)
    ensures p == q
  {
    var x := ListedFrom(armed, now, p, e);
    var y := ListedFrom(armed, now, q, e);
    var i :| 0 <= i < |armed| && armed[i] == x;
    var j :| 0 <= j < |armed| && armed[j] == y;
    assert i == j;
  }
}
