/** The ring buffer: a byte queue of bounded size in a circular array. */
module CircBuffer {
  import opened Words

  // ---------------------------------------------------------------- the queue it stands for

  datatype Op =
    | Put(data: seq<u8>)
    | Get(n: nat)
    | Peek(m: nat)
    | Advance(k: nat)
    | Reset

  /** The bytes an operation hands back, or None if it is refused. */
  type Answer = Option<seq<u8>>

  datatype Queue = Queue(size: nat, held: seq<u8>)

  function Perform(q: Queue, op: Op): (Queue, Answer) {
    match op
    case Put(data) => if q.size < |q.held| + |data| then (q, None) else (q.(held := q.held + data), Some([]))
    case Get(n) => if |q.held| < n then (q, None) else (q.(held := q.held[n..]), Some(q.held[..n]))
    case Peek(n) => if |q.held| < n then (q, None) else (q, Some(q.held[..n]))
    case Advance(n) => if |q.held| < n then (q, None) else (q.(held := q.held[n..]), Some([]))
    case Reset => (q.(held := []), Some([]))
  }

  function PerformAll(q: Queue, ops: seq<Op>): (r: (Queue, seq<Answer>))
    ensures |r.1| == |ops|
  {
    if ops == [] then (q, [])
    else
      var (before, answers) := PerformAll(q, ops[..|ops| - 1]);
      var (after, answer) := Perform(before, ops[|ops| - 1]);
      (after, answers + [answer])
  }

  /** The bytes an operation puts in. */
  function In(op: Op, answer: Answer): seq<u8> {
    if op.Put? && answer.Some? then op.data else []
  }

  /** The bytes an operation gets out. */
  function Out(op: Op, answer: Answer): seq<u8> {
    if op.Get? && answer.Some? then answer.value else []
  }

  /** The bytes that went in: those of every put that was not refused. */
  function Accepted(ops: seq<Op>, answers: seq<Answer>): seq<u8>
    requires |ops| == |answers|
  {
    if ops == [] then []
    else
      var k := |ops| - 1;
      Accepted(ops[..k], answers[..k]) + In(ops[k], answers[k])
  }

  /** The bytes that came out: those that every get handed back. */
  function Received(ops: seq<Op>, answers: seq<Answer>): seq<u8>
    requires |ops| == |answers|
  {
    if ops == [] then []
    else
      var k := |ops| - 1;
      Received(ops[..k], answers[..k]) + Out(ops[k], answers[k])
  }

  /** How much of what was held at first, `held` bytes, and of what went in since is gone: taken,
      dropped or reset. */
  function Gone(held: nat, ops: seq<Op>, answers: seq<Answer>): nat
    requires |ops| == |answers|
  {
    if ops == [] then 0
    else
      var k := |ops| - 1;
      var before := Gone(held, ops[..k], answers[..k]);
      match ops[k]
      case Get(n) => if answers[k].Some? then before + n else before
      case Advance(n) => if answers[k].Some? then before + n else before
      case Reset => held + |Accepted(ops[..k], answers[..k])|
      case Put(_) => before
      case Peek(_) => before
  }

  lemma Snoc(q: Queue, ops: seq<Op>, op: Op)
    ensures var (before, answers) := PerformAll(q, ops);
            var (after, answer) := Perform(before, op);
            PerformAll(q, ops + [op]) == (after, answers + [answer])
  {
    hide Perform;
    assert (ops + [op])[..|ops|] == ops;
  }

  /** Over any run, what the queue holds is what it held at first and all that went in since, in this
      order, without as much at the front as is gone; and the bound is kept. */
  lemma {:induction false} RunIsFifo(q: Queue, ops: seq<Op>)
    requires |q.held| <= q.size
    ensures var (r, answers) := PerformAll(q, ops);
            var stream, gone := q.held + Accepted(ops, answers), Gone(|q.held|, ops, answers);
            gone <= |stream| && r == Queue(q.size, stream[gone..]) && |r.held| <= q.size
    decreases |ops|
  {
    if ops != [] {
      var k := |ops| - 1;
      RunIsFifo(q, ops[..k]);
      var (before, answers) := PerformAll(q, ops[..k]);
      assert PerformAll(q, ops).1[..k] == answers;
      var went := Accepted(ops[..k], answers);
      OpIsFifo(before, ops[k], q.held + went, Gone(|q.held|, ops[..k], answers));
      assert (q.held + went) + In(ops[k], Perform(before, ops[k]).1) == q.held + (went + In(ops[k], Perform(before, ops[k]).1));
      hide Perform, In;
    }
  }

  lemma OpIsFifo(q: Queue, op: Op, stream: seq<u8>, gone: nat)
    requires gone <= |stream| && q.held == stream[gone..] && |q.held| <= q.size
    ensures var (r, answer) := Perform(q, op);
            var more := stream + In(op, answer);
            var further := match op
                           case Get(n) => if answer.Some? then gone + n else gone
                           case Advance(n) => if answer.Some? then gone + n else gone
                           case Reset => |stream|
                           case Put(_) => gone
                           case Peek(_) => gone;
            further <= |more| && r == Queue(q.size, more[further..]) && |r.held| <= q.size
  {
    assert stream + [] == stream;
    match op
    case Put(data) => assert (stream + data)[gone..] == stream[gone..] + data;
    case Get(n) => assert n <= |stream[gone..]| ==> stream[gone..][n..] == stream[gone + n..];
    case Advance(n) => assert n <= |stream[gone..]| ==> stream[gone..][n..] == stream[gone + n..];
    case Peek(_) =>
    case Reset =>
  }

  /** After any run, a get or a peek hands back exactly the bytes at the place in the stream up to which
      it is gone, or nothing if there are not as many. */
  lemma GetsInOrder(q: Queue, ops: seq<Op>, n: nat)
    requires |q.held| <= q.size
    ensures var answers := PerformAll(q, ops).1;
            var stream, gone := q.held + Accepted(ops, answers), Gone(|q.held|, ops, answers);
            var answer := if gone + n <= |stream| then Some(stream[gone..gone + n]) else None;
            && PerformAll(q, ops + [Get(n)]).1 == answers + [answer]
            && PerformAll(q, ops + [Peek(n)]).1 == answers + [answer]
  {
    hide PerformAll, Perform, Accepted, Gone;
    RunIsFifo(q, ops);
    Snoc(q, ops, Get(n));
    Snoc(q, ops, Peek(n));
    var (r, answers) := PerformAll(q, ops);
    FrontOf(r, q.held + Accepted(ops, answers), Gone(|q.held|, ops, answers), n);
  }

  lemma FrontOf(q: Queue, stream: seq<u8>, gone: nat, n: nat)
    requires gone <= |stream| && q.held == stream[gone..]
    ensures var answer := if gone + n <= |stream| then Some(stream[gone..gone + n]) else None;
            Perform(q, Get(n)).1 == answer && Perform(q, Peek(n)).1 == answer
  {
    if gone + n <= |stream| {
      assert stream[gone..][..n] == stream[gone..gone + n];
    }
  }

  ghost predicate DropsNothing(ops: seq<Op>) {
    forall op | op in ops :: !op.Advance? && !op.Reset?
  }

  /** If nothing is dropped on purpose, what came out and what is still held is what was held at first
      and what went in, in this order. */
  lemma {:induction false} NothingLost(q: Queue, ops: seq<Op>)
    requires DropsNothing(ops)
    ensures var (r, answers) := PerformAll(q, ops);
            Received(ops, answers) + r.held == q.held + Accepted(ops, answers)
    decreases |ops|
  {
    if ops == [] {
      assert [] + q.held == q.held + [];
    } else {
      var k := |ops| - 1;
      NothingLost(q, ops[..k]);
      var (before, answers) := PerformAll(q, ops[..k]);
      assert PerformAll(q, ops).1[..k] == answers;
      assert ops[k] in ops;
      OpLosesNothing(before, ops[k]);
      var (after, answer) := Perform(before, ops[k]);
      hide Perform, In, Out;
      Regroup(Received(ops[..k], answers), Out(ops[k], answer), after.held, before.held, In(ops[k], answer), q.held,
              Accepted(ops[..k], answers));
    }
  }

  lemma OpLosesNothing(q: Queue, op: Op)
    requires !op.Advance? && !op.Reset?
    ensures var (r, answer) := Perform(q, op); Out(op, answer) + r.held == q.held + In(op, answer)
  {
    assert [] + q.held == q.held == q.held + [];
    if op.Get? && op.n <= |q.held| {
      assert q.held[..op.n] + q.held[op.n..] == q.held;
    }
  }

  lemma Regroup(came: seq<u8>, out: seq<u8>, after: seq<u8>, before: seq<u8>, more: seq<u8>, first: seq<u8>, went: seq<u8>)
    requires came + before == first + went && out + after == before + more
    ensures (came + out) + after == first + (went + more)
  {
    assert (came + out) + after == came + (out + after);
    assert came + (before + more) == (came + before) + more;
    assert (first + went) + more == first + (went + more);
  }

  // ---------------------------------------------------------------- the buffer

  /** An index after wrapping around at most once. */
  function Wrapped(i: nat, n: nat): nat {
    if i < n then i else i - n
  }

  lemma WrapOnce(i: nat, n: nat)
    requires 0 < n && i < 2 * n
    ensures i % n == Wrapped(i, n)
  {
    if i < n {
      assert i / n == 0;
    } else {
      assert i / n == 1;
    }
  }

  /** An index into an array; zero into an empty one. */
  predicate Inside(i: nat, size: nat) {
    i < size || (size == 0 && i == 0)
  }

  /** The `n` bytes from `begin` on, around the end of the array. */
  function Window(b: seq<u8>, begin: nat, n: nat): (w: seq<u8>)
    requires Inside(begin, |b|) && n <= |b|
    ensures |w| == n
  {
    if begin + n <= |b| then b[begin..begin + n] else b[begin..] + b[..begin + n - |b|]
  }

  lemma WindowAt(b: seq<u8>, begin: nat, n: nat)
    requires Inside(begin, |b|) && n <= |b|
    ensures forall i | 0 <= i < n :: Window(b, begin, n)[i] == b[Wrapped(begin + i, |b|)]
  {
  }

  lemma WindowTake(b: seq<u8>, begin: nat, n: nat, k: nat)
    requires Inside(begin, |b|) && k <= n <= |b|
    ensures Window(b, begin, k) == Window(b, begin, n)[..k]
  {
    WindowAt(b, begin, n);
    WindowAt(b, begin, k);
    hide Window, Wrapped;
  }

  lemma WindowDrop(b: seq<u8>, begin: nat, n: nat, k: nat)
    requires begin < |b| && k <= n <= |b|
    ensures begin + k < 2 * |b|
    ensures Window(b, Wrapped(begin + k, |b|), n - k) == Window(b, begin, n)[k..]
  {
    var m := Wrapped(begin + k, |b|);
    WindowAt(b, begin, n);
    WindowAt(b, m, n - k);
    hide Window;
    forall i | 0 <= i < n - k ensures Window(b, m, n - k)[i] == Window(b, begin, n)[k..][i] {
      assert Wrapped(m + i, |b|) == Wrapped(begin + (k + i), |b|);
    }
    hide Wrapped;
    assert Window(b, begin, n)[k..] == Window(b, m, n - k);
  }

  lemma WindowGrows(b: seq<u8>, c: seq<u8>, begin: nat, n: nat, data: seq<u8>)
    requires |c| == |b| && begin < |b| && n + |data| <= |b|
    requires Window(c, begin, n) == Window(b, begin, n)
    requires Window(c, Wrapped(begin + n, |b|), |data|) == data
    ensures Window(c, begin, n + |data|) == Window(b, begin, n) + data
  {
    hide Window, Wrapped;
    WindowTake(c, begin, n + |data|, n);
    WindowDrop(c, begin, n + |data|, n);
    assert n + |data| - n == |data|;
    Halves(Window(c, begin, n + |data|), n);
  }

  lemma Halves(w: seq<u8>, n: nat)
    requires n <= |w|
    ensures w == w[..n] + w[n..]
  {
  }

  /** How far `i` lies behind `end`, around the end of an array of `n` bytes. */
  function Behind(i: nat, end: nat, n: nat): int
    requires i < n && end < n
  {
    if end <= i then i - end else i + n - end
  }

  /** `c` is `b` with `data` written from `end` on, around the end of the array. */
  ghost predicate Written(b: seq<u8>, c: seq<u8>, end: nat, data: seq<u8>) {
    && |c| == |b| && end < |b|
    && forall i | 0 <= i < |c| :: c[i] == if Behind(i, end, |b|) < |data| then data[Behind(i, end, |b|)] else b[i]
  }

  lemma WrittenWindow(b: seq<u8>, c: seq<u8>, begin: nat, n: nat, data: seq<u8>)
    requires begin < |b| && n + |data| <= |b| && Written(b, c, Wrapped(begin + n, |b|), data)
    ensures Window(c, begin, n + |data|) == Window(b, begin, n) + data
  {
    var end := Wrapped(begin + n, |b|);
    WindowAt(c, end, |data|);
    WindowAt(c, begin, n);
    WindowAt(b, begin, n);
    assert Window(c, end, |data|) == data by {
      hide Window;
      forall i | 0 <= i < |data| ensures Window(c, end, |data|)[i] == data[i] {
        assert Behind(Wrapped(end + i, |b|), end, |b|) == i;
      }
    }
    assert Window(c, begin, n) == Window(b, begin, n) by {
      hide Window;
      forall i | 0 <= i < n ensures Window(c, begin, n)[i] == Window(b, begin, n)[i] {
        assert Behind(Wrapped(begin + i, |b|), end, |b|) >= |data|;
      }
    }
    WindowGrows(b, c, begin, n, data);
  }

  /** Moving an index by nothing in an empty array is a division by zero in the program. */
  predicate Defined(size: nat, op: Op) {
    0 < size ||
    match op
    case Put(data) => data != []
    case Get(n) => 0 < n
    case Advance(n) => 0 < n
    case Peek(_) => true
    case Reset => true
  }

  class CircularBuffer {
    const buffer: array<u8>
    var begin: nat
    var end: nat
    var dataSize: nat

    ghost predicate Valid()
      reads this
    {
      && Inside(begin, buffer.Length) && dataSize <= buffer.Length
      && end == Wrapped(begin + dataSize, buffer.Length)
    }

    ghost function Contents(): (c: seq<u8>)
      reads this, buffer
      requires Valid()
      ensures |c| == dataSize
    {
      Window(buffer[..], begin, dataSize)
    }

    ghost function Abs(): Queue
      reads this, buffer
      requires Valid()
    {
      Queue(buffer.Length, Contents())
    }

    constructor (size: nat)
      ensures Valid() && fresh(buffer) && buffer.Length == size && Contents() == []
    {
      buffer := new u8[size](_ => 0);
      begin, end, dataSize := 0, 0, 0;
    }

    method CopyIn(at: nat, data: seq<u8>)
      requires at + |data| <= buffer.Length
      modifies buffer
      ensures forall i | 0 <= i < buffer.Length ::
                buffer[i] == if at <= i < at + |data| then data[i - at] else old(buffer[i])
    {
      forall i | 0 <= i < |data| {
        buffer[at + i] := data[i];
      }
    }

    /** Copies `data` behind the end, in two parts if need be. */
    method CopyAround(data: seq<u8>)
      requires Valid() && dataSize + |data| <= buffer.Length && 0 < buffer.Length
      modifies buffer
      ensures Window(buffer[..], begin, dataSize + |data|) == old(Contents()) + data
    {
      hide Window;
      ghost var before := buffer[..];
      if end + |data| > buffer.Length {
        var beginLen := buffer.Length - end;
        CopyIn(end, data[..beginLen]);
        CopyIn(0, data[beginLen..]);
      } else {
        CopyIn(end, data);
      }
      assert Written(before, buffer[..], end, data);
      WrittenWindow(before, buffer[..], begin, dataSize, data);
    }

    /** All or nothing. */
    method Put(data: seq<u8>) returns (ok: bool)
      requires Valid() && Defined(buffer.Length, Op.Put(data))
      modifies this`end, this`dataSize, buffer
      ensures Valid() && ok == (|old(Contents())| + |data| <= buffer.Length)
      ensures Contents() == if ok then old(Contents()) + data else old(Contents())
    {
      hide Window;
      if dataSize + |data| > buffer.Length {
        return false;
      }
      CopyAround(data);
      WrapOnce(end + |data|, buffer.Length);
      end := (end + |data|) % buffer.Length;
      dataSize := dataSize + |data|;
      return true;
    }

    method Peek(n: nat) returns (data: Option<seq<u8>>)
      requires Valid()
      ensures data == if n <= |Contents()| then Some(Contents()[..n]) else None
    {
      if dataSize < n {
        return None;
      }
      WindowTake(buffer[..], begin, dataSize, n);
      if begin + n <= buffer.Length {
        data := Some(buffer[begin..begin + n]);
        assert data.value == buffer[..][begin..begin + n];
      } else {
        var beginLen := buffer.Length - begin;
        data := Some(buffer[begin..] + buffer[..n - beginLen]);
        assert data.value == buffer[..][begin..] + buffer[..][..begin + n - buffer.Length];
      }
    }

    method Advance(n: nat) returns (ok: bool)
      requires Valid() && Defined(buffer.Length, Op.Advance(n))
      modifies this`begin, this`dataSize
      ensures Valid() && ok == (n <= |old(Contents())|)
      ensures Contents() == if ok then old(Contents())[n..] else old(Contents())
    {
      hide Window;
      if dataSize < n {
        return false;
      }
      WindowDrop(buffer[..], begin, dataSize, n);
      WrapOnce(begin + n, buffer.Length);
      begin := (begin + n) % buffer.Length;
      dataSize := dataSize - n;
      return true;
    }

    method Get(n: nat) returns (data: Option<seq<u8>>)
      requires Valid() && Defined(buffer.Length, Op.Get(n))
      modifies this`begin, this`dataSize
      ensures Valid() && data == if n <= |old(Contents())| then Some(old(Contents())[..n]) else None
      ensures Contents() == if data.Some? then old(Contents())[n..] else old(Contents())
    {
      data := Peek(n);
      if data.Some? {
        var _ := Advance(n);
      }
    }

    method Reset()
      requires Valid()
      modifies this
      ensures Valid() && Contents() == []
    {
      begin, end, dataSize := 0, 0, 0;
    }

    /** One operation, answered as the queue answers it. */
    method Operate(op: Op) returns (answer: Answer)
      requires Valid() && Defined(buffer.Length, op)
      modifies this, buffer
      ensures Valid() && (Abs(), answer) == Perform(old(Abs()), op)
    {
      hide Window, Defined;
      match op
      case Put(data) =>
        var ok := Put(data);
        return if ok then Some([]) else None;
      case Get(n) =>
        answer := Get(n);
      case Peek(n) =>
        answer := Peek(n);
      case Advance(n) =>
        var ok := Advance(n);
        return if ok then Some([]) else None;
      case Reset =>
        Reset();
        return Some([]);
    }

    /** Any run of operations on the array: the answers are those of the queue, and if nothing is dropped
        on purpose, the bytes that came out and those still held are the bytes held at first and the bytes
        that went in, in this order. */
    method Run(ops: seq<Op>) returns (answers: seq<Answer>)
      requires Valid() && forall op | op in ops :: Defined(buffer.Length, op)
      modifies this, buffer
      ensures Valid() && |answers| == |ops| && (Abs(), answers) == PerformAll(old(Abs()), ops)
      ensures DropsNothing(ops) ==>
                Received(ops, answers) + Contents() == old(Contents()) + Accepted(ops, answers)
    {
      hide Perform, In, Out, Defined, Received, Accepted, Window, DropsNothing;
      answers := [];
      ghost var q := Abs();
      for k := 0 to |ops|
        invariant Valid() && (Abs(), answers) == PerformAll(q, ops[..k])
      {
        assert ops[..k + 1] == ops[..k] + [ops[k]];
        Snoc(q, ops[..k], ops[k]);
        var answer := Operate(ops[k]);
        answers := answers + [answer];
      }
      assert ops[..|ops|] == ops;
      if DropsNothing(ops) {
        NothingLost(q, ops);
      }
    }
  }
}
