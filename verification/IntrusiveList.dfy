/**
 Intrusive circular doubly linked lists: a list is a ring of nodes that starts at its head, and an
 entry that is in no list is a ring of its own.  `Rings` maps every head, and every such entry, to
 the entries that follow it; the operations on pointers are tied to operations on these sequences.
 */
module IntrusiveList {
  class Node {
    var next: Node?
    var prev: Node?

    constructor ()
      ensures next == this && prev == this
    {
      next, prev := this, this;
    }
  }

  type Rings = map<Node, seq<Node>>

  function After(i: nat, n: nat): nat
    requires i < n
  {
    if i + 1 == n then 0 else i + 1
  }

  /** The nodes of `c` are linked to one another in a circle. */
  ghost predicate Linked(c: seq<Node>)
    reads c
  {
    && Distinct(c)
    && (forall i | 0 <= i < |c| :: c[i].next == c[After(i, |c|)])
    && (forall i | 0 <= i < |c| :: c[After(i, |c|)].prev == c[i])
  }

  ghost predicate Disjoint(c: seq<Node>, d: seq<Node>) {
    forall x | x in c :: x !in d
  }

  ghost function Circle(rings: Rings, h: Node): seq<Node>
    requires h in rings
  {
    [h] + rings[h]
  }

  ghost function Nodes(rings: Rings): (all: set<Node>)
    ensures forall h, x | h in rings && x in Circle(rings, h) :: x in all
    ensures forall x | x in all :: exists h :: h in rings && x in Circle(rings, h)
  {
    set h, x | h in rings && x in Circle(rings, h) :: x
  }

  /** All rings are linked, and no node is in two of them. */
  ghost predicate World(rings: Rings)
    reads Nodes(rings)
  {
    Apart(rings) && forall h | h in rings :: Linked(Circle(rings, h))
  }

  ghost predicate Apart(rings: Rings) {
    forall g, h | g in rings && h in rings && g != h :: Disjoint(Circle(rings, g), Circle(rings, h))
  }

  ghost function Without(s: seq<Node>, e: Node): (r: seq<Node>)
    ensures (forall x | x in r :: x in s && x != e) && forall x | x in s :: x == e || x in r
  {
    if s == [] then []
    else
      assert s == [s[0]] + s[1..];
      (if s[0] == e then [] else [s[0]]) + Without(s[1..], e)
  }

  ghost predicate Distinct(s: seq<Node>) {
    forall i, j | 0 <= i < j < |s| :: s[i] != s[j]
  }

  lemma {:induction false} WithoutAt(s: seq<Node>, k: nat)
    requires k < |s| && Distinct(s)
    ensures Without(s, s[k]) == s[..k] + s[k + 1..]
  {
    var rest := s[1..];
    if k == 0 {
      WithoutAbsent(rest, s[0]);
      assert s[..0] + rest == rest;
    } else {
      DistinctTail(s);
      assert s[0] != s[k] && rest[k - 1] == s[k];
      hide Distinct;
      WithoutAt(rest, k - 1);
      assert s[..k] + s[k + 1..] == [s[0]] + (rest[..k - 1] + rest[k..]);
    }
  }

  lemma DistinctTail(s: seq<Node>)
    requires s != [] && Distinct(s)
    ensures Distinct(s[1..]) && s[0] !in s[1..]
  {
  }

  lemma {:induction false} WithoutAbsent(s: seq<Node>, e: Node)
    requires e !in s
    ensures Without(s, e) == s
  {
    if s != [] {
      WithoutAbsent(s[1..], e);
      assert s == [s[0]] + s[1..];
    }
  }

  // ---------------------------------------------------------------- what the pointers say

  /** A node is linked to itself, in both directions or in either, exactly if it is in no list and
      heads an empty one: this is how a timer tells whether it is running. */
  lemma SelfLinkedIffAlone(rings: Rings, x: Node)
    requires World(rings) && x in Nodes(rings)
    ensures x.next == x <==> x in rings && rings[x] == []
    ensures x.prev == x <==> x in rings && rings[x] == []
  {
    var h :| h in rings && x in Circle(rings, h);
    var c := Circle(rings, h);
    var i :| 0 <= i < |c| && c[i] == x;
    assert c[i].next == c[After(i, |c|)];
    if i > 0 {
      assert After(i - 1, |c|) == i;
      assert x.prev == c[i - 1];
      assert x in rings ==> x in Circle(rings, x);
    } else {
      assert After(|c| - 1, |c|) == 0;
      assert x.prev == c[|c| - 1];
    }
  }

  lemma FirstAndLast(rings: Rings, h: Node)
    requires World(rings) && h in rings
    ensures var c := Circle(rings, h); h.next == c[After(0, |c|)] && h.prev == c[|c| - 1]
  {
    var c := Circle(rings, h);
    assert After(|c| - 1, |c|) == 0;
    assert c[0] == h;
  }

  method Empty(head: Node, ghost rings: Rings) returns (b: bool)
    requires World(rings) && head in rings
    ensures b <==> rings[head] == []
  {
    FirstAndLast(rings, head);
    return head.next == head;
  }

  method First(head: Node, ghost rings: Rings) returns (e: Node)
    requires World(rings) && head in rings && rings[head] != []
    ensures e == rings[head][0]
  {
    FirstAndLast(rings, head);
    return head.next;
  }

  method IsLast(e: Node, head: Node, ghost rings: Rings) returns (b: bool)
    requires World(rings) && head in rings && e in rings[head]
    ensures b <==> e == rings[head][|rings[head]| - 1]
  {
    ghost var c := Circle(rings, head);
    ghost var i :| 0 <= i < |rings[head]| && rings[head][i] == e;
    assert c[i + 1] == e && e.next == c[After(i + 1, |c|)];
    assert i + 1 < |rings[head]| ==> c[i + 2] == rings[head][i + 1] && c[0] != c[i + 2];
    assert rings[head] == c[1..];
    return e.next == head;
  }

  method IsSingular(head: Node, ghost rings: Rings) returns (b: bool)
    requires World(rings) && head in rings
    ensures b <==> |rings[head]| == 1
  {
    FirstAndLast(rings, head);
    return head.next != head && head.next == head.prev;
  }

  // ---------------------------------------------------------------- what the operations do

  /** Puts a node between two that follow each other. */
  method Insert(n: Node, prev: Node, next: Node)
    requires n != prev && n != next
    modifies n, prev, next
    ensures n.next == next && n.prev == prev && prev.next == n && next.prev == n
    ensures prev != next ==> prev.prev == old(prev.prev) && next.next == old(next.next)
  {
    next.prev := n;
    n.next := next;
    n.prev := prev;
    prev.next := n;
  }

  /** Makes two nodes follow each other. */
  method Join(prev: Node, next: Node)
    modifies prev, next
    ensures prev.next == next && next.prev == prev
    ensures prev != next ==> prev.prev == old(prev.prev) && next.next == old(next.next)
  {
    next.prev := prev;
    prev.next := next;
  }

  lemma Appended(c: seq<Node>, n: Node)
    requires c != [] && n !in c
    requires Distinct(c)
    requires forall i | 0 <= i < |c| - 1 :: c[i].next == c[i + 1] && c[i + 1].prev == c[i]
    requires c[|c| - 1].next == n && n.prev == c[|c| - 1] && n.next == c[0] && c[0].prev == n
    ensures Linked(c + [n])
  {
  }

  lemma ApartWith(rings: Rings, head: Node, n: Node)
    requires Apart(rings) && head in rings && n !in Nodes(rings)
    ensures Apart(rings[head := rings[head] + [n]])
  {
    var after := rings[head := rings[head] + [n]];
    assert Circle(after, head) == Circle(rings, head) + [n];
    forall h | h in rings && h != head
      ensures Disjoint(Circle(after, h), Circle(after, head)) && Disjoint(Circle(after, head), Circle(after, h))
    {
      assert Circle(after, h) == Circle(rings, h);
      assert Disjoint(Circle(rings, h), Circle(rings, head)) && Disjoint(Circle(rings, head), Circle(rings, h));
    }
    forall g, h | g in after && h in after && g != h ensures Disjoint(Circle(after, g), Circle(after, h)) {
      if g != head && h != head {
        assert Disjoint(Circle(rings, g), Circle(rings, h));
      }
    }
  }

  /** Appends a node that is in no list; every other list stays as it is. */
  method AddTail(n: Node, head: Node, ghost rings: Rings)
    requires World(rings) && head in rings && n !in Nodes(rings)
    modifies n, head, head.prev
    ensures World(rings[head := rings[head] + [n]])
  {
    ghost var c, after := Circle(rings, head), rings[head := rings[head] + [n]];
    FirstAndLast(rings, head);
    ApartWith(rings, head, n);
    Elsewhere(rings, head);
    hide Apart;
    Insert(n, head.prev, head);
    Appended(c, n);
    assert Circle(after, head) == c + [n];
    forall h | h in rings && h != head ensures Linked(Circle(after, h)) {
      assert Circle(after, h) == Circle(rings, h);
      assert Disjoint(c, Circle(rings, h)) && c[0] in c && c[|c| - 1] in c;
      assert n !in Circle(rings, h);
      assert old(Linked(Circle(rings, h)));
      assert unchanged(Circle(rings, h));
    }
  }

  lemma Elsewhere(rings: Rings, head: Node)
    requires Apart(rings) && head in rings
    ensures forall h | h in rings && h != head :: Disjoint(Circle(rings, head), Circle(rings, h))
  {
  }

  ghost predicate Holds(rings: Rings, h: Node, e: Node) {
    h in rings && e in rings[h]
  }

  /** The rings after `e` has left the list that starts at `h`. */
  ghost function Left(rings: Rings, h: Node, e: Node): Rings
    requires Holds(rings, h, e)
  {
    rings[h := Without(rings[h], e)]
  }

  lemma ApartWithout(rings: Rings, h: Node, e: Node)
    requires Apart(rings) && Holds(rings, h, e)
    ensures Apart(Left(rings, h, e))
    ensures e != h ==> e !in Nodes(Left(rings, h, e))
  {
    var after := Left(rings, h, e);
    assert forall x | x in Circle(after, h) :: x in Circle(rings, h);
    assert forall g | g in rings && g != h :: Circle(after, g) == Circle(rings, g);
    forall f, g | f in after && g in after && f != g ensures Disjoint(Circle(after, f), Circle(after, g)) {
      assert Disjoint(Circle(rings, f), Circle(rings, g));
    }
    assert e in Circle(rings, h);
  }

  lemma DistinctWithout(c: seq<Node>, k: nat)
    requires k < |c| && Distinct(c)
    ensures Distinct(c[..k] + c[k + 1..])
  {
  }

  lemma Removed(c: seq<Node>, k: nat)
    requires 0 < k < |c|
    requires Distinct(c)
    requires forall i | 0 <= i < |c| && i != k && After(i, |c|) != k :: c[i].next == c[After(i, |c|)] && c[After(i, |c|)].prev == c[i]
    requires c[k - 1].next == c[After(k, |c|)] && c[After(k, |c|)].prev == c[k - 1]
    ensures Linked(c[..k] + c[k + 1..])
  {
    var d := c[..k] + c[k + 1..];
    DistinctWithout(c, k);
    hide Distinct;
    forall i | 0 <= i < |d| ensures d[i].next == d[After(i, |d|)] && d[After(i, |d|)].prev == d[i] {
      var j := if i < k then i else i + 1;
      assert d[i] == c[j];
      assert j != k;
    }
  }

  /** What leaving its list does to the sequence of the list's nodes. */
  lemma CircleWithout(rings: Rings, h: Node, e: Node) returns (k: nat)
    requires Holds(rings, h, e) && Distinct(Circle(rings, h))
    ensures var c := Circle(rings, h);
            0 < k < |c| && c[k] == e && Circle(Left(rings, h, e), h) == c[..k] + c[k + 1..]
  {
    var j :| 0 <= j < |rings[h]| && rings[h][j] == e;
    k := j + 1;
    ConsWithout(h, rings[h], j);
    WithoutAt(rings[h], j);
  }

  lemma ConsWithout(h: Node, s: seq<Node>, j: nat)
    requires j < |s| && Distinct([h] + s)
    ensures Distinct(s) && ([h] + s)[j + 1] == s[j]
    ensures [h] + (s[..j] + s[j + 1..]) == ([h] + s)[..j + 1] + ([h] + s)[j + 2..]
  {
    DistinctTail([h] + s);
    assert ([h] + s)[1..] == s;
  }

  /** Makes the neighbours of the node at `k` follow each other. */
  method Bypass(ghost c: seq<Node>, ghost k: nat, prev: Node, next: Node)
    requires Linked(c) && 0 < k < |c| && prev == c[k - 1] && next == c[After(k, |c|)]
    modifies prev, next
    ensures Linked(c[..k] + c[k + 1..])
  {
    Join(prev, next);
    Removed(c, k);
  }

  /** Takes a node out of the one list that holds it, without being told which; every other list
      stays as it is.  Returns, as a ghost, the head of that list. */
  method Unlink(e: Node, ghost rings: Rings) returns (ghost h: Node)
    requires World(rings) && exists g :: Holds(rings, g, e)
    modifies e.prev, e.next
    ensures Holds(rings, h, e) && World(Left(rings, h, e)) && e !in Nodes(Left(rings, h, e))
  {
    h :| Holds(rings, h, e);
    ghost var c, after := Circle(rings, h), Left(rings, h, e);
    ghost var k := Whereabouts(rings, h, e);
    hide Apart, Without, Distinct, Left, Holds;
    hide Linked;
    Bypass(c, k, e.prev, e.next);
    forall g | g in rings && g != h ensures Linked(Circle(after, g)) {
      assert Disjoint(c, Circle(rings, g)) && c[k - 1] in c && c[After(k, |c|)] in c;
      assert old(Linked(Circle(rings, g)));
      assert unchanged(Circle(rings, g));
    }
  }

  /** Where a node stands, and what its leaving does to the sequences. */
  lemma Whereabouts(rings: Rings, h: Node, e: Node) returns (k: nat)
    requires World(rings) && Holds(rings, h, e)
    ensures var c, after := Circle(rings, h), Left(rings, h, e);
            && 0 < k < |c| && c[k] == e && Distinct(c)
            && e.prev == c[k - 1] && e.next == c[After(k, |c|)] && e !in {c[k - 1], c[After(k, |c|)]}
            && after.Keys == rings.Keys && Apart(after) && e !in Nodes(after)
            && Circle(after, h) == c[..k] + c[k + 1..]
            && (forall g | g in rings && g != h :: Circle(after, g) == Circle(rings, g) && Disjoint(c, Circle(rings, g)))
  {
    k := CircleWithout(rings, h, e);
    Position(Circle(rings, h), k);
    ApartWithout(rings, h, e);
    Elsewhere(rings, h);
    hide Apart, Without, Distinct, Linked, Nodes;
  }

  lemma Position(c: seq<Node>, k: nat)
    requires Linked(c) && 0 < k < |c|
    ensures c[k].prev == c[k - 1] && c[k].next == c[After(k, |c|)] && c[k] != c[0]
    ensures c[k - 1] != c[k] && c[After(k, |c|)] != c[k]
  {
    assert After(k - 1, |c|) == k;
  }

  /** list_del: the entry's own pointers are cleared. */
  method Del(e: Node, ghost rings: Rings) returns (ghost h: Node)
    requires World(rings) && exists g :: Holds(rings, g, e)
    modifies e, e.prev, e.next
    ensures Holds(rings, h, e) && World(Left(rings, h, e)) && e !in Nodes(Left(rings, h, e))
    ensures e.next == null && e.prev == null
  {
    hide Apart, Linked, Left, Nodes;
    h := Unlink(e, rings);
    e.next := null;
    e.prev := null;
  }

  lemma Alone(rings: Rings, e: Node)
    requires World(rings) && e !in Nodes(rings) && e.next == e && e.prev == e
    ensures World(rings[e := []])
  {
    var after := rings[e := []];
    assert e !in rings by { assert e in rings ==> e in Circle(rings, e); }
    assert Circle(after, e) == [e];
    assert forall h | h in rings :: Circle(after, h) == Circle(rings, h);
    forall f, g | f in after && g in after && f != g ensures Disjoint(Circle(after, f), Circle(after, g)) {
      assert f != e && g != e ==> Disjoint(Circle(rings, f), Circle(rings, g));
    }
  }

  /** list_del_init: the entry becomes a ring of its own. */
  method DelInit(e: Node, ghost rings: Rings) returns (ghost h: Node)
    requires World(rings) && exists g :: Holds(rings, g, e)
    modifies e, e.prev, e.next
    ensures Holds(rings, h, e) && World(Left(rings, h, e)[e := []])
  {
    hide Apart, Linked, Left, Nodes;
    h := Unlink(e, rings);
    e.next := e;
    e.prev := e;
    Alone(Left(rings, h, e), e);
  }

  function Select(s: seq<Node>, due: Node -> bool): seq<Node> {
    if s == [] then [] else (if due(s[0]) then [s[0]] else []) + Select(s[1..], due)
  }

  function Reject(s: seq<Node>, due: Node -> bool): seq<Node> {
    if s == [] then [] else (if due(s[0]) then [] else [s[0]]) + Reject(s[1..], due)
  }

  lemma {:induction false} SelectSnoc(s: seq<Node>, e: Node, due: Node -> bool)
    ensures Select(s + [e], due) == Select(s, due) + if due(e) then [e] else []
    ensures Reject(s + [e], due) == Reject(s, due) + if due(e) then [] else [e]
  {
    if s != [] {
      assert (s + [e])[1..] == s[1..] + [e];
      SelectSnoc(s[1..], e, due);
    }
  }

  /** The rings after the `k`-th entry of one list has gone to the end of another. */
  ghost function Moved(rings: Rings, source: Node, k: nat, target: Node): Rings
    requires source in rings && target in rings && k < |rings[source]|
  {
    var s := rings[source];
    Both(rings, source, s[..k] + s[k + 1..], target, rings[target] + [s[k]])
  }

  lemma OneHome(rings: Rings, g: Node, h: Node, e: Node)
    requires Apart(rings) && Holds(rings, g, e) && Holds(rings, h, e)
    ensures g == h
  {
    assert e in Circle(rings, g) && e in Circle(rings, h);
  }

  lemma MovedNodes(rings: Rings, source: Node, k: nat, target: Node)
    requires source in rings && target in rings && source != target && k < |rings[source]|
    ensures Nodes(Moved(rings, source, k, target)) <= Nodes(rings)
  {
    var after := Moved(rings, source, k, target);
    assert rings[source][k] in Circle(rings, source);
    forall h, x | h in after && x in Circle(after, h) ensures x in Nodes(rings) {
      assert x in Circle(rings, h) || x in Circle(rings, source);
    }
  }

  lemma Reachable(rings: Rings, h: Node, k: nat)
    requires World(rings) && h in rings && k < |rings[h]|
    ensures var e := rings[h][k];
            && e in Nodes(rings) && e.prev in Nodes(rings) && e.next in Nodes(rings)
            && e.next == if k + 1 < |rings[h]| then rings[h][k + 1] else h
  {
    var c := Circle(rings, h);
    Position(c, k + 1);
    assert c[k] in c && c[k + 1] in c && c[After(k + 1, |c|)] in c;
  }

  method Move(e: Node, ghost source: Node, ghost k: nat, target: Node, ghost rings: Rings)
    requires World(rings) && source in rings && target in rings && source != target
    requires k < |rings[source]| && rings[source][k] == e
    modifies Nodes(rings)
    ensures World(Moved(rings, source, k, target))
  {
    Reachable(rings, source, k);
    assert Holds(rings, source, e);
    assert Linked(Circle(rings, source));
    ConsWithout(source, rings[source], k);
    WithoutAt(rings[source], k);
    ghost var h := Del(e, rings);
    OneHome(rings, source, h, e);
    ghost var left := Left(rings, source, e);
    FirstAndLast(left, target);
    AddTail(e, target, left);
    assert left[target := left[target] + [e]] == Moved(rings, source, k, target);
  }

  /** How timers that are due are collected: the entries of one list for which `due` holds go to
      the end of another, in order, while the list is being walked.  The successor is read before
      an entry is moved. */
  method Collect(source: Node, target: Node, due: Node -> bool, ghost rings: Rings) returns (ghost after: Rings)
    requires World(rings) && source in rings && target in rings && source != target
    modifies Nodes(rings)
    ensures World(after)
    ensures after == Both(rings, source, Reject(rings[source], due), target, rings[target] + Select(rings[source], due))
  {
    ghost var s := rings[source];
    after := rings;
    ghost var i := 0;
    FirstAndLast(rings, source);
    HalfwayStart(rings, source, target, due);
    NotOwnEntry(rings, source);
    var p: Node := source.next;
    hide World, Nodes, Select, Reject, Halfway, Both, Moved;
    while p != source
      invariant 0 <= i <= |s| && p == (if i < |s| then s[i] else source)
      invariant after == Halfway(rings, source, target, due, i)
      invariant World(after) && Nodes(after) <= Nodes(rings)
      decreases |s| - i
    {
      ghost var k := HalfwayStep(rings, source, target, due, i);
      var n := Visit(p, source, target, due, k, after);
      after := Halfway(rings, source, target, due, i + 1);
      p := n;
      i := i + 1;
    }
    HalfwayEnd(rings, source, target, due);
  }

  lemma NotOwnEntry(rings: Rings, h: Node)
    requires World(rings) && h in rings
    ensures h !in rings[h]
  {
    assert Distinct(Circle(rings, h));
    DistinctTail(Circle(rings, h));
    assert Circle(rings, h)[1..] == rings[h];
  }

  /** Looks at one entry; returns the next one. */
  method Visit(p: Node, ghost source: Node, target: Node, due: Node -> bool, ghost k: nat, ghost rings: Rings) returns (n: Node)
    requires World(rings) && source in rings && target in rings && source != target
    requires k < |rings[source]| && rings[source][k] == p
    modifies Nodes(rings)
    ensures n == if k + 1 < |rings[source]| then rings[source][k + 1] else source
    ensures var after := if due(p) then Moved(rings, source, k, target) else rings;
            World(after) && Nodes(after) <= Nodes(rings)
  {
    Reachable(rings, source, k);
    MovedNodes(rings, source, k, target);
    hide World, Nodes, Moved;
    n := p.next;
    if due(p) {
      Move(p, source, k, target, rings);
    }
  }

  /** The rings when the first `i` entries have been looked at. */
  ghost function Halfway(rings: Rings, source: Node, target: Node, due: Node -> bool, i: nat): Rings
    requires source in rings && target in rings && i <= |rings[source]|
  {
    var s := rings[source];
    Both(rings, source, Reject(s[..i], due) + s[i..], target, rings[target] + Select(s[..i], due))
  }

  ghost function Both(rings: Rings, source: Node, a: seq<Node>, target: Node, b: seq<Node>): Rings {
    rings[source := a][target := b]
  }

  lemma BothSame(rings: Rings, source: Node, target: Node)
    requires source in rings && target in rings && source != target
    ensures Both(rings, source, rings[source], target, rings[target]) == rings
  {
  }

  lemma BothAgain(rings: Rings, source: Node, a: seq<Node>, x: seq<Node>, target: Node, b: seq<Node>, y: seq<Node>)
    requires source in rings && target in rings && source != target
    ensures var r := Both(rings, source, a, target, b);
            && source in r && r[source] == a && target in r && r[target] == b
            && Both(r, source, x, target, y) == Both(rings, source, x, target, y)
  {
  }

  lemma HalfwayStart(rings: Rings, source: Node, target: Node, due: Node -> bool)
    requires source in rings && target in rings && source != target
    ensures Halfway(rings, source, target, due, 0) == rings
  {
    var s := rings[source];
    assert Reject(s[..0], due) + s[0..] == s;
    assert rings[target] + Select(s[..0], due) == rings[target];
    BothSame(rings, source, target);
  }

  lemma HalfwayEnd(rings: Rings, source: Node, target: Node, due: Node -> bool)
    requires source in rings && target in rings && source != target
    ensures Halfway(rings, source, target, due, |rings[source]|)
         == Both(rings, source, Reject(rings[source], due), target, rings[target] + Select(rings[source], due))
  {
    var s := rings[source];
    assert s[..|s|] == s && Reject(s, due) + s[|s|..] == Reject(s, due);
  }

  lemma HalfwayStep(rings: Rings, source: Node, target: Node, due: Node -> bool, i: nat) returns (k: nat)
    requires source in rings && target in rings && source != target && i < |rings[source]|
    ensures var s, h, next := rings[source], Halfway(rings, source, target, due, i), Halfway(rings, source, target, due, i + 1);
            && k < |h[source]| && h[source][k] == s[i] && source in h && target in h
            && (if k + 1 < |h[source]| then i + 1 < |s| && h[source][k + 1] == s[i + 1] else i + 1 == |s|)
            && next == if due(s[i]) then Moved(h, source, k, target) else h
  {
    var s, h := rings[source], Halfway(rings, source, target, due, i);
    var kept, moved := Reject(s[..i], due), Select(s[..i], due);
    k := |kept|;
    assert s[..i + 1] == s[..i] + [s[i]];
    SelectSnoc(s[..i], s[i], due);
    assert s[i..] == [s[i]] + s[i + 1..];
    var before, after := kept + s[i..], Reject(s[..i + 1], due) + s[i + 1..];
    var collected := rings[target] + Select(s[..i + 1], due);
    BothAgain(rings, source, before, after, target, rings[target] + moved, collected);
    hide Select, Reject, Both;
    if due(s[i]) {
      assert before[..k] + before[k + 1..] == kept + s[i + 1..] == after;
      assert rings[target] + moved + [s[i]] == collected;
    } else {
      assert after == before && collected == rings[target] + moved;
    }
  }
}
