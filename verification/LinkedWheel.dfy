/**
 The timing wheel as the program links it: a ring of nodes for each of the eight buckets, a ninth for
 the timers collected in a tick, and in every timer element one node.  Each operation on the rings is
 tied to the operation of the flat reference, so what is proved of that holds of the linked wheel.
 */
module LinkedWheel {
  import opened SoftTimer
  import L = IntrusiveList

  /** These nodes are those of these timers. */
  ghost predicate Stands<E(!new)>(ns: seq<L.Node>, s: seq<E>, node: map<E, L.Node>) {
    |ns| == |s| && forall i | 0 <= i < |s| :: s[i] in node && ns[i] == node[s[i]]
  }

  /** Nine heads, of the buckets and of the list of collected timers, and a node of its own for every
      timer. */
  ghost predicate Layout<E(!new)>(heads: seq<L.Node>, node: map<E, L.Node>) {
    && |heads| == 9
    && (forall p, q | 0 <= p < q < 9 :: heads[p] != heads[q])
    && (forall d, e | d in node && e in node && d != e :: node[d] != node[e])
    && (forall e | e in node :: node[e] !in heads)
  }

  /** The rings hold the armed timers, each in its place; every other ring is a node alone. */
  ghost predicate Mirrors<E(!new)>(rings: L.Rings, heads: seq<L.Node>, node: map<E, L.Node>,
                                   armed: seq<Armed<E>>, now: nat)
    requires |heads| == 9
  {
    && (forall p: nat | p <= 8 :: heads[p] in rings && Stands(rings[heads[p]], Listed(armed, now, p), node))
    && (forall h | h in rings && h !in heads :: rings[h] == [])
  }

  // ---------------------------------------------------------------- sequences of nodes and of timers

  lemma StandsIn<E(!new)>(ns: seq<L.Node>, s: seq<E>, heads: seq<L.Node>, node: map<E, L.Node>, e: E)
    requires Layout(heads, node) && Stands(ns, s, node) && e in node
    ensures node[e] in ns <==> e in s
    ensures forall h | h in heads :: h !in ns
  {
    if node[e] in ns {
      var i :| 0 <= i < |ns| && ns[i] == node[e];
      assert s[i] == e;
    }
    if e in s {
      var i :| 0 <= i < |s| && s[i] == e;
      assert ns[i] == node[e];
    }
  }

  lemma StandsTail<E(!new)>(ns: seq<L.Node>, s: seq<E>, node: map<E, L.Node>)
    requires Stands(ns, s, node) && s != []
    ensures ns != [] && s[0] in node && ns[0] == node[s[0]] && Stands(ns[1..], s[1..], node)
  {
  }

  lemma StandsCons<E(!new)>(ns: seq<L.Node>, s: seq<E>, node: map<E, L.Node>, e: E)
    requires Stands(ns, s, node) && e in node
    ensures Stands([node[e]] + ns, [e] + s, node) && Stands([] + ns, [] + s, node)
  {
    assert [] + ns == ns && [] + s == s;
  }

  lemma {:induction false} StandsWithout<E(!new)>(ns: seq<L.Node>, s: seq<E>, heads: seq<L.Node>, node: map<E, L.Node>, e: E)
    requires Layout(heads, node) && Stands(ns, s, node) && e in node
    ensures Stands(L.Without(ns, node[e]), Remove(s, e), node)
    decreases |s|
  {
    if s != [] {
      StandsTail(ns, s, node);
      hide Stands;
      StandsWithout(ns[1..], s[1..], heads, node, e);
      StandsCons(L.Without(ns[1..], node[e]), Remove(s[1..], e), node, s[0]);
    }
  }

  lemma {:induction false} StandsSplit<E(!new)>(ns: seq<L.Node>, s: seq<E>, node: map<E, L.Node>,
                                                due: L.Node -> bool, words: map<E, nat>, tick: nat)
    requires Stands(ns, s, node) && forall e | e in node :: due(node[e]) <==> IsDue(words, e, tick)
    ensures Stands(L.Select(ns, due), Expired(s, words, tick), node)
    ensures Stands(L.Reject(ns, due), Unexpired(s, words, tick), node)
    decreases |s|
  {
    hide IsDue;
    if s != [] {
      StandsTail(ns, s, node);
      hide Stands;
      StandsSplit(ns[1..], s[1..], node, due, words, tick);
      StandsCons(L.Select(ns[1..], due), Expired(s[1..], words, tick), node, s[0]);
      StandsCons(L.Reject(ns[1..], due), Unexpired(s[1..], words, tick), node, s[0]);
    }
  }

  // ---------------------------------------------------------------- the rings as a whole

  /** The place where the node of an armed timer is. */
  lemma PlaceOf<E(!new)>(rings: L.Rings, heads: seq<L.Node>, node: map<E, L.Node>, armed: seq<Armed<E>>, now: nat, e: E)
      returns (p: nat)
    requires Layout(heads, node) && Mirrors(rings, heads, node, armed, now) && e in node && e in Names(armed)
    ensures p <= 8 && L.Holds(rings, heads[p], node[e])
  {
    var x :| x in armed && x.elem == e;
    p := Place(x, now);
    ListedHas(armed, now, p, x);
    StandsIn(rings[heads[p]], Listed(armed, now, p), heads, node, e);
  }

  lemma HeldIsNoHead(rings: L.Rings, h: L.Node, n: L.Node)
    requires L.Apart(rings) && L.Holds(rings, h, n) && h != n
    ensures n !in rings
  {
    assert n in L.Circle(rings, h);
    forall g | g in rings && g != h ensures n !in L.Circle(rings, g) {
      assert L.Disjoint(L.Circle(rings, h), L.Circle(rings, g));
    }
  }

  /** A timer is armed exactly if its node is not a ring of its own. */
  lemma ArmedIffLinked<E(!new)>(rings: L.Rings, heads: seq<L.Node>, node: map<E, L.Node>, armed: seq<Armed<E>>, now: nat, e: E)
    requires Layout(heads, node) && Mirrors(rings, heads, node, armed, now) && L.Apart(rings)
    requires e in node && node[e] in L.Nodes(rings)
    ensures e in Names(armed) <==> !(node[e] in rings && rings[node[e]] == [])
  {
    var n := node[e];
    if e in Names(armed) {
      var p := PlaceOf(rings, heads, node, armed, now, e);
      HeldIsNoHead(rings, heads[p], n);
    } else {
      var h :| h in rings && n in L.Circle(rings, h);
      if n != h {
        assert n in rings[h] && h in heads;
        var p :| 0 <= p < 9 && heads[p] == h;
        StandsIn(rings[h], Listed(armed, now, p), heads, node, e);
        var _ := ListedFrom(armed, now, p, e);
        assert false;
      }
    }
  }

  /** The rings after a node that was alone has gone to the end of a list. */
  ghost function Entered(rings: L.Rings, n: L.Node, h: L.Node): L.Rings
    requires h in rings && h != n
  {
    var bare := rings - {n};
    bare[h := bare[h] + [n]]
  }

  lemma MirrorsAdd<E(!new)>(rings: L.Rings, heads: seq<L.Node>, node: map<E, L.Node>, armed: seq<Armed<E>>, now: nat, x: Armed<E>)
    requires Layout(heads, node) && Mirrors(rings, heads, node, armed, now)
    requires x.elem in node && x.deadline != now
    ensures Mirrors(Entered(rings, node[x.elem], heads[x.deadline % 8]), heads, node, armed + [x], now)
  {
    forall p: nat | p <= 8
      ensures var after := Entered(rings, node[x.elem], heads[x.deadline % 8]);
              heads[p] in after && Stands(after[heads[p]], Listed(armed + [x], now, p), node)
    {
      PlaceWith(rings, heads, node, armed, now, x, p);
    }
  }

  lemma PlaceWith<E(!new)>(rings: L.Rings, heads: seq<L.Node>, node: map<E, L.Node>, armed: seq<Armed<E>>, now: nat,
                           x: Armed<E>, p: nat)
    requires Layout(heads, node) && Mirrors(rings, heads, node, armed, now)
    requires x.elem in node && x.deadline != now && p <= 8
    ensures var after := Entered(rings, node[x.elem], heads[x.deadline % 8]);
            heads[p] in after && Stands(after[heads[p]], Listed(armed + [x], now, p), node)
  {
    ListedAppend(armed, [x], now, p);
    assert Listed([x], now, p) == if p == x.deadline % 8 then [x.elem] else [];
    var s := Listed(armed, now, p);
    assert Stands(rings[heads[p]], s, node) && heads[p] != node[x.elem];
    assert p != x.deadline % 8 ==> heads[p] != heads[x.deadline % 8];
    assert s + [] == s;
    StandsSnoc(rings[heads[p]], s, node, x.elem);
    hide Listed, Mirrors, Stands, Layout;
  }

  lemma StandsSnoc<E(!new)>(ns: seq<L.Node>, s: seq<E>, node: map<E, L.Node>, e: E)
    requires Stands(ns, s, node) && e in node
    ensures Stands(ns + [node[e]], s + [e], node)
  {
  }

  /** The rings after a node has left a list and is alone. */
  ghost function Released(rings: L.Rings, h: L.Node, n: L.Node): L.Rings
    requires L.Holds(rings, h, n)
  {
    L.Left(rings, h, n)[n := []]
  }

  lemma MirrorsDel<E(!new)>(rings: L.Rings, heads: seq<L.Node>, node: map<E, L.Node>, armed: seq<Armed<E>>, now: nat, e: E, h: L.Node)
    requires Layout(heads, node) && Mirrors(rings, heads, node, armed, now) && L.Apart(rings)
    requires e in node && L.Holds(rings, h, node[e])
    ensures Mirrors(Released(rings, h, node[e]), heads, node, Without(armed, e), now)
  {
    assert h in heads;
    forall p: nat | p <= 8
      ensures var after := Released(rings, h, node[e]);
              heads[p] in after && Stands(after[heads[p]], Listed(Without(armed, e), now, p), node)
    {
      PlaceWithout(rings, heads, node, armed, now, e, h, p);
    }
  }

  lemma PlaceWithout<E(!new)>(rings: L.Rings, heads: seq<L.Node>, node: map<E, L.Node>, armed: seq<Armed<E>>, now: nat,
                              e: E, h: L.Node, p: nat)
    requires Layout(heads, node) && Mirrors(rings, heads, node, armed, now) && L.Apart(rings)
    requires e in node && L.Holds(rings, h, node[e]) && p <= 8
    ensures var after := Released(rings, h, node[e]);
            heads[p] in after && Stands(after[heads[p]], Listed(Without(armed, e), now, p), node)
  {
    ListedWithout(armed, e, now, p);
    var s := Listed(armed, now, p);
    assert Stands(rings[heads[p]], s, node) && heads[p] != node[e];
    hide Listed, Without, Stands, Mirrors;
    if heads[p] == h {
      StandsWithout(rings[h], s, heads, node, e);
    } else {
      NotThere(rings, h, heads[p], node[e]);
      StandsIn(rings[heads[p]], s, heads, node, e);
      RemoveAbsent(s, e);
    }
  }

  lemma NotThere(rings: L.Rings, g: L.Node, h: L.Node, n: L.Node)
    requires L.Apart(rings) && L.Holds(rings, g, n) && h in rings && g != h
    ensures n !in rings[h]
  {
    if n in rings[h] {
      L.OneHome(rings, g, h, n);
    }
  }

  /** Collecting the current bucket. */
  lemma MirrorsAdvance<E(!new)>(rings: L.Rings, heads: seq<L.Node>, node: map<E, L.Node>, armed: seq<Armed<E>>, now: nat,
                                due: L.Node -> bool, words: map<E, nat>)
    requires Layout(heads, node) && Mirrors(rings, heads, node, armed, now)
    requires (forall x | x in armed :: now < x.deadline <= now + WRAP) && WordsMatch(armed, words)
    requires forall e | e in node :: due(node[e]) <==> IsDue(words, e, (now + 1) % 0x1_0000_0000)
    ensures var source := heads[(now + 1) % 8];
            Mirrors(L.Both(rings, source, L.Reject(rings[source], due), heads[8], rings[heads[8]] + L.Select(rings[source], due)),
                    heads, node, armed, now + 1)
  {
    var c := (now + 1) % 8;
    var source := heads[c];
    assert Stands(rings[source], Listed(armed, now, c), node);
    StandsSplit(rings[source], Listed(armed, now, c), node, due, words, (now + 1) % 0x1_0000_0000);
    CollectIsDue(armed, words, now);
    NoneDue(armed, now);
    assert Stands(rings[heads[8]], Listed(armed, now, 8), node);
    assert rings[heads[8]] == [];
    var kept, moved := L.Reject(rings[source], due), L.Select(rings[source], due);
    assert rings[heads[8]] + moved == moved;
    hide Listed, WordsMatch, Stands, Mirrors, Layout, L.Select, L.Reject, Expired, Unexpired, IsDue;
    PlacesAdvance(rings, heads, node, armed, now, kept, moved);
  }

  lemma PlacesAdvance<E(!new)>(rings: L.Rings, heads: seq<L.Node>, node: map<E, L.Node>, armed: seq<Armed<E>>, now: nat,
                               kept: seq<L.Node>, moved: seq<L.Node>)
    requires Layout(heads, node) && Mirrors(rings, heads, node, armed, now) && forall x | x in armed :: now < x.deadline
    requires Stands(kept, Listed(armed, now + 1, (now + 1) % 8), node) && Stands(moved, Listed(armed, now + 1, 8), node)
    ensures Mirrors(L.Both(rings, heads[(now + 1) % 8], kept, heads[8], moved), heads, node, armed, now + 1)
  {
    hide Listed, Stands;
    var source := heads[(now + 1) % 8];
    assert source != heads[8];
    forall p: nat | p <= 8
      ensures var after := L.Both(rings, source, kept, heads[8], moved);
              heads[p] in after && Stands(after[heads[p]], Listed(armed, now + 1, p), node)
    {
      if p < 8 && p != (now + 1) % 8 {
        OtherBucketsStay(armed, now, p);
        assert heads[p] != source && heads[p] != heads[8];
      }
    }
  }

  lemma {:induction false} NoneDue<E(!new)>(armed: seq<Armed<E>>, now: nat)
    requires forall x | x in armed :: now < x.deadline
    ensures Listed(armed, now, 8) == []
  {
    if armed != [] {
      NoneDue(armed[1..], now);
    }
  }

  // ---------------------------------------------------------------- the same nodes throughout

  lemma SameNodes(rings: L.Rings, after: L.Rings)
    requires forall h, x | h in rings && x in L.Circle(rings, h) :: x in L.Nodes(after)
    requires forall h, x | h in after && x in L.Circle(after, h) :: x in L.Nodes(rings)
    ensures L.Nodes(after) == L.Nodes(rings)
  {
  }

  /** Taking a node that is alone out of the world. */
  lemma Bare(rings: L.Rings, n: L.Node)
    requires L.World(rings) && n in rings && rings[n] == []
    ensures var bare := rings - {n};
            L.World(bare) && n !in L.Nodes(bare) && L.Nodes(rings) == L.Nodes(bare) + {n}
  {
    var bare := rings - {n};
    assert forall h | h in bare :: L.Circle(bare, h) == L.Circle(rings, h);
    forall g, h | g in bare && h in bare && g != h ensures L.Disjoint(L.Circle(bare, g), L.Circle(bare, h)) {
      assert L.Disjoint(L.Circle(rings, g), L.Circle(rings, h));
    }
    forall h | h in bare ensures n !in L.Circle(bare, h) {
      assert n in L.Circle(rings, n) && L.Disjoint(L.Circle(rings, n), L.Circle(rings, h));
    }
    forall x | x in L.Nodes(rings) ensures x in L.Nodes(bare) + {n} {
      var h :| h in rings && x in L.Circle(rings, h);
      assert h != n ==> x in L.Circle(bare, h);
    }
    forall x | x in L.Nodes(bare) + {n} ensures x in L.Nodes(rings) {
      if x == n {
        assert x in L.Circle(rings, n);
      } else {
        var h :| h in bare && x in L.Circle(bare, h);
        assert x in L.Circle(rings, h);
      }
    }
  }

  lemma EnteredNodes(rings: L.Rings, n: L.Node, h: L.Node)
    requires n in rings && rings[n] == [] && h in rings && h != n
    ensures L.Nodes(Entered(rings, n, h)) == L.Nodes(rings)
  {
    var after := Entered(rings, n, h);
    assert after[h] == rings[h] + [n];
    forall g, x | g in rings && x in L.Circle(rings, g) ensures x in L.Nodes(after) {
      if g == n {
        assert x in L.Circle(after, h);
      } else {
        assert x in L.Circle(after, g);
      }
    }
    forall g, x | g in after && x in L.Circle(after, g) ensures x in L.Nodes(rings) {
      assert x in L.Circle(rings, g) || x in L.Circle(rings, n);
    }
    SameNodes(rings, after);
  }

  lemma ReleasedNodes(rings: L.Rings, h: L.Node, n: L.Node)
    requires L.Holds(rings, h, n) && n !in rings
    ensures L.Nodes(Released(rings, h, n)) == L.Nodes(rings)
  {
    var after := Released(rings, h, n);
    forall g, x | g in rings && x in L.Circle(rings, g) ensures x in L.Nodes(after) {
      if x == n {
        assert x in L.Circle(after, n);
      } else {
        assert x in L.Circle(after, g);
      }
    }
    forall g, x | g in after && x in L.Circle(after, g) ensures x in L.Nodes(rings) {
      assert if g == n then x in L.Circle(rings, h) else x in L.Circle(rings, g);
    }
    SameNodes(rings, after);
  }

  lemma Neighbours(rings: L.Rings, g: L.Node, n: L.Node)
    requires L.World(rings) && L.Holds(rings, g, n)
    ensures n in L.Nodes(rings) && n.prev in L.Nodes(rings) && n.next in L.Nodes(rings) && L.Apart(rings)
  {
    var k :| 0 <= k < |rings[g]| && rings[g][k] == n;
    L.Reachable(rings, g, k);
  }

  lemma {:induction false} SplitMembers(s: seq<L.Node>, due: L.Node -> bool)
    ensures forall x :: x in s <==> x in L.Select(s, due) || x in L.Reject(s, due)
  {
    if s != [] {
      SplitMembers(s[1..], due);
      assert s == [s[0]] + s[1..];
    }
  }

  lemma CollectedNodes(rings: L.Rings, source: L.Node, target: L.Node, due: L.Node -> bool)
    requires source in rings && target in rings && source != target
    ensures L.Nodes(L.Both(rings, source, L.Reject(rings[source], due), target, rings[target] + L.Select(rings[source], due)))
            == L.Nodes(rings)
  {
    var after := L.Both(rings, source, L.Reject(rings[source], due), target, rings[target] + L.Select(rings[source], due));
    SplitMembers(rings[source], due);
    forall g, x | g in rings && x in L.Circle(rings, g) ensures x in L.Nodes(after) {
      assert x in L.Circle(after, g) || x in L.Circle(after, target);
    }
    forall g, x | g in after && x in L.Circle(after, g) ensures x in L.Nodes(rings) {
      assert x in L.Circle(rings, g) || x in L.Circle(rings, source);
    }
    SameNodes(rings, after);
  }

  // ---------------------------------------------------------------- the beginning, and expiry words

  /** Every node a ring of its own. */
  ghost function Alone(all: set<L.Node>): (rings: L.Rings)
    ensures rings.Keys == all
  {
    map h | h in all :: []
  }

  lemma AloneCircle(all: set<L.Node>, h: L.Node)
    requires h in all
    ensures L.Circle(Alone(all), h) == [h]
  {
  }

  lemma AloneApart(all: set<L.Node>)
    ensures L.Apart(Alone(all))
  {
    var rings := Alone(all);
    forall g, h | g in rings && h in rings && g != h ensures L.Disjoint(L.Circle(rings, g), L.Circle(rings, h)) {
      AloneCircle(all, g);
      AloneCircle(all, h);
    }
  }

  lemma AloneNode(all: set<L.Node>, x: L.Node)
    ensures x in L.Nodes(Alone(all)) ==> x in all
  {
    if x in L.Nodes(Alone(all)) {
      var h :| h in Alone(all) && x in L.Circle(Alone(all), h);
      hide Alone, L.Nodes;
      AloneCircle(all, h);
    }
  }

  lemma AloneNodes(all: set<L.Node>)
    ensures L.Nodes(Alone(all)) == all
  {
    hide Alone, L.Nodes, L.Circle;
    forall x | x in L.Nodes(Alone(all)) ensures x in all {
      AloneNode(all, x);
    }
    forall x | x in all ensures x in L.Nodes(Alone(all)) {
      AloneCircle(all, x);
      assert x in L.Circle(Alone(all), x);
    }
  }

  lemma AloneWorld(all: set<L.Node>)
    requires forall h | h in all :: h.next == h && h.prev == h
    ensures L.World(Alone(all)) && L.Nodes(Alone(all)) == all
  {
    hide Alone, L.Nodes, L.Circle, L.Apart, L.Linked;
    AloneApart(all);
    AloneNodes(all);
    AllLinked(all);
  }

  lemma AllLinked(all: set<L.Node>)
    requires forall h | h in all :: h.next == h && h.prev == h
    ensures forall h | h in Alone(all) :: L.Linked(L.Circle(Alone(all), h))
  {
    hide Alone, L.Circle, L.Linked;
    forall h | h in Alone(all) ensures L.Linked(L.Circle(Alone(all), h)) {
      AloneCircle(all, h);
      AloneLinked(h);
    }
  }

  lemma AloneMirrors<E(!new)>(all: set<L.Node>, heads: seq<L.Node>, node: map<E, L.Node>)
    requires |heads| == 9 && forall h | h in heads :: h in all
    ensures Mirrors(Alone(all), heads, node, [], 0)
  {
    forall p: nat | p <= 8 ensures heads[p] in Alone(all) {
      assert heads[p] in heads;
    }
  }

  lemma AloneLinked(n: L.Node)
    requires n.next == n && n.prev == n
    ensures L.Linked([n])
  {
  }

  /** The expiry words by timer. */
  ghost function WordsOf<E(!new)>(node: map<E, L.Node>, word: map<L.Node, nat>): map<E, nat> {
    map e | e in node && node[e] in word :: word[node[e]]
  }

  lemma WordsAdd<E(!new)>(heads: seq<L.Node>, node: map<E, L.Node>, word: map<L.Node, nat>, armed: seq<Armed<E>>, x: Armed<E>)
    requires Layout(heads, node) && WordsMatch(armed, WordsOf(node, word)) && x.elem in node && x.elem !in Names(armed)
    ensures WordsMatch(armed + [x], WordsOf(node, word[node[x.elem] := x.deadline % 0x1_0000_0000]))
  {
    forall y | y in armed ensures y.elem != x.elem {
      assert y.elem in Names(armed);
    }
  }

  lemma WordsDel<E(!new)>(armed: seq<Armed<E>>, words: map<E, nat>, e: E)
    requires WordsMatch(armed, words)
    ensures WordsMatch(Without(armed, e), words)
  {
  }

  // ---------------------------------------------------------------- one node

  lemma LastOf(rings: L.Rings, h: L.Node)
    requires L.World(rings) && h in rings
    ensures h in L.Nodes(rings) && h.prev in L.Nodes(rings)
  {
    L.FirstAndLast(rings, h);
    assert h in L.Circle(rings, h) && h.prev in L.Circle(rings, h);
  }

  /** Puts a node that is alone at the end of a list. */
  method EnterRing(n: L.Node, h: L.Node, ghost rings: L.Rings) returns (ghost after: L.Rings)
    requires L.World(rings) && n in rings && rings[n] == [] && h in rings && h != n
    modifies L.Nodes(rings)
    ensures L.World(after) && after == Entered(rings, n, h) && L.Nodes(after) == L.Nodes(rings)
  {
    ghost var bare := rings - {n};
    Bare(rings, n);
    EnteredNodes(rings, n, h);
    LastOf(bare, h);
    hide L.World, L.Nodes;
    n.next := n;
    n.prev := n;
    L.AddTail(n, h, bare);
    after := bare[h := bare[h] + [n]];
  }

  /** Takes a node out of the list that holds it; it is alone then. */
  method LeaveRing(n: L.Node, ghost g: L.Node, ghost rings: L.Rings) returns (ghost after: L.Rings)
    requires L.World(rings) && n !in rings && L.Holds(rings, g, n)
    modifies L.Nodes(rings)
    ensures L.World(after) && after == Released(rings, g, n) && L.Nodes(after) == L.Nodes(rings)
  {
    Neighbours(rings, g, n);
    hide L.World, L.Nodes, L.Left, L.Holds, L.Apart;
    ghost var h := L.DelInit(n, rings);
    L.OneHome(rings, g, h, n);
    ReleasedNodes(rings, g, n);
    after := Released(rings, g, n);
  }

  // ---------------------------------------------------------------- the wheel

  class Wheel<E(==,!new)> {
    const rate: int
    /** Heads of the eight buckets and of the list of collected timers. */
    const heads: seq<L.Node>
    /** The node in each timer element. */
    const node: map<E, L.Node>
    var tick: nat
    /** The expiry tick of an element, by its node. */
    var word: map<L.Node, nat>
    ghost var rings: L.Rings
    ghost var flat: Flat<E>

    ghost predicate Valid()
      reads this, L.Nodes(rings)
    {
      && Layout(heads, node)
      && L.World(rings)
      && Mirrors(rings, heads, node, flat.armed, flat.now)
      && (forall e | e in node :: node[e] in L.Nodes(rings))
      && WellFormed(flat) && rate == flat.rate && tick == flat.now % 0x1_0000_0000
      && WordsMatch(flat.armed, WordsOf(node, word))
    }

    constructor (rate: int, heads: seq<L.Node>, node: map<E, L.Node>)
      ensures this.rate == rate && this.heads == heads && this.node == node
    {
      this.rate := rate;
      this.heads := heads;
      this.node := node;
      tick := 0;
      word := map[];
      rings := map[];
      flat := Flat(rate, 0, [], []);
    }

    /** An empty wheel, over timer elements that have been initialised: each node is linked to itself. */
    method Init()
      requires 0 < rate && Layout(heads, node)
      requires forall e | e in node :: node[e].next == node[e] && node[e].prev == node[e]
      modifies this, set h | h in heads
      ensures Valid() && flat == Flat(rate, 0, [], []) && L.Nodes(rings) == Members()
    {
      hide Valid, L.Nodes, Layout, Alone, Members;
      InitHeads();
      tick := 0;
      word := map[];
      rings := Alone(Members());
      flat := Flat(rate, 0, [], []);
      InitialIsValid();
    }

    lemma InitialIsValid()
      requires 0 < rate && Layout(heads, node) && forall n | n in Members() :: n.next == n && n.prev == n
      requires tick == 0 && word == map[] && rings == Alone(Members()) && flat == Flat(rate, 0, [], [])
      ensures Valid() && L.Nodes(rings) == Members()
    {
      hide L.World, L.Nodes, Layout, Mirrors, Alone, Members;
      InitialRings();
    }

    lemma InitialRings()
      requires Layout(heads, node) && forall n | n in Members() :: n.next == n && n.prev == n
      ensures var start := Alone(Members());
              && L.World(start) && L.Nodes(start) == Members() && Mirrors(start, heads, node, [], 0)
    {
      hide L.World, L.Nodes, Mirrors, Alone, Members;
      AloneWorld(Members());
      AloneMirrors(Members(), heads, node);
    }

    /** All heads and all nodes of timers. */
    ghost function Members(): (all: set<L.Node>)
      ensures (forall h | h in heads :: h in all) && forall e | e in node :: node[e] in all
      ensures forall n | n in all :: n in heads || exists e :: e in node && node[e] == n
    {
      node.Values + set h | h in heads
    }

    /** Every head becomes a ring of its own. */
    method InitHeads()
      requires Layout(heads, node)
      requires forall e | e in node :: node[e].next == node[e] && node[e].prev == node[e]
      modifies set h | h in heads
      ensures forall n | n in Members() :: n.next == n && n.prev == n
    {
      for i := 0 to 9
        modifies set h | h in heads
        invariant forall k | 0 <= k < i :: heads[k].next == heads[k] && heads[k].prev == heads[k]
      {
        heads[i].next := heads[i];
        heads[i].prev := heads[i];
      }
      forall n | n in Members() ensures n.next == n && n.prev == n {
        assert n in heads || exists e :: e in node && node[e] == n;
      }
    }

    /** A timer runs unless its node is linked to itself. */
    predicate IsRunning(e: E)
      requires e in node
      reads node[e]
    {
      node[e].next != node[e] || node[e].prev != node[e]
    }

    lemma RunningIffArmed(e: E)
      requires Valid() && e in node
      ensures IsRunning(e) <==> e in Names(flat.armed)
    {
      ArmedIffLinked(rings, heads, node, flat.armed, flat.now, e);
      L.SelfLinkedIffAlone(rings, node[e]);
    }

    method Append(n: L.Node, h: L.Node)
      requires L.World(rings) && n in rings && rings[n] == [] && h in rings && h != n
      modifies this`rings, L.Nodes(rings)
      ensures L.World(rings) && rings == Entered(old(rings), n, h) && L.Nodes(rings) == old(L.Nodes(rings))
      ensures unchanged(`tick) && unchanged(`word) && unchanged(`flat)
    {
      hide L.World, L.Nodes, Entered;
      rings := EnterRing(n, h, rings);
    }

    method Release(n: L.Node, ghost g: L.Node)
      requires L.World(rings) && n !in rings && L.Holds(rings, g, n)
      modifies this`rings, L.Nodes(rings)
      ensures L.World(rings) && rings == Released(old(rings), g, n) && L.Nodes(rings) == old(L.Nodes(rings))
      ensures unchanged(`tick) && unchanged(`word) && unchanged(`flat)
    {
      hide L.World, L.Nodes, L.Holds, Released;
      rings := LeaveRing(n, g, rings);
    }

    method Start(e: E, millis: int)
      requires Valid() && e in node
      modifies this, L.Nodes(rings)
      ensures Valid() && flat == Add(old(flat), e, millis) && L.Nodes(rings) == old(L.Nodes(rings))
    {
      hide Valid, L.Nodes;
      Sane();
      RunningIffArmed(e);
      if !IsRunning(e) {
        Arm(e, millis);
      }
    }

    method Arm(e: E, millis: int)
      requires Valid() && e in node && e !in Names(flat.armed)
      modifies this, L.Nodes(rings)
      ensures Valid() && flat == Add(old(flat), e, millis) && L.Nodes(rings) == old(L.Nodes(rings))
    {
      hide L.World, L.Nodes, L.Apart, Layout, Mirrors, Names, WordsMatch, WordsOf, WellFormed, Delay, Entered, Add;
      Sane();
      var due := ExpiryTick(millis);
      ArmingKeeps(e, millis, due);
      ghost var f := Add(flat, e, millis);
      Append(node[e], heads[due % 8]);
      word := word[node[e] := due];
      flat := f;
    }

    /** What arming does to the rings and to the flat list. */
    lemma ArmingKeeps(e: E, millis: int, due: nat)
      requires Valid() && e in node && e !in Names(flat.armed)
      requires var deadline := flat.now + Delay(rate, millis);
               due == deadline % 0x1_0000_0000 && due % 8 == deadline % 8 && deadline != flat.now
      ensures node[e] in rings && rings[node[e]] == [] && heads[due % 8] in rings && heads[due % 8] != node[e]
      ensures var f, h := Add(flat, e, millis), heads[due % 8];
              && Mirrors(Entered(rings, node[e], h), heads, node, f.armed, f.now)
              && WellFormed(f) && f.rate == flat.rate && f.now == flat.now
              && WordsMatch(f.armed, WordsOf(node, word[node[e] := due]))
    {
      hide L.World, L.Nodes, L.Apart, Layout, Mirrors, WordsMatch, WordsOf, WellFormed, Delay, Entered;
      Sane();
      AloneUnlessArmed(e);
      var x := Armed(e, flat.now + Delay(rate, millis));
      MirrorsAdd(rings, heads, node, flat.armed, flat.now, x);
      WordsAdd(heads, node, word, flat.armed, x);
      AddKeeps(flat, e, millis);
    }

    /** The expiry tick of a timer started now. */
    method ExpiryTick(millis: int) returns (due: nat)
      requires 0 < rate && tick == flat.now % 0x1_0000_0000
      ensures var deadline := flat.now + Delay(rate, millis);
              due == deadline % 0x1_0000_0000 && due % 8 == deadline % 8 && deadline != flat.now
    {
      ExpiryWord(flat.now, TicksFromMillis(rate, millis), Delay(rate, millis));
      due := (tick + TicksFromMillis(rate, millis)) % 0x1_0000_0000;
    }

    lemma AloneUnlessArmed(e: E)
      requires Valid() && e in node
      ensures e !in Names(flat.armed) ==> node[e] in rings && rings[node[e]] == []
      ensures forall p: nat | p < 9 :: heads[p] in rings && heads[p] != node[e]
    {
      ArmedIffLinked(rings, heads, node, flat.armed, flat.now, e);
      forall p: nat | p < 9 ensures heads[p] in rings && heads[p] != node[e] {
        assert heads[p] in heads;
      }
    }

    method Stop(e: E)
      requires Valid() && e in node
      modifies this, L.Nodes(rings)
      ensures Valid() && flat == Del(old(flat), e) && L.Nodes(rings) == old(L.Nodes(rings))
    {
      hide Valid, L.Nodes;
      RunningIffArmed(e);
      if IsRunning(e) {
        Sane();
        DelKeeps(flat, e);
        Drop(node[e], e, Del(flat, e));
      }
    }

    /** The node of an armed timer leaves its list, because the timer is stopped or fires. */
    method Drop(n: L.Node, ghost e: E, ghost f: Flat<E>)
      requires Valid() && e in node && node[e] == n && e in Names(flat.armed)
      requires WellFormed(f) && f.rate == flat.rate && f.now == flat.now && f.armed == Without(flat.armed, e)
      modifies this, L.Nodes(rings)
      ensures Valid() && flat == f && L.Nodes(rings) == old(L.Nodes(rings))
    {
      hide L.World, L.Nodes, L.Apart, Layout, Mirrors, Names, WordsMatch, WordsOf, WellFormed, L.Holds, Released, Without;
      ghost var g := HeldIfArmed(e);
      MirrorsDel(rings, heads, node, flat.armed, flat.now, e, g);
      WordsDel(flat.armed, WordsOf(node, word), e);
      Release(n, g);
      flat := f;
    }

    lemma HeldIfArmed(e: E) returns (g: L.Node)
      requires Valid() && e in node && e in Names(flat.armed)
      ensures node[e] !in rings && L.Holds(rings, g, node[e]) && L.Apart(rings)
    {
      var p := PlaceOf(rings, heads, node, flat.armed, flat.now, e);
      g := heads[p];
      HeldIsNoHead(rings, g, node[e]);
    }

    /** The first half of a tick: count it and collect the timers that are due, while walking the
        current bucket. */
    method Collect()
      requires Valid() && Settled(flat)
      modifies this, L.Nodes(rings)
      ensures Valid() && flat == Advance(old(flat)) && L.Nodes(rings) == old(L.Nodes(rings))
    {
      hide L.World, L.Nodes, L.Apart, Mirrors, Listed, WordsMatch, L.Both, L.Select, L.Reject;
      AllHeads();
      AdvanceKeeps(flat);
      ExpiryWord(flat.now, 1, 1);
      tick := (tick + 1) % 0x1_0000_0000;
      var words, now := word, tick;
      var due := (n: L.Node) => n in words && words[n] == now;
      var source := heads[tick % 8];
      MirrorsAdvance(rings, heads, node, flat.armed, flat.now, due, WordsOf(node, word));
      CollectedNodes(rings, source, heads[8], due);
      rings := L.Collect(source, heads[8], due, rings);
      flat := Advance(flat);
    }

    lemma AllHeads()
      requires Valid()
      ensures forall p | 0 <= p < 9 :: heads[p] in rings
      ensures forall p | 0 <= p < 8 :: heads[p] != heads[8]
    {
    }

    /** The second half, one timer at a time: take the first collected timer. */
    method TakeExpired() returns (ghost e: E)
      requires Valid() && Due(flat) != []
      modifies this, L.Nodes(rings)
      ensures Valid() && Due(old(flat)) != [] && e == Due(old(flat))[0] && flat == Fire(old(flat))
      ensures L.Nodes(rings) == old(L.Nodes(rings))
    {
      hide L.World, L.Nodes, Mirrors, Listed, WordsMatch;
      e := Due(flat)[0];
      FirstDue();
      FireKeeps(flat);
      var n := L.First(heads[8], rings);
      Drop(n, e, Fire(flat));
    }

    lemma FirstDue()
      requires Valid() && Due(flat) != []
      ensures heads[8] in rings && rings[heads[8]] != []
      ensures var e := Due(flat)[0]; e in node && node[e] == rings[heads[8]][0] && e in Names(flat.armed)
    {
      var e := Due(flat)[0];
      assert Stands(rings[heads[8]], Listed(flat.armed, flat.now, 8), node);
      var _ := ListedFrom(flat.armed, flat.now, 8, e);
    }

    lemma Sane()
      requires Valid()
      ensures WellFormed(flat) && 0 < rate == flat.rate && |heads| == 9
    {
    }

    method NothingCollected() returns (b: bool)
      requires Valid()
      ensures b <==> Due(flat) == []
    {
      AllHeads();
      assert Stands(rings[heads[8]], Listed(flat.armed, flat.now, 8), node);
      b := L.Empty(heads[8], rings);
    }

    /** Calls on timers of this wheel. */
    ghost predicate Known(ops: seq<Op<E>>) {
      forall op | op in ops :: op.elem in node
    }

    /** The calls a callback makes. */
    method Make(ops: seq<Op<E>>)
      requires Valid() && Known(ops)
      modifies this, L.Nodes(rings)
      ensures Valid() && flat == ApplyAll(old(flat), ops) && L.Nodes(rings) == old(L.Nodes(rings))
    {
      hide Valid, L.Nodes, Add, Del;
      var i := 0;
      Sane();
      while i < |ops|
        invariant 0 <= i <= |ops|
        invariant Valid() && WellFormed(flat) && ApplyAll(flat, ops[i..]) == ApplyAll(old(flat), ops)
        invariant L.Nodes(rings) == old(L.Nodes(rings))
      {
        assert ops[i] in ops;
        match ops[i] {
          case OpAdd(e, millis) => Start(e, millis);
          case OpDel(e) => Stop(e);
        }
        Sane();
        assert ops[i..][1..] == ops[i + 1..];
        i := i + 1;
      }
    }

    lemma NoCalls()
      ensures Known([])
    {
    }

    /** One callback: the first collected timer fires, and makes its calls. */
    method Respond(ops: seq<Op<E>>)
      requires Valid() && Due(flat) != [] && Known(ops)
      modifies this, L.Nodes(rings)
      ensures Valid() && Due(old(flat)) != [] && flat == ApplyAll(Fire(old(flat)), ops)
      ensures WellFormed(flat) && |Due(flat)| < |Due(old(flat))| && L.Nodes(rings) == old(L.Nodes(rings))
    {
      hide Valid, L.Nodes, Listed, ApplyAll;
      Sane();
      FireKeeps(flat);
      ApplyAllKeeps(Fire(flat), ops);
      ghost var e := TakeExpired();
      Make(ops);
    }

    /** A whole tick with arbitrary callbacks. */
    method Drive(script: seq<seq<Op<E>>>)
      requires Valid() && Settled(flat) && forall ops | ops in script :: Known(ops)
      modifies this, L.Nodes(rings)
      ensures Valid() && Settled(flat) && flat == Tick(old(flat), script) && L.Nodes(rings) == old(L.Nodes(rings))
    {
      hide Valid, L.Nodes, Due, WellFormed, Known, Dispatch;
      Collect();
      Sane();
      DispatchSettles(flat, script);
      FireAll(script);
    }

    /** Collected timers fire until none is left. */
    method FireAll(script: seq<seq<Op<E>>>)
      requires Valid() && WellFormed(flat) && forall ops | ops in script :: Known(ops)
      modifies this, L.Nodes(rings)
      ensures Valid() && flat == Dispatch(old(flat), script) && L.Nodes(rings) == old(L.Nodes(rings))
    {
      hide Valid, L.Nodes, Due, WellFormed, ApplyAll, Fire, Known, Dispatch, CallsAt;
      NoCalls();
      var k := 0;
      var done := NothingCollected();
      while !done
        invariant Valid() && WellFormed(flat) && 0 <= k && (done <==> Due(flat) == [])
        invariant L.Nodes(rings) == old(L.Nodes(rings))
        invariant Dispatch(flat, script[Min(k, |script|)..]) == Dispatch(old(flat), script)
        decreases |Due(flat)|, !done
      {
        DispatchNext(flat, script, k);
        Respond(CallsAt(script, k));
        k := k + 1;
        done := NothingCollected();
      }
      DispatchDone(flat, script[Min(k, |script|)..]);
    }
  }

  /** The calls of the k-th callback, none if the script does not say. */
  function CallsAt<E>(script: seq<seq<Op<E>>>, k: nat): (ops: seq<Op<E>>)
    ensures ops == [] || ops in script
  {
    if k < |script| then script[k] else []
  }

  function Min(a: nat, b: nat): (m: nat)
    ensures m <= a && m <= b
  {
    if a < b then a else b
  }

  lemma DispatchNext<E(!new)>(f: Flat<E>, script: seq<seq<Op<E>>>, k: nat)
    requires WellFormed(f) && Due(f) != []
    ensures var next := ApplyAll(Fire(f), CallsAt(script, k));
            && WellFormed(next)
            && Dispatch(f, script[Min(k, |script|)..]) == Dispatch(next, script[Min(k + 1, |script|)..])
  {
    FireKeeps(f);
    ApplyAllKeeps(Fire(f), CallsAt(script, k));
    var rest := script[Min(k, |script|)..];
    assert k < |script| ==> rest[0] == script[k] && rest[1..] == script[k + 1..];
    hide Due, Fire, ApplyAll, WellFormed;
  }

  lemma DispatchDone<E(!new)>(f: Flat<E>, script: seq<seq<Op<E>>>)
    requires WellFormed(f) && Due(f) == []
    ensures Dispatch(f, script) == f
  {
  }
}
