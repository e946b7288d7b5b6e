/**
 Finite directed graphs over identifiers, as the plan, the delivery contract and the
 architecture validator all use them: a dictionary from a node to the set of nodes it
 points at. A node without an entry has no outgoing edge.

 `Reaches` is "by one or more edges"; `ReachesOrIs` also holds of a node and itself.
 */
module Graphs {

  type Id = string
  type Graph = map<Id, set<Id>>

  function Next(g: Graph, n: Id): set<Id> {
    if n in g then g[n] else {}
  }

  /** Every node a search can meet: those with an entry and everything they point at. */
  ghost function Nodes(g: Graph): set<Id> {
    g.Keys + set n, m | n in g && m in g[n] :: m
  }

  function Elements(s: seq<Id>): set<Id> {
    set n | n in s
  }

  lemma ElementsConcat(a: seq<Id>, b: seq<Id>)
    ensures Elements(a + b) == Elements(a) + Elements(b)
  {
  }

  ghost predicate Walk(g: Graph, w: seq<Id>) {
    |w| > 0 && forall i :: 0 < i < |w| ==> w[i] in Next(g, w[i - 1])
  }

  ghost predicate WalkFromTo(g: Graph, w: seq<Id>, a: Id, b: Id) {
    |w| > 1 && w[0] == a && w[|w| - 1] == b && Walk(g, w)
  }

  ghost predicate Reaches(g: Graph, a: Id, b: Id) {
    exists w :: WalkFromTo(g, w, a, b)
  }

  ghost predicate ReachesOrIs(g: Graph, a: Id, b: Id) {
    a == b || Reaches(g, a, b)
  }

  ghost predicate Acyclic(g: Graph) {
    forall n :: !Reaches(g, n, n)
  }

  /** Every edge leaving `s` stays in `s`. */
  ghost predicate Closed(g: Graph, s: set<Id>) {
    forall n :: n in s ==> Next(g, n) <= s
  }

  /** Every node with an edge into `s` is in `s`. */
  ghost predicate ClosedBackward(g: Graph, s: set<Id>) {
    forall n :: n in g && g[n] * s != {} ==> n in s
  }

  /** Every edge of the graph ends in a node that has an entry. */
  ghost predicate Complete(g: Graph) {
    forall n :: n in g ==> g[n] <= g.Keys
  }

  lemma EdgeReaches(g: Graph, a: Id, b: Id)
    requires b in Next(g, a)
    ensures Reaches(g, a, b)
  {
    assert WalkFromTo(g, [a, b], a, b);
  }

  lemma ReachesTransitive(g: Graph, a: Id, b: Id, c: Id)
    requires Reaches(g, a, b) && Reaches(g, b, c)
    ensures Reaches(g, a, c)
  {
    var v :| WalkFromTo(g, v, a, b);
    var w :| WalkFromTo(g, w, b, c);
    var u := v + w[1..];
    forall i | 0 < i < |u| ensures u[i] in Next(g, u[i - 1]) {
      if i >= |v| {
        assert u[i] == w[i - |v| + 1];
        assert u[i - 1] == w[i - |v|];
      }
    }
    assert WalkFromTo(g, u, a, c);
  }

  lemma EdgeThenReaches(g: Graph, a: Id, b: Id, c: Id)
    requires b in Next(g, a) && ReachesOrIs(g, b, c)
    ensures Reaches(g, a, c)
  {
    EdgeReaches(g, a, b);
    if b != c {
      ReachesTransitive(g, a, b, c);
    }
  }

  /** The first edge of a walk. */
  lemma FirstEdge(g: Graph, a: Id, c: Id) returns (b: Id)
    requires Reaches(g, a, c)
    ensures b in Next(g, a) && ReachesOrIs(g, b, c)
  {
    var w :| WalkFromTo(g, w, a, c);
    b := w[1];
    if |w| > 2 {
      assert WalkFromTo(g, w[1..], b, c);
    }
  }

  /** The last edge of a walk. */
  lemma LastEdge(g: Graph, a: Id, c: Id) returns (b: Id)
    requires Reaches(g, a, c)
    ensures c in Next(g, b) && ReachesOrIs(g, a, b)
  {
    var w :| WalkFromTo(g, w, a, c);
    b := w[|w| - 2];
    if |w| > 2 {
      assert WalkFromTo(g, w[..|w| - 1], a, b);
    }
  }

  lemma {:induction false} WalkStaysInside(g: Graph, s: set<Id>, w: seq<Id>)
    requires Closed(g, s) && Walk(g, w) && w[0] in s
    ensures forall i :: 0 <= i < |w| ==> w[i] in s
  {
    for i := 1 to |w|
      invariant forall j :: 0 <= j < i ==> w[j] in s
    {
      assert w[i] in Next(g, w[i - 1]);
    }
  }

  lemma ClosedKeepsReachable(g: Graph, s: set<Id>, a: Id, b: Id)
    requires Closed(g, s) && a in s && Reaches(g, a, b)
    ensures b in s
  {
    var w :| WalkFromTo(g, w, a, b);
    WalkStaysInside(g, s, w);
  }

  /** A set that contains every predecessor of its members contains whatever reaches it. */
  lemma PredecessorClosedKeepsSources(g: Graph, s: set<Id>, a: Id, b: Id)
    requires ClosedBackward(g, s)
    requires b in s && Reaches(g, a, b)
    ensures a in s
  {
    var w :| WalkFromTo(g, w, a, b);
    var i := |w| - 1;
    while i > 0
      invariant 0 <= i < |w| && w[i] in s
    {
      assert w[i] in Next(g, w[i - 1]) * s;
      i := i - 1;
    }
  }

  /** Every edge leaving `s` stays in `s`, except perhaps from the nodes of `exempt`. */
  ghost predicate ClosedExcept(g: Graph, s: set<Id>, exempt: set<Id>) {
    forall n :: n in s && n !in exempt ==> Next(g, n) <= s
  }

  lemma PartOfWalk(g: Graph, w: seq<Id>, i: nat, j: nat)
    requires Walk(g, w) && i < j < |w|
    ensures Reaches(g, w[i], w[j])
  {
    var part := w[i..j + 1];
    forall k | 0 < k < |part| ensures part[k] in Next(g, part[k - 1]) {
      assert part[k] == w[i + k] && part[k - 1] == w[i + k - 1];
    }
    assert WalkFromTo(g, part, w[i], w[j]);
  }

  /** A walk can leave such a set only through an exempt member. */
  lemma LeavesThroughExempt(g: Graph, s: set<Id>, exempt: set<Id>, a: Id, b: Id)
    requires ClosedExcept(g, s, exempt) && a in s && b !in s && Reaches(g, a, b)
    ensures exists x :: x in exempt && x in s && ReachesOrIs(g, a, x) && Reaches(g, x, b)
  {
    var w :| WalkFromTo(g, w, a, b);
    var i := 0;
    while w[i + 1] in s
      invariant 0 <= i < |w| - 1 && w[i] in s
      decreases |w| - i
    {
      i := i + 1;
    }
    assert w[i + 1] in Next(g, w[i]);
    PartOfWalk(g, w, i, |w| - 1);
    if i > 0 {
      PartOfWalk(g, w, 0, i);
    }
    assert w[i] in exempt && ReachesOrIs(g, a, w[i]);
  }

  // ---- Sizes, for termination ----

  lemma SmallerSet<T>(a: set<T>, b: set<T>)
    requires a < b
    ensures |a| < |b|
  {
    assert b == a + (b - a) && b - a != {};
  }

  /** What is still outside a growing set shrinks. */
  lemma LessOutside<T>(all: set<T>, a: set<T>, b: set<T>)
    requires a < b <= all
    ensures |all - b| < |all - a|
  {
    SmallerSet(all - b, all - a);
  }

  // ---- Every finite set whose members all have a successor inside it holds a cycle. ----

  lemma {:induction false} Pigeonhole(s: seq<Id>, d: set<Id>)
    requires |s| > |d| && forall i :: 0 <= i < |s| ==> s[i] in d
    ensures exists i, j :: 0 <= i < j < |s| && s[i] == s[j]
    decreases |s|
  {
    var last := s[|s| - 1];
    var init := s[..|s| - 1];
    if last in init {
      var i :| 0 <= i < |init| && init[i] == last;
      assert s[i] == s[|s| - 1];
    } else {
      forall i | 0 <= i < |init| ensures init[i] in d - {last} {
        assert init[i] in init;
      }
      assert |d - {last}| == |d| - 1;
      Pigeonhole(init, d - {last});
    }
  }

  lemma {:induction false} LongWalkInside(g: Graph, d: set<Id>, start: Id, n: nat) returns (w: seq<Id>)
    requires start in d && forall x :: x in d ==> Next(g, x) * d != {}
    ensures |w| == n + 1 && Walk(g, w) && forall i :: 0 <= i < |w| ==> w[i] in d
  {
    w := [start];
    while |w| < n + 1
      invariant 0 < |w| <= n + 1 && Walk(g, w)
      invariant forall i :: 0 <= i < |w| ==> w[i] in d
    {
      var next :| next in Next(g, w[|w| - 1]) * d;
      w := w + [next];
    }
  }

  lemma StuckSetHasCycle(g: Graph, d: set<Id>)
    requires d != {} && forall x :: x in d ==> Next(g, x) * d != {}
    ensures exists n :: n in d && Reaches(g, n, n)
  {
    var start :| start in d;
    var w := LongWalkInside(g, d, start, |d|);
    Pigeonhole(w, d);
    var i, j :| 0 <= i < j < |w| && w[i] == w[j];
    PartOfWalk(g, w, i, j);
    assert w[i] in d && Reaches(g, w[i], w[i]);
  }

  lemma StuckSetMeansCycle(g: Graph, d: set<Id>)
    requires d != {} && forall x :: x in d ==> Next(g, x) * d != {}
    ensures !Acyclic(g)
  {
    StuckSetHasCycle(g, d);
    var n :| n in d && Reaches(g, n, n);
  }

  // ---- The two set transformers of recovery, defined by reachability alone. ----

  /** The members of `within` that are a seed or transitively depend on one. */
  ghost function Dependents(g: Graph, within: set<Id>, seeds: set<Id>): set<Id> {
    set n | n in within && exists s :: s in seeds && ReachesOrIs(g, n, s)
  }

  /** The members of `s` all of whose transitive dependencies are in `s`. */
  ghost function Kept(g: Graph, s: set<Id>): set<Id> {
    set n | n in s && forall m :: Reaches(g, n, m) ==> m in s
  }

  lemma KeptIsGreatestClosed(g: Graph, s: set<Id>, t: set<Id>)
    ensures Kept(g, s) <= s && Closed(g, Kept(g, s))
    ensures t <= s && Closed(g, t) ==> t <= Kept(g, s)
  {
    forall n, m | n in Kept(g, s) && m in Next(g, n) ensures m in Kept(g, s) {
      EdgeReaches(g, n, m);
      forall k | Reaches(g, m, k) ensures k in s {
        EdgeThenReaches(g, n, m, k);
      }
    }
    if t <= s && Closed(g, t) {
      forall n, m | n in t && Reaches(g, n, m) ensures m in s {
        ClosedKeepsReachable(g, t, n, m);
      }
    }
  }

  /** Removing the dependents of some seeds keeps a dependency-closed set closed. */
  lemma RemovingDependentsKeepsClosed(g: Graph, within: set<Id>, s: set<Id>, seeds: set<Id>)
    requires Closed(g, s) && s <= within
    ensures Closed(g, s - Dependents(g, within, seeds))
  {
    RemovingDependentsKeepsClosedExcept(g, within, s, {}, seeds);
  }

  lemma RemovingDependentsKeepsClosedExcept(g: Graph, within: set<Id>, s: set<Id>, exempt: set<Id>, seeds: set<Id>)
    requires ClosedExcept(g, s, exempt) && s <= within
    ensures ClosedExcept(g, s - Dependents(g, within, seeds), exempt)
  {
    var left := s - Dependents(g, within, seeds);
    forall n, m | n in left && n !in exempt && m in Next(g, n) ensures m in left {
      if m in Dependents(g, within, seeds) {
        var x :| x in seeds && ReachesOrIs(g, m, x);
        EdgeThenReaches(g, n, m, x);
      }
    }
  }

  lemma DependentsOfUnion(g: Graph, within: set<Id>, a: set<Id>, b: set<Id>)
    ensures Dependents(g, within, a + b) == Dependents(g, within, a) + Dependents(g, within, b)
  {
  }

  /** `Dependents` is the least set that holds the seeds and is closed under "is depended on by". */
  lemma DependentsIsLeast(g: Graph, within: set<Id>, seeds: set<Id>, t: set<Id>)
    requires within == g.Keys && seeds <= within
    ensures seeds <= Dependents(g, within, seeds)
    ensures ClosedBackward(g, Dependents(g, within, seeds))
    ensures seeds <= t && ClosedBackward(g, t) ==> Dependents(g, within, seeds) <= t
  {
    var d := Dependents(g, within, seeds);
    forall n | n in g && g[n] * d != {} ensures n in d {
      var m :| m in g[n] * d;
      var s :| s in seeds && ReachesOrIs(g, m, s);
      EdgeThenReaches(g, n, m, s);
    }
    if seeds <= t && ClosedBackward(g, t) {
      forall n | n in d ensures n in t {
        var s :| s in seeds && ReachesOrIs(g, n, s);
        if n != s {
          PredecessorClosedKeepsSources(g, t, n, s);
        }
      }
    }
  }
}
