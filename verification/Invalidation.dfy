/**
 The two set computations of recovery, as the loops that compute them: pruning a frontier to
 its dependency-closed part, and invalidating the dependents of failed items with a worklist
 or in rounds. Their results are `Kept` and `Dependents` of the plan's graph, so they do not
 depend on the order of the items.
 */
module Invalidation {
  import opened Graphs
  import opened WorkItems

  // ---- Pruning ----

  predicate WaitsOutside(item: WorkItem, s: set<Id>) {
    !(DependencySet(item) <= s)
  }

  lemma DroppedItemIsNotKept(items: seq<WorkItem>, s0: set<Id>, s: set<Id>, i: nat)
    requires UniqueIds(items) && i < |items|
    requires Kept(DependencyGraph(items), s0) <= s && WaitsOutside(items[i], s)
    ensures items[i].id !in Kept(DependencyGraph(items), s0)
  {
    var g := DependencyGraph(items);
    DependencyGraphAt(items, i);
    KeptIsGreatestClosed(g, s0, {});
    assert items[i].id in Kept(g, s0) ==> Next(g, items[i].id) <= Kept(g, s0);
  }

  /** One pass over the items, removing in place those that wait for something outside `s`. */
  method PruneOnce(items: seq<WorkItem>, s: set<Id>, ghost s0: set<Id>) returns (r: set<Id>, changed: bool)
    requires UniqueIds(items) && Kept(DependencyGraph(items), s0) <= s
    ensures Kept(DependencyGraph(items), s0) <= r <= s
    ensures changed ==> r < s
    ensures !changed ==> r == s && forall i :: 0 <= i < |items| && items[i].id in s ==> !WaitsOutside(items[i], s)
  {
    r, changed := s, false;
    for i := 0 to |items|
      invariant Kept(DependencyGraph(items), s0) <= r <= s
      invariant changed ==> r < s
      invariant !changed ==> r == s && forall k :: 0 <= k < i && items[k].id in s ==> !WaitsOutside(items[k], s)
    {
      if items[i].id in r && WaitsOutside(items[i], r) {
        DroppedItemIsNotKept(items, s0, r, i);
        r := r - {items[i].id};
        changed := true;
      }
    }
  }

  lemma StablePartIsClosed(items: seq<WorkItem>, s: set<Id>)
    requires UniqueIds(items)
    requires forall i :: 0 <= i < |items| && items[i].id in s ==> !WaitsOutside(items[i], s)
    ensures Closed(DependencyGraph(items), s)
  {
    DependencyGraphKeys(items);
    forall n | n in s ensures Next(DependencyGraph(items), n) <= s {
      if n in Ids(items) {
        var i :| 0 <= i < |items| && items[i].id == n;
        DependencyGraphAt(items, i);
      }
    }
  }

  /** The `while changed` loop ends with the greatest dependency-closed subset of its start. */
  method PruneToClosed(items: seq<WorkItem>, start: set<Id>) returns (kept: set<Id>)
    requires UniqueIds(items)
    ensures kept == Kept(DependencyGraph(items), start)
  {
    ghost var g := DependencyGraph(items);
    KeptIsGreatestClosed(g, start, {});
    kept := start;
    var changed := true;
    while changed
      invariant Kept(g, start) <= kept <= start
      invariant !changed ==> Closed(g, kept)
      decreases |kept|, changed
    {
      ghost var before := kept;
      kept, changed := PruneOnce(items, kept, start);
      if changed {
        SmallerSet(kept, before);
      } else {
        StablePartIsClosed(items, kept);
      }
    }
    KeptIsGreatestClosed(g, start, kept);
  }

  // ---- Invalidating ----

  ghost function Children(g: Graph, n: Id): set<Id> {
    set m | m in g && n in g[m]
  }

  /** The table of direct dependents: a node without a dependent may be missing. */
  ghost predicate IsChildTable(g: Graph, table: Graph) {
    forall n :: Next(table, n) == Children(g, n)
  }

  method AddChild(table: Graph, dependencies: seq<Id>, child: Id) returns (r: Graph)
    ensures forall n :: Next(r, n) == Next(table, n) + if n in dependencies then {child} else {}
  {
    r := table;
    for i := 0 to |dependencies|
      invariant forall n :: Next(r, n) == Next(table, n) + if n in dependencies[..i] then {child} else {}
    {
      var d := dependencies[i];
      assert dependencies[..i + 1] == dependencies[..i] + [d];
      r := r[d := Next(r, d) + {child}];
    }
  }

  method BuildChildTable(items: seq<WorkItem>) returns (table: Graph)
    requires UniqueIds(items)
    ensures IsChildTable(DependencyGraph(items), table)
  {
    table := map[];
    for i := 0 to |items|
      invariant forall n :: Next(table, n) == Children(DependencyGraph(items[..i]), n)
    {
      ghost var before := table;
      table := AddChild(table, items[i].dependencies, items[i].id);
      ExtendChildren(items, i);
      forall n ensures Next(table, n) == Children(DependencyGraph(items[..i + 1]), n) {
        assert Next(table, n) == Next(before, n) + if n in items[i].dependencies then {items[i].id} else {};
      }
    }
    assert items[..|items|] == items;
  }

  lemma ExtendChildren(items: seq<WorkItem>, i: nat)
    requires UniqueIds(items) && i < |items|
    ensures forall n ::
              Children(DependencyGraph(items[..i + 1]), n)
              == Children(DependencyGraph(items[..i]), n) + (if n in items[i].dependencies then {items[i].id} else {})
  {
    assert items[..i + 1][..i] == items[..i];
    DependencyGraphKeys(items[..i]);
    assert items[i].id !in Ids(items[..i]);
  }

  /** What must not be reused once the seeds have to run again: the seeds and all that depends on them. */
  ghost function Stale(items: seq<WorkItem>, seeds: set<Id>): set<Id> {
    Dependents(DependencyGraph(items), DependencyGraph(items).Keys, seeds)
  }

  // The loops below are proved against any bound `all` that holds the seeds and is closed
  // backward; `Stale` is the least such set, so they compute it.

  lemma BoundedByStale(items: seq<WorkItem>, seeds: set<Id>)
    requires seeds <= Ids(items)
    ensures seeds <= Stale(items, seeds) && ClosedBackward(DependencyGraph(items), Stale(items, seeds))
  {
    DependencyGraphKeys(items);
    DependentsIsLeast(DependencyGraph(items), DependencyGraph(items).Keys, seeds, {});
  }

  lemma ReachesStale(items: seq<WorkItem>, seeds: set<Id>, marked: set<Id>)
    requires seeds <= Ids(items) && seeds <= marked <= Stale(items, seeds)
    requires ClosedBackward(DependencyGraph(items), marked)
    ensures marked == Stale(items, seeds)
  {
    DependencyGraphKeys(items);
    DependentsIsLeast(DependencyGraph(items), DependencyGraph(items).Keys, seeds, marked);
  }

  /** Every unexplored mark is pending. */
  ghost predicate Marking(g: Graph, marked: set<Id>, pending: set<Id>) {
    pending <= marked && forall n :: n in marked - pending ==> Children(g, n) <= marked
  }

  lemma MarkingDone(g: Graph, marked: set<Id>)
    requires Marking(g, marked, {})
    ensures ClosedBackward(g, marked)
  {
    forall n | n in g && g[n] * marked != {} ensures n in marked {
      var m :| m in g[n] * marked;
      assert n in Children(g, m);
    }
  }

  lemma MarkingStep(g: Graph, all: set<Id>, marked: set<Id>, rest: set<Id>, current: Id)
    requires ClosedBackward(g, all) && marked <= all && Marking(g, marked, rest + {current})
    ensures Children(g, current) <= all
    ensures Marking(g, marked + Children(g, current), rest + (Children(g, current) - marked))
  {
    forall c | c in Children(g, current) ensures c in all {
      assert current in g[c] * all;
    }
  }

  /** Marks the children that are not marked yet and puts them on the worklist, in any order. */
  method MarkChildren(children: set<Id>, marked: set<Id>, pending: seq<Id>)
    returns (marked': set<Id>, pending': seq<Id>)
    ensures marked' == marked + children
    ensures Elements(pending') == Elements(pending) + (children - marked)
    ensures children <= marked ==> pending' == pending
  {
    marked', pending' := marked, pending;
    var todo := children;
    ghost var pushed: seq<Id> := [];
    while todo != {}
      invariant todo <= children
      invariant forall n :: n in marked' <==> n in marked || (n in children && n !in todo)
      invariant pending' == pending + pushed
      invariant forall n :: n in pushed <==> n in children && n !in todo && n !in marked
      decreases |todo|
    {
      var child :| child in todo;
      todo := todo - {child};
      if child !in marked' {
        marked' := marked' + {child};
        pending' := pending' + [child];
        pushed := pushed + [child];
      }
    }
    ElementsConcat(pending, pushed);
    assert pushed != [] ==> pushed[0] in pushed;
  }

  method MarkByWorklist(items: seq<WorkItem>, frontier: seq<Id>, ghost all: set<Id>) returns (marked: set<Id>)
    requires UniqueIds(items) && Elements(frontier) <= all && ClosedBackward(DependencyGraph(items), all)
    ensures Elements(frontier) <= marked <= all && ClosedBackward(DependencyGraph(items), marked)
  {
    ghost var g := DependencyGraph(items);
    var table := BuildChildTable(items);
    marked := Elements(frontier);
    var pending := frontier;
    while pending != []
      invariant Elements(frontier) <= marked <= all
      invariant Marking(g, marked, Elements(pending))
      decreases |all - marked|, |pending|
    {
      var current, rest := pending[|pending| - 1], pending[..|pending| - 1];
      assert Elements(pending) == Elements(rest) + {current} by {
        assert pending == rest + [current];
      }
      MarkingStep(g, all, marked, Elements(rest), current);
      ghost var before := marked;
      marked, pending := MarkChildren(Next(table, current), marked, rest);
      if marked != before {
        LessOutside(all, before, marked);
      }
    }
    assert Elements([]) == {};
    MarkingDone(g, marked);
  }

  /** The worklist of retry recovery, and with one seed that of architecture recovery. */
  method InvalidateByWorklist(items: seq<WorkItem>, frontier: seq<Id>) returns (invalidated: set<Id>)
    requires UniqueIds(items) && Elements(frontier) <= Ids(items)
    ensures invalidated == Stale(items, Elements(frontier))
  {
    BoundedByStale(items, Elements(frontier));
    invalidated := MarkByWorklist(items, frontier, Stale(items, Elements(frontier)));
    ReachesStale(items, Elements(frontier), invalidated);
  }

  // ---- The round-based form ----

  /** The nodes a round adds: unmarked ones that point at a marked one. */
  ghost function Round(g: Graph, affected: set<Id>): set<Id> {
    set n | n in g && n !in affected && g[n] * affected != {}
  }

  lemma RoundStep(g: Graph, all: set<Id>, affected: set<Id>)
    requires ClosedBackward(g, all) && affected <= all
    ensures Round(g, affected) <= all
    ensures Round(g, affected) == {} ==> ClosedBackward(g, affected)
  {
    forall n | n in Round(g, affected) ensures n in all {
      var m :| m in g[n] * affected;
      assert m in g[n] * all;
    }
    if Round(g, affected) == {} {
      forall n | n in g && g[n] * affected != {} ensures n in affected {
        assert n !in Round(g, affected);
      }
    }
  }

  lemma RoundOfItems(items: seq<WorkItem>, affected: set<Id>, descendants: set<Id>)
    requires UniqueIds(items)
    requires descendants == set i | 0 <= i < |items| && items[i].id !in affected
                                    && DependencySet(items[i]) * affected != {} :: items[i].id
    ensures descendants == Round(DependencyGraph(items), affected)
  {
    var g := DependencyGraph(items);
    DependencyGraphKeys(items);
    forall i | 0 <= i < |items| ensures items[i].id in g && g[items[i].id] == DependencySet(items[i]) {
      DependencyGraphAt(items, i);
    }
    forall n | n in Round(g, affected) ensures n in descendants {
      var i :| 0 <= i < |items| && items[i].id == n;
    }
  }

  method MarkInRounds(items: seq<WorkItem>, seeds: set<Id>, ghost all: set<Id>) returns (affected: set<Id>)
    requires UniqueIds(items) && seeds <= all && ClosedBackward(DependencyGraph(items), all)
    ensures seeds <= affected <= all && ClosedBackward(DependencyGraph(items), affected)
  {
    affected := seeds;
    while true
      invariant seeds <= affected <= all
      decreases |all - affected|
    {
      var descendants := set i | 0 <= i < |items| && items[i].id !in affected
                                 && DependencySet(items[i]) * affected != {} :: items[i].id;
      RoundOfItems(items, affected, descendants);
      RoundStep(DependencyGraph(items), all, affected);
      if descendants == {} {
        break;
      }
      LessOutside(all, affected, affected + descendants);
      affected := affected + descendants;
    }
  }

  /** Adds every item that waits for a marked one until there is none; it agrees with the worklist. */
  method InvalidateInRounds(items: seq<WorkItem>, seeds: set<Id>) returns (affected: set<Id>)
    requires UniqueIds(items) && seeds <= Ids(items)
    ensures affected == Stale(items, seeds)
  {
    BoundedByStale(items, seeds);
    affected := MarkInRounds(items, seeds, Stale(items, seeds));
    ReachesStale(items, seeds, affected);
  }
}
