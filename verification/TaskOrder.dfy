/** `topological_order`: Kahn's algorithm over task documents with a sorted ready list. */
module TaskOrder {
  import opened Orders
  import opened Graphs

  datatype Task = Task(id: string, dependencies: seq<string>)

  datatype Failure = DuplicateId | MissingDependency | CyclicGraph(stuck: set<string>)
  datatype Result = Ordered(ids: seq<string>) | Rejected(why: Failure)

  ghost predicate UniqueIds(tasks: seq<Task>) {
    forall i, j :: 0 <= i < j < |tasks| ==> tasks[i].id != tasks[j].id
  }

  ghost predicate Closed(tasks: seq<Task>) {
    forall t :: t in tasks ==> forall d :: d in t.dependencies ==> exists u :: u in tasks && u.id == d
  }

  /** Each task id with the set of ids it depends on. */
  ghost function DependencyGraph(tasks: seq<Task>): (g: Graph)
    requires UniqueIds(tasks)
    ensures forall t :: t in tasks ==> t.id in g && g[t.id] == Elements(t.dependencies)
    ensures forall x :: x in g ==> exists t :: t in tasks && t.id == x
  {
    if tasks == [] then map[]
    else
      var rest := tasks[..|tasks| - 1];
      var last := tasks[|tasks| - 1];
      assert tasks == rest + [last];
      DependencyGraph(rest)[last.id := Elements(last.dependencies)]
  }

  // ----- orders of a graph -----

  /** Every node once, after all nodes it depends on. */
  ghost predicate Topological(g: Graph, r: seq<string>) {
    && NoDuplicates(r) && Elements(r) == g.Keys
    && forall k :: 0 <= k < |r| ==> g[r[k]] <= Elements(r[..k])
  }

  /** Where `r` and `o` first differ, `r` has the smaller id. */
  ghost predicate LexAtMost(r: seq<string>, o: seq<string>) {
    forall k :: 0 <= k < |r| && k < |o| && r[..k] == o[..k] ==> StrLe(r[k], o[k])
  }

  ghost predicate LeastTopological(g: Graph, r: seq<string>) {
    Topological(g, r) && forall o :: Topological(g, o) ==> LexAtMost(r, o)
  }

  ghost predicate Ready(g: Graph, done: set<string>, x: string) {
    x in g && x !in done && g[x] <= done
  }

  ghost predicate LeastReady(g: Graph, done: set<string>, x: string) {
    Ready(g, done, x) && forall y :: Ready(g, done, y) ==> StrLe(x, y)
  }

  /** Each element is the least node whose dependencies all come before it. */
  ghost predicate Greedy(g: Graph, r: seq<string>) {
    forall k :: 0 <= k < |r| ==> LeastReady(g, Elements(r[..k]), r[k])
  }

  lemma GreedyIsTopological(g: Graph, r: seq<string>)
    requires Greedy(g, r) && Elements(r) == g.Keys
    ensures Topological(g, r)
  {
    forall k | 0 <= k < |r| ensures g[r[k]] <= Elements(r[..k]) {
      assert LeastReady(g, Elements(r[..k]), r[k]);
    }
  }

  /** Taking the least ready node each time gives the least order of all. */
  lemma GreedyIsLeast(g: Graph, r: seq<string>)
    requires Greedy(g, r) && Elements(r) == g.Keys
    ensures LeastTopological(g, r)
  {
    GreedyIsTopological(g, r);
    forall o, k | Topological(g, o) && 0 <= k < |r| && k < |o| && r[..k] == o[..k] ensures StrLe(r[k], o[k]) {
      assert o[k] in Elements(o);
      forall i | 0 <= i < k ensures o[..k][i] != o[k] {}
      assert Ready(g, Elements(o[..k]), o[k]);
      assert LeastReady(g, Elements(r[..k]), r[k]);
    }
  }

  lemma {:induction false} PrefixesAgree(r: seq<string>, o: seq<string>, k: nat)
    requires LexAtMost(r, o) && LexAtMost(o, r) && k <= |r| == |o|
    ensures r[..k] == o[..k]
  {
    hide StrLe;
    if k > 0 {
      PrefixesAgree(r, o, k - 1);
      StrTotal(r[k - 1], o[k - 1]);
      assert r[..k] == r[..k - 1] + [r[k - 1]] && o[..k] == o[..k - 1] + [o[k - 1]];
    }
  }

  lemma LeastIsUnique(g: Graph, r: seq<string>, o: seq<string>)
    requires LeastTopological(g, r) && LeastTopological(g, o)
    ensures r == o
  {
    assert LexAtMost(r, o) && LexAtMost(o, r) && |r| == |o| by {
      ElementsSize(r);
      ElementsSize(o);
    }
    hide *;
    PrefixesAgree(r, o, |r|);
    assert r[..|r|] == r && o[..|o|] == o;
  }

  /** An order of the dependencies exists only when the graph has no cycle. */
  lemma OrderedIsAcyclic(g: Graph, r: seq<string>)
    requires Topological(g, r)
    ensures Acyclic(g)
  {
    PrefixClosedIsAcyclic(g, r);
  }

  /** When nothing is ready any more, the nodes left over contain a cycle. */
  lemma StuckNodes(g: Graph, done: set<string>)
    requires forall x :: x in g ==> g[x] <= g.Keys
    requires forall x :: !Ready(g, done, x)
    requires done <= g.Keys && |done| != |g|
    ensures g.Keys - done != {} && Trap(g, g.Keys - done) && !Acyclic(g)
  {
    var trap := g.Keys - done;
    assert |g.Keys| == |g| && (g.Keys <= done ==> done == g.Keys);
    var left :| left in g.Keys && left !in done;
    assert left in trap;
    forall a | a in trap ensures HasExit(g, trap, a) {
      assert !Ready(g, done, a);
      var b :| b in g[a] && b !in done;
      assert b in trap && Edge(g, a, b);
    }
    TrapHasCycle(g, trap);
  }

  // ----- the answer and its independence of the input order -----

  /** What `topological_order` promises about a task list. */
  ghost predicate Answer(tasks: seq<Task>, r: Result) {
    && (r.Ordered? <==> UniqueIds(tasks) && Closed(tasks) && Acyclic(DependencyGraph(tasks)))
    && (r.Ordered? ==> LeastTopological(DependencyGraph(tasks), r.ids))
    && (r == Rejected(DuplicateId) <==> !UniqueIds(tasks))
    && (r == Rejected(MissingDependency) <==> UniqueIds(tasks) && !Closed(tasks))
  }

  lemma SameGraph(a: seq<Task>, b: seq<Task>)
    requires UniqueIds(a) && UniqueIds(b)
    requires forall t :: t in a <==> t in b
    ensures DependencyGraph(a) == DependencyGraph(b)
  {
    var g, h := DependencyGraph(a), DependencyGraph(b);
    forall x ensures x in g <==> x in h {
      if x in g { var t :| t in a && t.id == x; assert t in b; }
      if x in h { var t :| t in b && t.id == x; assert t in a; }
    }
    forall x | x in g ensures g[x] == h[x] {
      var t :| t in a && t.id == x;
      assert t in b;
    }
  }

  /** The order does not depend on how the task documents were listed. */
  lemma InputOrderIrrelevant(a: seq<Task>, b: seq<Task>, r: Result, q: Result)
    requires UniqueIds(a) && UniqueIds(b)
    requires forall t :: t in a <==> t in b
    requires Answer(a, r) && Answer(b, q)
    ensures r.Ordered? <==> q.Ordered?
    ensures r.Ordered? ==> r == q
  {
    SameGraph(a, b);
    assert Closed(a) <==> Closed(b);
    if r.Ordered? && q.Ordered? { LeastIsUnique(DependencyGraph(a), r.ids, q.ids); }
  }

  // ----- the algorithm -----

  /** Index the documents by id, refusing duplicates. */
  method IndexTasks(tasks: seq<Task>) returns (unique: bool, byId: map<string, Task>)
    ensures unique <==> UniqueIds(tasks)
    ensures unique ==> byId.Keys == (set t | t in tasks :: t.id)
    ensures unique ==> forall t :: t in tasks ==> t.id in byId && byId[t.id] == t
    ensures unique ==> forall x :: x in byId ==> byId[x] in tasks && byId[x].id == x
  {
    byId := map[];
    for i := 0 to |tasks|
      invariant forall x :: x in byId ==> byId[x] in tasks[..i] && byId[x].id == x
      invariant forall j :: 0 <= j < i ==> tasks[j].id in byId && byId[tasks[j].id] == tasks[j]
      invariant forall j, k :: 0 <= j < k < i ==> tasks[j].id != tasks[k].id
    {
      if tasks[i].id in byId { return false, byId; }
      byId := byId[tasks[i].id := tasks[i]];
    }
    unique := true;
    assert tasks[..|tasks|] == tasks;
  }

  /** Exactly the nodes that depend on `d`. */
  ghost predicate Depend(g: Graph, d: string, dependents: set<string>) {
    forall x :: x in dependents <==> x in g && d in g[x]
  }

  /** The dependency sets of all nodes but those still to do, inverted. */
  ghost predicate Inverted(g: Graph, todo: set<string>, dependents: map<string, set<string>>) {
    && dependents.Keys == g.Keys
    && forall d :: d in g ==> dependents[d] == set x | x in g && x !in todo && d in g[x]
  }

  lemma InvertOne(g: Graph, todo: set<string>, dependents: map<string, set<string>>, x: string)
    requires Inverted(g, todo, dependents) && x in todo && x in g
    ensures Inverted(g, todo - {x}, map d | d in g :: if d in g[x] then dependents[d] + {x} else dependents[d])
  {}

  /** Invert the dependency sets. */
  method Dependents(g: Graph) returns (dependents: map<string, set<string>>)
    requires forall x :: x in g ==> g[x] <= g.Keys
    ensures dependents.Keys == g.Keys
    ensures forall d :: d in g ==> Depend(g, d, dependents[d])
  {
    dependents := map x | x in g :: {};
    var todo := g.Keys;
    while todo != {}
      invariant todo <= g.Keys && dependents.Keys == g.Keys && Inverted(g, todo, dependents)
      decreases |todo|
    {
      hide Inverted;
      var x :| x in todo;
      InvertOne(g, todo, dependents, x);
      dependents := map d | d in g :: if d in g[x] then dependents[d] + {x} else dependents[d];
      todo := todo - {x};
    }
  }

  ghost function ReadySet(g: Graph, done: set<string>): set<string> {
    set x | x in g && Ready(g, done, x)
  }

  /** The ready list holds each ready node once. */
  ghost predicate Frontier(g: Graph, done: set<string>, ready: seq<string>) {
    NoDuplicates(ready) && Elements(ready) == ReadySet(g, done)
  }

  /** The other ready nodes, each once. */
  ghost predicate ReadyBut(g: Graph, done: set<string>, current: string, ready: seq<string>) {
    NoDuplicates(ready) && Elements(ready) == ReadySet(g, done) - {current}
  }

  /** Strike `current` from the dependencies of its dependents; list those that become ready. */
  method Relax(ghost g: Graph, current: string, dependents: set<string>, dependencies: map<string, set<string>>,
               ready: seq<string>, ordered: seq<string>, ghost before: set<string>)
    returns (dependencies': map<string, set<string>>, ready': seq<string>)
    requires Elements(ordered) == before + {current} && current !in before
    requires Depend(g, current, dependents)
    requires dependencies.Keys == g.Keys
    requires forall x :: x in g ==> dependencies[x] == g[x] - before
    requires ReadyBut(g, before, current, ready)
    ensures dependencies'.Keys == g.Keys
    ensures forall x :: x in g ==> dependencies'[x] == g[x] - Elements(ordered)
    ensures Frontier(g, Elements(ordered), ready')
  {
    hide SortedSet, StrictlyIncreasing, NoDuplicates;
    var names := SortedSet(dependents);
    dependencies', ready' := dependencies, ready;
    ghost var done := before + {current};
    ghost var struck: set<string> := {};
    for i := 0 to |names|
      invariant dependencies'.Keys == g.Keys
      invariant struck == Elements(names[..i]) && struck <= dependents
      invariant forall x :: x in g && x in struck ==> dependencies'[x] == g[x] - done
      invariant forall x :: x in g && x !in struck ==> dependencies'[x] == g[x] - before
      invariant NoDuplicates(ready')
      invariant Elements(ready') == Elements(ready) + struck * ReadySet(g, done)
    {
      var dependent := names[i];
      NextIsNew(names, i);
      assert dependent in dependents && dependent !in Elements(ready');
      dependencies' := dependencies'[dependent := dependencies'[dependent] - {current}];
      assert dependencies'[dependent] == g[dependent] - done;
      assert dependent in ReadySet(g, done) <==> dependencies'[dependent] == {} && dependent !in ordered by {
        StruckReady(g, done, ordered, dependent);
      }
      if dependencies'[dependent] == {} && dependent !in ordered {
        AppendNew(ready', dependent);
        ready' := ready' + [dependent];
      }
      struck := struck + {dependent};
    }
    assert names[..|names|] == names;
    assert struck == dependents;
    RelaxedFrontier(g, before, current, dependents);
    assert forall x :: x in g && x !in dependents ==> g[x] - before == g[x] - done;
  }

  lemma StruckReady(g: Graph, done: set<string>, ordered: seq<string>, x: string)
    requires x in g && done == Elements(ordered)
    ensures x in ReadySet(g, done) <==> g[x] - done == {} && x !in ordered
  {
    if g[x] - done == {} {
      forall y | y in g[x] ensures y in done { assert y !in g[x] - done; }
    }
  }

  lemma RelaxedFrontier(g: Graph, before: set<string>, current: string, dependents: set<string>)
    requires current !in before && Depend(g, current, dependents)
    ensures ReadySet(g, before) - {current} + dependents * ReadySet(g, before + {current})
            == ReadySet(g, before + {current})
  {}

  lemma SortKeepsFrontier(g: Graph, done: set<string>, ready: seq<string>)
    requires Frontier(g, done, ready)
    ensures Frontier(g, done, Sort(ready, StrLe))
    ensures ready != [] ==> Sort(ready, StrLe) != [] && LeastReady(g, done, Sort(ready, StrLe)[0])
  {
    var sorted := Sort(ready, StrLe);
    StrTotalOrder();
    SortIsSorted(ready, StrLe);
    SameDistinct(ready, sorted);
    if ready != [] {
      assert sorted[0] in Elements(sorted);
      forall y | Ready(g, done, y) ensures StrLe(sorted[0], y) {
        assert y in ReadySet(g, done) && y in Elements(sorted);
        var j :| 0 <= j < |sorted| && sorted[j] == y;
        StrTotal(y, y);
      }
    }
  }

  lemma GreedyGrows(g: Graph, r: seq<string>, x: string)
    requires Greedy(g, r) && LeastReady(g, Elements(r), x)
    ensures Greedy(g, r + [x])
  {
    var s := r + [x];
    forall k | 0 <= k < |s| ensures LeastReady(g, Elements(s[..k]), s[k]) {
      assert s[..k] == r[..k];
      if k == |r| { assert r[..k] == r; }
    }
  }

  ghost predicate KahnInv(g: Graph, dependencies: map<string, set<string>>, ready: seq<string>, ordered: seq<string>) {
    && dependencies.Keys == g.Keys
    && (forall x :: x in g ==> dependencies[x] == g[x] - Elements(ordered))
    && Frontier(g, Elements(ordered), ready)
    && (ready != [] ==> LeastReady(g, Elements(ordered), ready[0]))
    && Greedy(g, ordered) && Elements(ordered) <= g.Keys && NoDuplicates(ordered)
  }

  /** What taking the first ready node leaves for the inner loop. */
  lemma Popped(g: Graph, dependencies: map<string, set<string>>, ready: seq<string>, ordered: seq<string>)
    requires KahnInv(g, dependencies, ready, ordered) && ready != []
    ensures dependencies.Keys == g.Keys && forall x :: x in g ==> dependencies[x] == g[x] - Elements(ordered)
    ensures var ordered' := ordered + [ready[0]];
            && Elements(ordered') == Elements(ordered) + {ready[0]} && ready[0] !in Elements(ordered)
            && Greedy(g, ordered') && Elements(ordered') <= g.Keys && NoDuplicates(ordered')
            && |ordered'| <= |g|
            && ready[0] in g
            && ReadyBut(g, Elements(ordered), ready[0], ready[1..])
  {
    hide Greedy;
    var current, rest := ready[0], ready[1..];
    GreedyGrows(g, ordered, current);
    AppendNew(ordered, current);
    ElementsSize(ordered + [current]);
    SubsetSize(Elements(ordered + [current]), g.Keys);
    DropFirst(ready);
  }

  /** The main loop, on a graph whose dependencies are all known. */
  method Kahn(g: Graph) returns (ordered: seq<string>)
    requires forall x :: x in g ==> g[x] <= g.Keys
    ensures Greedy(g, ordered) && Elements(ordered) <= g.Keys && NoDuplicates(ordered)
    ensures forall x :: !Ready(g, Elements(ordered), x)
  {
    hide KahnInv, ReadyBut, Depend, Greedy, Frontier, LeastReady, Sort, Ready, NoDuplicates, StrictlyIncreasing, StrLe,
         Elements;
    var dependents := Dependents(g);
    var dependencies := g;
    var ready := SortedSet(set x | x in g && g[x] == {});
    ordered := [];
    KahnStarts(g, ready);
    while ready != []
      invariant KahnInv(g, dependencies, ready, ordered)
      decreases |g| - |ordered|
    {
      var current := ready[0];
      Popped(g, dependencies, ready, ordered);
      ghost var before := Elements(ordered);
      ordered := ordered + [current];
      dependencies, ready := Relax(g, current, dependents[current], dependencies, ready[1..], ordered, before);
      SortKeepsFrontier(g, Elements(ordered), ready);
      ready := Sort(ready, StrLe);
      KahnContinues(g, dependencies, ready, ordered);
    }
    KahnEnds(g, dependencies, ordered);
  }

  lemma KahnStarts(g: Graph, ready: seq<string>)
    requires StrictlyIncreasing(ready) && NoDuplicates(ready) && Elements(ready) == (set x | x in g && g[x] == {})
    ensures KahnInv(g, g, ready, [])
  {
    assert Elements<string>([]) == {};
    assert Elements(ready) == ReadySet(g, {});
    if ready != [] {
      assert ready[0] in Elements(ready);
      forall y | Ready(g, {}, y) ensures StrLe(ready[0], y) {
        assert y in ReadySet(g, {}) && y in Elements(ready);
        var j :| 0 <= j < |ready| && ready[j] == y;
        StrTotal(y, y);
      }
    }
  }

  lemma KahnContinues(g: Graph, dependencies: map<string, set<string>>, ready: seq<string>, ordered: seq<string>)
    requires dependencies.Keys == g.Keys
    requires forall x :: x in g ==> dependencies[x] == g[x] - Elements(ordered)
    requires Frontier(g, Elements(ordered), ready)
    requires ready != [] ==> LeastReady(g, Elements(ordered), ready[0])
    requires Greedy(g, ordered) && Elements(ordered) <= g.Keys && NoDuplicates(ordered)
    ensures KahnInv(g, dependencies, ready, ordered)
  {}

  lemma KahnEnds(g: Graph, dependencies: map<string, set<string>>, ordered: seq<string>)
    requires KahnInv(g, dependencies, [], ordered)
    ensures Greedy(g, ordered) && Elements(ordered) <= g.Keys && NoDuplicates(ordered)
    ensures forall x :: !Ready(g, Elements(ordered), x)
  {
    forall x ensures !Ready(g, Elements(ordered), x) { assert x !in ReadySet(g, Elements(ordered)); }
  }

  /** `topological_order`. */
  method TopologicalOrder(tasks: seq<Task>) returns (r: Result)
    ensures Answer(tasks, r)
    // A cycle is reported with the ids left over, each of which depends on another of them.
    ensures r.Rejected? && r.why.CyclicGraph? ==>
              r.why.stuck != {} && UniqueIds(tasks) && Trap(DependencyGraph(tasks), r.why.stuck)
  {
    hide Answer, UniqueIds, Closed, Acyclic, Greedy, LeastTopological, Ready, Trap, NoDuplicates;
    var unique, byId := IndexTasks(tasks);
    if !unique {
      RejectedAnswer(tasks, Rejected(DuplicateId));
      return Rejected(DuplicateId);
    }
    var g: Graph := map x | x in byId :: Elements(byId[x].dependencies);
    IndexedGraph(tasks, byId, g);
    if exists x :: x in g && !(g[x] <= g.Keys) {
      RejectedAnswer(tasks, Rejected(MissingDependency));
      return Rejected(MissingDependency);
    }
    var ordered := Kahn(g);
    r := Conclude(g, ordered);
    if r.Ordered? { OrderedAnswer(tasks, r.ids); } else { RejectedAnswer(tasks, r); }
  }

  method Conclude(g: Graph, ordered: seq<string>) returns (r: Result)
    requires forall x :: x in g ==> g[x] <= g.Keys
    requires Greedy(g, ordered) && Elements(ordered) <= g.Keys && NoDuplicates(ordered)
    requires forall x :: !Ready(g, Elements(ordered), x)
    ensures r.Ordered? ==> r.ids == ordered && LeastTopological(g, ordered) && Acyclic(g)
    ensures r.Rejected? ==> r.why.CyclicGraph? && r.why.stuck != {} && Trap(g, r.why.stuck) && !Acyclic(g)
  {
    hide Acyclic, Greedy, Topological, Ready, Trap, NoDuplicates;
    ElementsSize(ordered);
    if |ordered| != |g| {
      StuckNodes(g, Elements(ordered));
      return Rejected(CyclicGraph(g.Keys - Elements(ordered)));
    }
    SubsetSize(Elements(ordered), g.Keys);
    assert |g.Keys| == |g|;
    GreedyIsLeast(g, ordered);
    LeastIsAcyclic(g, ordered);
    r := Ordered(ordered);
  }

  lemma RejectedAnswer(tasks: seq<Task>, r: Result)
    requires r.Rejected?
    requires match r.why
             case DuplicateId => !UniqueIds(tasks)
             case MissingDependency => UniqueIds(tasks) && !Closed(tasks)
             case CyclicGraph(_) => UniqueIds(tasks) && Closed(tasks) && !Acyclic(DependencyGraph(tasks))
    ensures Answer(tasks, r)
  {
    hide UniqueIds, Closed, Acyclic;
  }

  lemma OrderedAnswer(tasks: seq<Task>, ids: seq<string>)
    requires UniqueIds(tasks) && Closed(tasks) && Acyclic(DependencyGraph(tasks))
    requires LeastTopological(DependencyGraph(tasks), ids)
    ensures Answer(tasks, Ordered(ids))
  {}

  lemma LeastIsAcyclic(g: Graph, r: seq<string>)
    requires LeastTopological(g, r)
    ensures Acyclic(g)
  {
    OrderedIsAcyclic(g, r);
  }

  lemma IndexedGraph(tasks: seq<Task>, byId: map<string, Task>, g: Graph)
    requires UniqueIds(tasks)
    requires byId.Keys == (set t | t in tasks :: t.id)
    requires forall t :: t in tasks ==> t.id in byId && byId[t.id] == t
    requires g == map x | x in byId :: Elements(byId[x].dependencies)
    ensures g == DependencyGraph(tasks)
    ensures Closed(tasks) <==> forall x :: x in g ==> g[x] <= g.Keys
  {
    hide UniqueIds;
    var h := DependencyGraph(tasks);
    forall x ensures x in g <==> x in h {
      if x in h { var t :| t in tasks && t.id == x; }
      if x in g { var t :| t in tasks && t.id == x; }
    }
    forall x | x in g ensures g[x] == h[x] {
      var t :| t in tasks && t.id == x;
    }
    ClosedGraph(tasks, g);
  }

  /** Every dependency is a task exactly when no edge of the graph leaves it. */
  lemma ClosedGraph(tasks: seq<Task>, g: Graph)
    requires g.Keys == (set t | t in tasks :: t.id)
    requires forall t :: t in tasks ==> t.id in g && g[t.id] == Elements(t.dependencies)
    ensures Closed(tasks) <==> forall x :: x in g ==> g[x] <= g.Keys
  {
    if forall x :: x in g ==> g[x] <= g.Keys {
      forall t, d | t in tasks && d in t.dependencies ensures exists u :: u in tasks && u.id == d {
        assert d in g[t.id];
      }
    }
    if Closed(tasks) {
      forall x, d | x in g && d in g[x] ensures d in g {
        var t :| t in tasks && t.id == x;
        assert d in t.dependencies;
      }
    }
  }
}
