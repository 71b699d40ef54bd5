/** The supersession graph of the records: the cycle search and the reachability search of the audit. */
module Supersession {
  import opened Evidence
  import opened Graphs
  import opened Orders

  datatype Kind = Fact | Decision | Situation

  /** A structured claim; `asserted` is the canonical encoding. */
  datatype Claim = Claim(subject: string, predicate_: string, scope: string, asserted: string)

  datatype Record = Record(
    kind: Kind,
    status: string,
    supersedes: seq<string>,
    supersededBy: Option<string>,
    claim: Option<Claim>)

  type Records = map<string, Record>

  /** `supersedes` as a graph; targets that are not records are not nodes and carry no edge. */
  function SupersedesGraph(records: Records): Graph {
    map id | id in records :: Elements(records[id].supersedes)
  }

  // ----- the depth-first search -----

  datatype Color = Gray | Black
  datatype Frame = Frame(id: string, expanded: bool)

  function Names(stack: seq<Frame>): set<string> {
    set f | f in stack :: f.id
  }

  /** The ids of the expanded frames, bottom to top. */
  function Markers(stack: seq<Frame>): seq<string> {
    if stack == [] then []
    else
      var below := Markers(stack[..|stack| - 1]);
      if stack[|stack| - 1].expanded then below + [stack[|stack| - 1].id] else below
  }

  function Successors(g: Graph, id: string): set<string>
    requires id in g
  {
    set t | t in g[id] && t in g
  }

  /** Gray nodes are the active path, black nodes are finished after all their successors. */
  ghost predicate Colored(g: Graph, color: map<string, Color>, path: seq<string>, finished: seq<string>) {
    && color.Keys == Elements(path) + Elements(finished) && color.Keys <= g.Keys
    && (forall v :: v in color ==> (color[v] == Gray <==> v in Elements(path)))
    && (forall v :: v in color ==> (color[v] == Black <==> v in Elements(finished)))
    && NoDuplicates(path) && Chain(g, path)
    && PrefixClosed(g, finished)
  }

  /** A waiting frame is a successor of the marker below it. */
  ghost predicate Hanging(g: Graph, stack: seq<Frame>) {
    forall k :: 0 <= k < |stack| ==>
      && stack[k].id in g
      && (!stack[k].expanded && Markers(stack[..k]) != [] ==>
            Edge(g, Markers(stack[..k])[|Markers(stack[..k])| - 1], stack[k].id))
  }

  /** Every successor of a marker is finished, waits above it, or is still to be pushed. */
  ghost predicate Covered(g: Graph, stack: seq<Frame>, finished: set<string>, pending: set<string>) {
    forall k :: 0 <= k < |stack| && stack[k].expanded ==>
      stack[k].id in g && Successors(g, stack[k].id) <= finished + Names(stack[k + 1..]) + pending
  }

  ghost predicate Dfs(g: Graph, color: map<string, Color>, stack: seq<Frame>, path: seq<string>,
                      finished: seq<string>, pending: set<string>) {
    && Colored(g, color, path, finished)
    && Hanging(g, stack) && Covered(g, stack, Elements(finished), pending)
    && Markers(stack) == path
  }

  lemma NamesJoin(a: seq<Frame>, b: seq<Frame>)
    ensures Names(a + b) == Names(a) + Names(b)
  {
    forall x ensures x in Names(a + b) <==> x in Names(a) || x in Names(b) {
      if x in Names(a) { var f :| f in a && f.id == x; assert f in a + b; }
      if x in Names(b) { var f :| f in b && f.id == x; assert f in a + b; }
    }
  }

  lemma HangingPop(g: Graph, stack: seq<Frame>)
    requires Hanging(g, stack) && stack != []
    ensures Hanging(g, stack[..|stack| - 1])
  {
    hide Markers, Edge;
    var rest := stack[..|stack| - 1];
    forall k | 0 <= k < |rest| ensures rest[k] == stack[k] && rest[..k] == stack[..k] {}
  }

  lemma HangingPush(g: Graph, stack: seq<Frame>, f: Frame)
    requires Hanging(g, stack) && f.id in g
    requires !f.expanded && Markers(stack) != [] ==> Edge(g, Markers(stack)[|Markers(stack)| - 1], f.id)
    ensures Hanging(g, stack + [f])
  {
    hide Markers, Edge;
    var more := stack + [f];
    forall k | 0 <= k < |more| ensures more[..k] == stack[..k] && (k < |stack| ==> more[k] == stack[k]) {}
    assert more[..|stack|] == stack;
  }

  /** Dropping a frame whose node is finished loses nothing. */
  lemma CoveredPop(g: Graph, stack: seq<Frame>, finished: set<string>, finished': set<string>)
    requires Covered(g, stack, finished, {}) && stack != []
    requires finished <= finished' && stack[|stack| - 1].id in finished'
    ensures Covered(g, stack[..|stack| - 1], finished', {})
  {
    var rest, top := stack[..|stack| - 1], stack[|stack| - 1];
    forall k | 0 <= k < |rest| && rest[k].expanded
      ensures rest[k].id in g && Successors(g, rest[k].id) <= finished' + Names(rest[k + 1..]) + {}
    {
      assert stack[k].expanded;
      assert stack[k + 1..] == rest[k + 1..] + [top];
      NamesJoin(rest[k + 1..], [top]);
      assert Names([top]) == {top.id};
    }
  }

  /** Replacing a waiting frame by its marker keeps what is below; the marker owes all its successors. */
  lemma CoveredExpand(g: Graph, stack: seq<Frame>, finished: set<string>)
    requires Covered(g, stack, finished, {}) && stack != [] && stack[|stack| - 1].id in g
    ensures Covered(g, stack[..|stack| - 1] + [Frame(stack[|stack| - 1].id, true)], finished,
                    Successors(g, stack[|stack| - 1].id))
  {
    var rest, top := stack[..|stack| - 1], stack[|stack| - 1];
    var marker := Frame(top.id, true);
    var next := rest + [marker];
    forall k | 0 <= k < |next| && next[k].expanded
      ensures next[k].id in g && Successors(g, next[k].id) <= finished + Names(next[k + 1..]) + Successors(g, top.id)
    {
      if k < |rest| {
        assert stack[k].expanded;
        assert stack[k + 1..] == rest[k + 1..] + [top] && next[k + 1..] == rest[k + 1..] + [marker];
        NamesJoin(rest[k + 1..], [top]);
        NamesJoin(rest[k + 1..], [marker]);
        assert Names([top]) == {top.id} == Names([marker]);
      }
    }
  }

  /** One more successor dealt with: it is finished already, or its frame is pushed. */
  lemma CoveredPush(g: Graph, stack: seq<Frame>, finished: set<string>, pending: set<string>, pending': set<string>,
                    t: string)
    requires Covered(g, stack, finished, pending) && pending <= pending' + {t}
    ensures t in finished ==> Covered(g, stack, finished, pending')
    ensures Covered(g, stack + [Frame(t, false)], finished, pending')
  {
    var more := stack + [Frame(t, false)];
    forall k | 0 <= k < |stack| && stack[k].expanded
      ensures Successors(g, stack[k].id) <= finished + Names(more[k + 1..]) + pending'
    {
      assert more[k + 1..] == stack[k + 1..] + [Frame(t, false)];
      NamesJoin(stack[k + 1..], [Frame(t, false)]);
      assert Names([Frame(t, false)]) == {t};
    }
    forall k | 0 <= k < |more| && more[k].expanded
      ensures more[k].id in g && Successors(g, more[k].id) <= finished + Names(more[k + 1..]) + pending'
    {
      assert more[k] == stack[k];
    }
  }

  lemma MarkersPop(stack: seq<Frame>)
    requires stack != []
    ensures var top := stack[|stack| - 1];
            Markers(stack) == Markers(stack[..|stack| - 1]) + if top.expanded then [top.id] else []
  {}

  lemma MarkersPush(stack: seq<Frame>, f: Frame)
    ensures Markers(stack + [f]) == if f.expanded then Markers(stack) + [f.id] else Markers(stack)
  {
    assert (stack + [f])[..|stack|] == stack;
  }

  lemma PopNames(stack: seq<Frame>)
    requires stack != []
    ensures Names(stack) == Names(stack[..|stack| - 1]) + {stack[|stack| - 1].id}
  {
    var rest, top := stack[..|stack| - 1], stack[|stack| - 1];
    assert stack == rest + [top];
    NamesJoin(rest, [top]);
    assert Names([top]) == {top.id};
  }

  lemma FewerLeft(nodes: set<string>, color: map<string, Color>, v: string)
    requires v in nodes && v !in color
    ensures |nodes - color[v := Gray].Keys| < |nodes - color.Keys|
  {
    assert nodes - color.Keys == (nodes - color[v := Gray].Keys) + {v};
  }

  // ----- the four things that can happen to the top frame -----

  lemma Finish(g: Graph, color: map<string, Color>, stack: seq<Frame>, path: seq<string>, finished: seq<string>)
    requires Dfs(g, color, stack, path, finished, {}) && stack != [] && stack[|stack| - 1].expanded
    ensures var v := stack[|stack| - 1].id;
            && path != [] && path[|path| - 1] == v && v in color
            && Dfs(g, color[v := Black], stack[..|stack| - 1], path[..|path| - 1], finished + [v], {})
  {
    var v, rest, below := stack[|stack| - 1].id, stack[..|stack| - 1], path[..|path| - 1];
    MarkersPop(stack);
    assert path == below + [v];
    assert v in Elements(path) && v !in Elements(finished);
    FinishColors(g, color, path, finished, v);
    HangingPop(g, stack);
    AppendNew(finished, v);
    FinishedClosed(g, stack, finished, v);
    CoveredPop(g, stack, Elements(finished), Elements(finished + [v]));
  }

  lemma FinishedClosed(g: Graph, stack: seq<Frame>, finished: seq<string>, v: string)
    requires Covered(g, stack, Elements(finished), {}) && stack != []
    requires stack[|stack| - 1] == Frame(v, true)
    requires PrefixClosed(g, finished) && v !in Elements(finished)
    ensures PrefixClosed(g, finished + [v])
  {
    AppendNew(finished, v);
    var r := finished + [v];
    assert stack[|stack| - 1 + 1..] == [] && Names([]) == {};
    forall k, b | 0 <= k < |r| && Edge(g, r[k], b) ensures b in Elements(r[..k]) {
      assert r[..k] == finished[..k];
      if k == |finished| {
        assert finished[..k] == finished;
        assert b in Successors(g, v);
      }
    }
  }

  lemma FinishColors(g: Graph, color: map<string, Color>, path: seq<string>, finished: seq<string>, v: string)
    requires Colored(g, color, path, finished) && path != [] && path[|path| - 1] == v
    ensures v !in Elements(finished)
    ensures PrefixClosed(g, finished + [v]) ==> Colored(g, color[v := Black], path[..|path| - 1], finished + [v])
  {
    hide PrefixClosed, Chain, NoDuplicates;
    DropLast(path);
    ChainTakes(g, path, |path| - 1);
    ElementsJoin(finished, [v]);
    assert Elements([v]) == {v};
  }

  lemma Skip(g: Graph, color: map<string, Color>, stack: seq<Frame>, path: seq<string>, finished: seq<string>)
    requires Dfs(g, color, stack, path, finished, {}) && stack != []
    requires var top := stack[|stack| - 1]; !top.expanded && top.id in color && color[top.id] == Black
    ensures Dfs(g, color, stack[..|stack| - 1], path, finished, {})
  {
    MarkersPop(stack);
    HangingPop(g, stack);
    CoveredPop(g, stack, Elements(finished), Elements(finished));
  }

  /** A waiting frame hangs off the end of the active path. */
  lemma TopHangs(g: Graph, color: map<string, Color>, stack: seq<Frame>, path: seq<string>, finished: seq<string>)
    requires Dfs(g, color, stack, path, finished, {}) && stack != [] && !stack[|stack| - 1].expanded
    ensures stack[|stack| - 1].id in g
    ensures path != [] ==> Edge(g, path[|path| - 1], stack[|stack| - 1].id)
  {
    MarkersPop(stack);
    assert stack[..|stack| - 1] == stack[..|stack| - 1];
  }

  lemma Enter(g: Graph, color: map<string, Color>, stack: seq<Frame>, path: seq<string>, finished: seq<string>)
    requires Dfs(g, color, stack, path, finished, {}) && stack != []
    requires var top := stack[|stack| - 1]; !top.expanded && top.id !in color
    ensures var v := stack[|stack| - 1].id;
            && v in g
            && Dfs(g, color[v := Gray], stack[..|stack| - 1] + [Frame(v, true)], path + [v], finished, Successors(g, v))
  {
    hide Hanging, Covered, Markers, Colored, Successors, Chain;
    var v, rest := stack[|stack| - 1].id, stack[..|stack| - 1];
    TopHangs(g, color, stack, path, finished);
    MarkersPop(stack);
    MarkersPush(rest, Frame(v, true));
    HangingPop(g, stack);
    HangingPush(g, rest, Frame(v, true));
    CoveredExpand(g, stack, Elements(finished));
    EnterColors(g, color, path, finished, v);
  }

  lemma EnterColors(g: Graph, color: map<string, Color>, path: seq<string>, finished: seq<string>, v: string)
    requires Colored(g, color, path, finished) && v in g && v !in color
    requires path != [] ==> Edge(g, path[|path| - 1], v)
    ensures Colored(g, color[v := Gray], path + [v], finished)
  {
    hide Chain, PrefixClosed, NoDuplicates;
    AppendNew(path, v);
    if path == [] { SingleChain(g, v); assert [] + [v] == [v]; } else { ChainExtends(g, path, v); }
  }

  lemma SingleChain(g: Graph, v: string)
    ensures Chain(g, [v])
  {}

  lemma Visit(g: Graph, color: map<string, Color>, stack: seq<Frame>, path: seq<string>, finished: seq<string>,
              pending: set<string>, pending': set<string>, t: string)
    requires Dfs(g, color, stack, path, finished, pending) && pending <= pending' + {t}
    requires path != [] && Edge(g, path[|path| - 1], t)
    ensures t in color && color[t] == Black ==> Dfs(g, color, stack, path, finished, pending')
    ensures Dfs(g, color, stack + [Frame(t, false)], path, finished, pending')
  {
    HangingPush(g, stack, Frame(t, false));
    MarkersPush(stack, Frame(t, false));
    CoveredPush(g, stack, Elements(finished), pending, pending', t);
  }

  // ----- the search -----

  /** A cycle that visits no node twice before it closes. */
  ghost predicate SimpleCycle(g: Graph, c: seq<string>) {
    IsCycle(g, c) && NoDuplicates(c[..|c| - 1])
  }

  method CloseAt(ghost g: Graph, path: seq<string>, id: string) returns (c: seq<string>)
    requires id in Elements(path) && NoDuplicates(path) && Chain(g, path) && Edge(g, path[|path| - 1], id)
    ensures SimpleCycle(g, c)
  {
    var k := 0;
    while path[k] != id
      invariant 0 <= k < |path| && id in path[k..]
      decreases |path| - k
    {
      k := k + 1;
    }
    c := path[k..] + [id];
    CloseCycle(g, path, k);
    assert c[..|c| - 1] == path[k..];
  }

  /** Colour everything reachable from `start`, or return a cycle met on the way. */
  method Explore(ghost g: Graph, adjacency: map<string, seq<string>>, start: string, color0: map<string, Color>,
                 ghost finished0: seq<string>)
    returns (cycle: Option<seq<string>>, color: map<string, Color>, ghost finished: seq<string>)
    requires adjacency.Keys == g.Keys && forall v :: v in g ==> Elements(adjacency[v]) == Successors(g, v)
    requires Colored(g, color0, [], finished0) && start in g
    ensures cycle.Some? ==> SimpleCycle(g, cycle.value)
    ensures cycle.None? ==> Colored(g, color, [], finished) && Elements(finished) >= Elements(finished0) + {start}
  {
    hide *;
    color, finished := color0, finished0;
    var path: seq<string> := [];
    var stack := [Frame(start, false)];
    StartDfs(g, color, start, finished);
    while stack != []
      invariant Dfs(g, color, stack, path, finished, {})
      invariant color.Keys <= g.Keys && Elements(finished) >= Elements(finished0)
      invariant start in color || start in Names(stack)
      decreases |g.Keys - color.Keys|, |stack|
    {
      var top, rest := stack[|stack| - 1], stack[..|stack| - 1];
      PopNames(stack);
      if top.expanded {
        Finish(g, color, stack, path, finished);
        if path != [] && path[|path| - 1] == top.id { path := path[..|path| - 1]; }
        color, stack := color[top.id := Black], rest;
        ElementsJoin(finished, [top.id]);
        DfsBounds(g, color, stack, path, finished + [top.id], {});
        finished := finished + [top.id];
      } else if top.id in color && color[top.id] == Black {
        Skip(g, color, stack, path, finished);
        stack := rest;
      } else if top.id in color {
        GrayTop(g, color, stack, path, finished);
        var c := CloseAt(g, path, top.id);
        return Some(c), color, finished;
      } else {
        TopHangs(g, color, stack, path, finished);
        FewerLeft(g.Keys, color, top.id);
        cycle, stack := ExpandTop(g, adjacency[top.id], color, stack, path, finished);
        if cycle.Some? { return; }
        color, path := color[top.id := Gray], path + [top.id];
      }
    }
    cycle := None;
    DfsEnds(g, color, path, finished);
    NoNames();
  }

  lemma NoNames()
    ensures Names([]) == {}
  {}

  /** Turn a white top frame into a marker and push its successors. */
  method ExpandTop(ghost g: Graph, listed: seq<string>, color: map<string, Color>, stack0: seq<Frame>,
                   path: seq<string>, ghost finished: seq<string>)
    returns (cycle: Option<seq<string>>, stack: seq<Frame>)
    requires Dfs(g, color, stack0, path, finished, {}) && stack0 != []
    requires var top := stack0[|stack0| - 1];
             !top.expanded && top.id !in color && top.id in g && Elements(listed) == Successors(g, top.id)
    ensures cycle.Some? ==> SimpleCycle(g, cycle.value)
    ensures cycle.None? ==>
              var v := stack0[|stack0| - 1].id;
              && Dfs(g, color[v := Gray], stack, path + [v], finished, {})
              && Names(stack) >= Names(stack0[..|stack0| - 1]) && color[v := Gray].Keys <= g.Keys
  {
    hide *;
    var v, rest := stack0[|stack0| - 1].id, stack0[..|stack0| - 1];
    var targets := Sort(listed, StrLe);
    SortedTargets(g, listed, targets, v);
    Enter(g, color, stack0, path, finished);
    DfsBounds(g, color[v := Gray], rest + [Frame(v, true)], path + [v], finished, Successors(g, v));
    PushNames(rest, Frame(v, true));
    assert (path + [v])[|path + [v]| - 1] == v;
    cycle, stack := PushSuccessors(g, targets, color[v := Gray], rest + [Frame(v, true)], path + [v], finished);
  }

  /** Push the successors of the node just entered, largest id first, unless one closes a cycle. */
  method PushSuccessors(ghost g: Graph, targets: seq<string>, color: map<string, Color>, stack0: seq<Frame>,
                        path: seq<string>, ghost finished: seq<string>)
    returns (cycle: Option<seq<string>>, stack: seq<Frame>)
    requires Dfs(g, color, stack0, path, finished, Elements(targets))
    requires path != [] && forall t :: t in Elements(targets) ==> Edge(g, path[|path| - 1], t)
    ensures cycle.Some? ==> SimpleCycle(g, cycle.value)
    ensures cycle.None? ==> Dfs(g, color, stack, path, finished, {}) && Names(stack) >= Names(stack0)
  {
    hide Dfs, SimpleCycle;
    stack := stack0;
    var i := |targets|;
    assert targets[..i] == targets;
    while i > 0
      invariant 0 <= i <= |targets|
      invariant Dfs(g, color, stack, path, finished, Elements(targets[..i]))
      invariant Names(stack) >= Names(stack0)
    {
      i := i - 1;
      var t := targets[i];
      assert t in Elements(targets);
      assert targets[..i + 1] == targets[..i] + [t];
      ElementsJoin(targets[..i], [t]);
      if t in color && color[t] == Gray {
        GrayOnPath(g, color, stack, path, finished, Elements(targets[..i + 1]), t);
        var c := CloseAt(g, path, t);
        return Some(c), stack;
      }
      Visit(g, color, stack, path, finished, Elements(targets[..i + 1]), Elements(targets[..i]), t);
      if t !in color {
        NamesJoin(stack, [Frame(t, false)]);
        stack := stack + [Frame(t, false)];
      }
    }
    assert targets[..i] == [];
    assert Elements<string>([]) == {};
    cycle := None;
  }

  lemma GrayOnPath(g: Graph, color: map<string, Color>, stack: seq<Frame>, path: seq<string>, finished: seq<string>,
                   pending: set<string>, t: string)
    requires Dfs(g, color, stack, path, finished, pending) && t in color && color[t] == Gray
    ensures t in Elements(path) && NoDuplicates(path) && Chain(g, path)
  {}

  lemma GrayTop(g: Graph, color: map<string, Color>, stack: seq<Frame>, path: seq<string>, finished: seq<string>)
    requires Dfs(g, color, stack, path, finished, {}) && stack != []
    requires var top := stack[|stack| - 1]; !top.expanded && top.id in color && color[top.id] != Black
    ensures var v := stack[|stack| - 1].id;
            v in Elements(path) && NoDuplicates(path) && Chain(g, path) && Edge(g, path[|path| - 1], v)
  {
    TopHangs(g, color, stack, path, finished);
  }

  lemma StartDfs(g: Graph, color: map<string, Color>, start: string, finished: seq<string>)
    requires Colored(g, color, [], finished) && start in g
    ensures Dfs(g, color, [Frame(start, false)], [], finished, {}) && start in Names([Frame(start, false)])
    ensures color.Keys <= g.Keys
  {
    hide Hanging, Markers;
    var f := Frame(start, false);
    assert f in [f];
    HangingStarts(g, f);
    MarkersStart(f);
  }

  lemma HangingStarts(g: Graph, f: Frame)
    requires f.id in g && !f.expanded
    ensures Hanging(g, [f])
  {
    assert [f][..0] == [];
  }

  lemma MarkersStart(f: Frame)
    requires !f.expanded
    ensures Markers([f]) == []
  {
    assert [f][..0] == [];
  }

  lemma PushNames(stack: seq<Frame>, f: Frame)
    ensures Names(stack + [f]) == Names(stack) + {f.id}
  {
    NamesJoin(stack, [f]);
    assert Names([f]) == {f.id};
  }

  lemma SortedTargets(g: Graph, listed: seq<string>, targets: seq<string>, v: string)
    requires v in g && Elements(listed) == Successors(g, v) && multiset(targets) == multiset(listed)
    ensures Elements(targets) == Successors(g, v)
    ensures forall t :: t in Elements(targets) ==> Edge(g, v, t)
  {
    forall x ensures x in Elements(targets) <==> x in Elements(listed) {
      assert x in targets <==> x in multiset(targets);
      assert x in listed <==> x in multiset(listed);
    }
  }

  lemma DfsBounds(g: Graph, color: map<string, Color>, stack: seq<Frame>, path: seq<string>, finished: seq<string>,
                  pending: set<string>)
    requires Dfs(g, color, stack, path, finished, pending)
    ensures color.Keys <= g.Keys
  {}

  lemma DfsEnds(g: Graph, color: map<string, Color>, path: seq<string>, finished: seq<string>)
    requires Dfs(g, color, [], path, finished, {})
    ensures Colored(g, color, [], finished) && color.Keys == Elements(finished)
  {}

  function Known(listed: seq<string>, records: Records): (r: seq<string>)
    ensures Elements(r) == Elements(listed) * records.Keys
  {
    if listed == [] then []
    else
      var front, last := listed[..|listed| - 1], listed[|listed| - 1];
      assert listed == front + [last];
      ElementsJoin(front, [last]);
      ElementsJoin(Known(front, records), [last]);
      assert Elements([last]) == {last};
      if last in records then Known(front, records) + [last] else Known(front, records)
  }

  lemma KnownAreSuccessors(records: Records)
    ensures SupersedesGraph(records).Keys == records.Keys
    ensures forall v :: v in records ==>
              Elements(Known(records[v].supersedes, records)) == Successors(SupersedesGraph(records), v)
  {}

  /** `_supersession_cycle`: a cycle is returned exactly when the graph of known records has one. */
  method SupersessionCycle(records: Records) returns (cycle: Option<seq<string>>)
    ensures cycle.Some? <==> !Acyclic(SupersedesGraph(records))
    ensures cycle.Some? ==> SimpleCycle(SupersedesGraph(records), cycle.value)
  {
    hide *;
    ghost var g := SupersedesGraph(records);
    var adjacency := map id | id in records :: Known(records[id].supersedes, records);
    KnownAreSuccessors(records);
    var color: map<string, Color> := map[];
    ghost var finished: seq<string> := [];
    var starts := SortedSet(records.Keys);
    NothingColored(g);
    var i := 0;
    while i < |starts|
      invariant 0 <= i <= |starts|
      invariant Colored(g, color, [], finished)
      invariant Elements(starts[..i]) <= Elements(finished)
    {
      InElements(starts, starts[i]);
      NextIsNew(starts, i);
      if starts[i] in color && color[starts[i]] == Black {
        BlackIsFinished(g, color, finished, starts[i]);
      } else {
        cycle, color, finished := Explore(g, adjacency, starts[i], color, finished);
        if cycle.Some? {
          CycleRefutes(g, cycle.value);
          return;
        }
      }
      i := i + 1;
    }
    assert starts[..i] == starts;
    AllFinished(g, color, finished);
    cycle := None;
  }

  lemma NothingColored(g: Graph)
    ensures Colored(g, map[], [], []) && Elements<string>([]) == {}
  {}

  lemma BlackIsFinished(g: Graph, color: map<string, Color>, finished: seq<string>, v: string)
    requires Colored(g, color, [], finished) && v in color && color[v] == Black
    ensures v in Elements(finished)
  {}

  lemma CycleRefutes(g: Graph, c: seq<string>)
    requires SimpleCycle(g, c)
    ensures !Acyclic(g)
  {}

  lemma AllFinished(g: Graph, color: map<string, Color>, finished: seq<string>)
    requires Colored(g, color, [], finished) && Elements(finished) >= g.Keys
    ensures Acyclic(g)
  {
    PrefixClosedIsAcyclic(g, finished);
  }

  // ----- the worklist search -----

  /** One record names the next in `supersedes`; every node but the last is a known record. */
  ghost predicate SupersedesPath(records: Records, p: seq<string>) {
    |p| >= 2 && forall i {:trigger p[i]} :: 0 <= i < |p| - 1 ==>
        p[i] in records && p[i + 1] in Elements(records[p[i]].supersedes)
  }

  ghost predicate Reaches(records: Records, source: string, target: string) {
    exists p :: SupersedesPath(records, p) && p[0] == source && p[|p| - 1] == target
  }

  lemma ReachesOne(records: Records, a: string, b: string)
    requires a in records && b in Elements(records[a].supersedes)
    ensures Reaches(records, a, b)
  {
    assert SupersedesPath(records, [a, b]);
  }

  lemma ReachesMore(records: Records, a: string, b: string, c: string)
    requires Reaches(records, a, b) && b in records && c in Elements(records[b].supersedes)
    ensures Reaches(records, a, c)
  {
    var p :| SupersedesPath(records, p) && p[0] == a && p[|p| - 1] == b;
    var q := p + [c];
    forall i {:trigger q[i]} | 0 <= i < |q| - 1
      ensures q[i] in records && q[i + 1] in Elements(records[q[i]].supersedes)
    {
      if i < |p| - 1 { assert q[i] == p[i] && q[i + 1] == p[i + 1]; }
    }
    assert SupersedesPath(records, q);
  }

  /** A set of records that names only itself and unknown ids, and not the target, shuts the target out. */
  ghost predicate ShutsOut(records: Records, seen: set<string>, target: string) {
    forall v :: v in seen ==>
      && v in records && target !in Elements(records[v].supersedes)
      && Elements(records[v].supersedes) * records.Keys <= seen
  }

  lemma {:induction false} PathStays(records: Records, seen: set<string>, target: string, p: seq<string>, i: nat)
    requires ShutsOut(records, seen, target) && SupersedesPath(records, p)
    requires p[0] in seen && i < |p| - 1
    ensures p[i] in seen && p[i + 1] != target
  {
    if i > 0 {
      PathStays(records, seen, target, p, i - 1);
      assert p[i] in Elements(records[p[i - 1]].supersedes);
    }
  }

  lemma ShutOut(records: Records, seen: set<string>, source: string, target: string)
    requires ShutsOut(records, seen, target)
    requires source in records ==> source in seen
    ensures !Reaches(records, source, target)
  {
    forall p | SupersedesPath(records, p) && p[0] == source ensures p[|p| - 1] != target {
      PathStays(records, seen, target, p, |p| - 2);
    }
  }

  /** Everything seen is settled except for what still waits. */
  ghost predicate Settling(records: Records, seen: set<string>, waiting: set<string>, target: string) {
    forall v :: v in seen ==>
      && v in records && target !in Elements(records[v].supersedes)
      && Elements(records[v].supersedes) * records.Keys <= seen + waiting
  }

  /** `_transitively_supersedes`. */
  method TransitivelySupersedes(source: string, target: string, records: Records) returns (found: bool)
    ensures found <==> Reaches(records, source, target)
  {
    hide Reaches, Settling, Elements;
    var pending := [source];
    var seen: set<string> := {};
    StartSettling(records, source, target);
    while pending != []
      invariant seen <= records.Keys
      invariant Settling(records, seen, Elements(pending), target)
      invariant source in records ==> source in seen + Elements(pending)
      invariant forall x :: x in Elements(pending) ==> x == source || Reaches(records, source, x)
      decreases |records.Keys - seen|, |pending|
    {
      var current, rest := pending[|pending| - 1], pending[..|pending| - 1];
      LastOf(pending);
      pending := rest;
      if current in seen || current !in records {
        Resettle(records, seen, Elements(rest) + {current}, Elements(rest), target);
      } else {
        SmallerRest(records.Keys, seen, current);
        var listed := records[current].supersedes;
        if target in listed {
          InElements(listed, target);
          if current == source {
            ReachesOne(records, source, target);
          } else {
            ReachesMore(records, source, current, target);
          }
          return true;
        }
        InElements(listed, target);
        forall x | x in Elements(listed) ensures Reaches(records, source, x) {
          if current == source { ReachesOne(records, source, x); } else { ReachesMore(records, source, current, x); }
        }
        Settle(records, seen, Elements(rest), current, target);
        ElementsJoin(rest, listed);
        seen := seen + {current};
        pending := rest + listed;
      }
    }
    NoneWait(records, seen, target);
    ShutOut(records, seen, source, target);
    found := false;
  }

  lemma StartSettling(records: Records, source: string, target: string)
    ensures Settling(records, {}, Elements([source]), target) && Elements([source]) == {source}
  {}

  lemma LastOf(s: seq<string>)
    requires s != []
    ensures Elements(s) == Elements(s[..|s| - 1]) + {s[|s| - 1]}
  {
    assert s == s[..|s| - 1] + [s[|s| - 1]];
    ElementsJoin(s[..|s| - 1], [s[|s| - 1]]);
    assert Elements([s[|s| - 1]]) == {s[|s| - 1]};
  }

  lemma InElements(s: seq<string>, x: string)
    ensures x in s <==> x in Elements(s)
  {}

  lemma SmallerRest(all: set<string>, seen: set<string>, x: string)
    requires x in all && x !in seen
    ensures |all - (seen + {x})| < |all - seen|
  {
    assert all - seen == (all - (seen + {x})) + {x};
  }

  lemma Resettle(records: Records, seen: set<string>, waiting: set<string>, waiting': set<string>, target: string)
    requires Settling(records, seen, waiting, target)
    requires waiting * records.Keys <= seen + waiting'
    ensures Settling(records, seen, waiting', target)
  {}

  lemma Settle(records: Records, seen: set<string>, rest: set<string>, current: string, target: string)
    requires Settling(records, seen, rest + {current}, target) && current in records
    requires target !in Elements(records[current].supersedes)
    ensures Settling(records, seen + {current}, rest + Elements(records[current].supersedes), target)
  {}

  lemma NoneWait(records: Records, seen: set<string>, target: string)
    requires Settling(records, seen, Elements<string>([]), target)
    ensures ShutsOut(records, seen, target)
    ensures Elements<string>([]) == {}
  {}
}
