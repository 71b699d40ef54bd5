/** Finite directed graphs over identifiers, and the two facts that decide whether one has a cycle. */
module Graphs {
  import opened Orders

  /** Successors of each known node. A successor that is not itself a node is ignored. */
  type Graph = map<string, set<string>>

  ghost predicate Edge(g: Graph, a: string, b: string) {
    a in g && b in g && b in g[a]
  }

  /** Every consecutive pair is an edge. */
  ghost predicate Chain(g: Graph, c: seq<string>) {
    forall i {:trigger c[i]} :: 0 <= i < |c| - 1 ==> Edge(g, c[i], c[i + 1])
  }

  /** At least one edge, and back where it started. */
  ghost predicate IsCycle(g: Graph, c: seq<string>) {
    |c| >= 2 && Chain(g, c) && c[0] == c[|c| - 1]
  }

  ghost predicate Acyclic(g: Graph) {
    forall c :: !IsCycle(g, c)
  }

  // ----- a ranking excludes cycles -----

  lemma {:induction false} RankFalls(g: Graph, rank: map<string, nat>, c: seq<string>, i: nat)
    requires Chain(g, c) && 0 < i < |c|
    requires forall a, b :: Edge(g, a, b) ==> a in rank && b in rank && rank[b] < rank[a]
    ensures c[0] in rank && c[i] in rank && rank[c[i]] < rank[c[0]]
  {
    assert Edge(g, c[i - 1], c[i - 1 + 1]);
    if i > 1 { RankFalls(g, rank, c, i - 1); }
  }

  lemma RankedIsAcyclic(g: Graph, rank: map<string, nat>)
    requires forall a, b :: Edge(g, a, b) ==> a in rank && b in rank && rank[b] < rank[a]
    ensures Acyclic(g)
  {
    forall c ensures !IsCycle(g, c) {
      if |c| >= 2 && Chain(g, c) { RankFalls(g, rank, c, |c| - 1); }
    }
  }

  /** Every node comes after the nodes its edges lead to. */
  ghost predicate PrefixClosed(g: Graph, r: seq<string>) {
    NoDuplicates(r) && forall k, b :: 0 <= k < |r| && Edge(g, r[k], b) ==> b in Elements(r[..k])
  }

  ghost function Position(r: seq<string>, x: string): (k: nat)
    ensures x in r ==> k < |r| && r[k] == x
  {
    if x in r then
      var k: nat :| k < |r| && r[k] == x;
      k
    else 0
  }

  lemma PrefixClosedIsAcyclic(g: Graph, r: seq<string>)
    requires PrefixClosed(g, r) && Elements(r) == g.Keys
    ensures Acyclic(g)
  {
    var rank := map x | x in g :: Position(r, x);
    forall a, b | Edge(g, a, b) ensures rank[b] < rank[a] {
      assert a in Elements(r) && b in Elements(r);
      var k := Position(r, a);
      assert b in Elements(r[..k]);
      var i :| 0 <= i < k && r[..k][i] == b;
      assert r[i] == b && r[Position(r, b)] == b;
    }
    RankedIsAcyclic(g, rank);
  }

  // ----- a set nobody leaves contains a cycle -----

  ghost predicate HasExit(g: Graph, trap: set<string>, a: string) {
    exists b :: b in trap && Edge(g, a, b)
  }

  ghost predicate Trap(g: Graph, trap: set<string>) {
    forall a :: a in trap ==> HasExit(g, trap, a)
  }

  lemma Exit(g: Graph, trap: set<string>, a: string) returns (b: string)
    requires HasExit(g, trap, a)
    ensures b in trap && Edge(g, a, b)
  {
    b :| b in trap && Edge(g, a, b);
  }

  lemma ChainExtends(g: Graph, path: seq<string>, b: string)
    requires Chain(g, path) && path != [] && Edge(g, path[|path| - 1], b)
    ensures Chain(g, path + [b])
  {
    var longer := path + [b];
    forall i {:trigger longer[i]} | 0 <= i < |longer| - 1 ensures Edge(g, longer[i], longer[i + 1]) {
      if i < |path| - 1 { assert Edge(g, path[i], path[i + 1]); }
    }
  }

  lemma ChainTakes(g: Graph, path: seq<string>, k: nat)
    requires Chain(g, path) && k <= |path|
    ensures Chain(g, path[..k])
  {
    var front := path[..k];
    forall i {:trigger front[i]} | 0 <= i < |front| - 1 ensures Edge(g, front[i], front[i + 1]) {
      assert Edge(g, path[i], path[i + 1]);
    }
  }

  /** Following the path to its end and one edge back into it closes a cycle. */
  lemma CloseCycle(g: Graph, path: seq<string>, k: nat)
    requires Chain(g, path) && k < |path| && Edge(g, path[|path| - 1], path[k])
    ensures IsCycle(g, path[k..] + [path[k]])
  {
    ChainExtends(g, path[k..], path[k]);
  }

  lemma {:induction false} TrappedWalk(g: Graph, trap: set<string>, path: seq<string>) returns (c: seq<string>)
    requires Trap(g, trap) && path != [] && NoDuplicates(path) && Elements(path) <= trap && Chain(g, path)
    ensures IsCycle(g, c)
    decreases |trap| - |path|
  {
    hide HasExit, Chain, IsCycle, Edge;
    ElementsSize(path);
    assert path[|path| - 1] in trap;
    var b := Exit(g, trap, path[|path| - 1]);
    if b in path {
      var k :| 0 <= k < |path| && path[k] == b;
      CloseCycle(g, path, k);
      c := path[k..] + [b];
    } else {
      var longer := path + [b];
      ElementsSize(longer);
      assert Elements(longer) == Elements(path) + {b};
      SubsetSize(Elements(longer), trap);
      ChainExtends(g, path, b);
      c := TrappedWalk(g, trap, longer);
    }
  }

  lemma TrapHasCycle(g: Graph, trap: set<string>)
    requires Trap(g, trap) && trap != {}
    ensures !Acyclic(g)
  {
    hide HasExit;
    var a :| a in trap;
    var c := TrappedWalk(g, trap, [a]);
  }
}
