/** Directed graphs as the scheduler sees them: node ids, and for each id the list of its out-nodes. */
module Digraph {
  import Countdown

  /** g[u] lists the ids of the out-nodes of node u; the same out-node may be listed twice. */
  type Digraph = seq<seq<nat>>

  /** An edge is named by its source and its position in the source's out-node list. */
  type Edge = (nat, nat)

  ghost predicate WellFormed(g: Digraph) {
    forall u, k :: 0 <= u < |g| && 0 <= k < |g[u]| ==> g[u][k] < |g|
  }

  ghost function Edges(g: Digraph): set<Edge> {
    set u: nat, k: nat | u < |g| && k < |g[u]| :: (u, k)
  }

  ghost function InEdges(g: Digraph, m: nat): set<Edge> {
    set u: nat, k: nat | u < |g| && k < |g[u]| && g[u][k] == m :: (u, k)
  }

  ghost function InDegree(g: Digraph, m: nat): nat {
    |InEdges(g, m)|
  }

  /** A countdown over the in-edges of m: the counter is the number of them not yet delivered. */
  ghost predicate CounterOk(g: Digraph, ctr: seq<int>, delivered: set<Edge>, m: nat)
    requires m < |ctr|
  {
    ctr[m] == Countdown.Left(InEdges(g, m), delivered)
  }

  ghost predicate HasEdge(g: Digraph, u: nat, v: nat) {
    u < |g| && v in g[u]
  }

  /** A non-empty list of nodes, each an out-node of the one before it. */
  ghost predicate IsWalk(g: Digraph, p: seq<nat>) {
    && |p| > 0
    && (forall i :: 0 <= i < |p| ==> p[i] < |g|)
    && (forall i, j :: 0 <= i && j == i + 1 && j < |p| ==> HasEdge(g, p[i], p[j]))
  }

  ghost predicate WalkFrom(g: Digraph, p: seq<nat>, a: nat, b: nat) {
    IsWalk(g, p) && p[0] == a && p[|p| - 1] == b
  }

  ghost predicate Reachable(g: Digraph, a: nat, b: nat) {
    exists p :: WalkFrom(g, p, a, b)
  }

  ghost predicate IsCycle(g: Digraph, c: seq<nat>) {
    IsWalk(g, c) && |c| >= 2 && c[0] == c[|c| - 1]
  }

  ghost predicate Acyclic(g: Digraph) {
    forall c :: !IsCycle(g, c)
  }

  /** The graphs the framework is meant to accept: the root has no input, no reachable node waits for an
      unreachable one, and no node reachable from the root lies on a cycle. */
  ghost predicate Accepted(g: Digraph, root: nat) {
    && root < |g|
    && InDegree(g, root) == 0
    && (forall u, v {:trigger HasEdge(g, u, v), Reachable(g, root, u)} :: HasEdge(g, u, v) && Reachable(g, root, v) ==> Reachable(g, root, u))
    && (forall c :: IsCycle(g, c) ==> !Reachable(g, root, c[0]))
  }

  lemma ReachSelf(g: Digraph, a: nat)
    requires a < |g|
    ensures Reachable(g, a, a)
  {
    assert WalkFrom(g, [a], a, a);
  }

  lemma ReachableInRange(g: Digraph, a: nat, b: nat)
    requires Reachable(g, a, b)
    ensures a < |g| && b < |g|
  {
    var p :| WalkFrom(g, p, a, b);
  }

  lemma ReachStep(g: Digraph, a: nat, u: nat, v: nat)
    requires Reachable(g, a, u) && HasEdge(g, u, v) && v < |g|
    ensures Reachable(g, a, v)
  {
    var p :| WalkFrom(g, p, a, u);
    var q := p + [v];
    assert WalkFrom(g, q, a, v);
  }

  /** A set that holds a and every out-node of its members holds everything reachable from a. */
  lemma ClosedHoldsReachable(g: Digraph, s: set<nat>, a: nat, b: nat)
    requires a in s && Reachable(g, a, b)
    requires forall u, v :: u in s && HasEdge(g, u, v) ==> v in s
    ensures b in s
  {
    var p :| WalkFrom(g, p, a, b);
    WalkStaysIn(g, s, p);
  }

  lemma {:induction false} WalkStaysIn(g: Digraph, s: set<nat>, p: seq<nat>)
    requires IsWalk(g, p) && p[0] in s
    requires forall u, v :: u in s && HasEdge(g, u, v) ==> v in s
    ensures p[|p| - 1] in s
  {
    if |p| > 1 {
      var q := p[..|p| - 1];
      WalkStaysIn(g, s, q);
      assert HasEdge(g, p[|p| - 2], p[|p| - 1]);
    }
  }

  /** A node other than the root that can be reached from it has an in-edge from a reachable node. */
  lemma ReachableHasInEdge(g: Digraph, a: nat, b: nat)
    requires Reachable(g, a, b) && a != b
    ensures InEdges(g, b) != {}
    ensures InDegree(g, b) > 0
  {
    var p :| WalkFrom(g, p, a, b);
    var u := p[|p| - 2];
    assert HasEdge(g, u, p[|p| - 1]);
    var k :| 0 <= k < |g[u]| && g[u][k] == b;
    assert (u, k) in InEdges(g, b);
  }

  ghost predicate HasPredIn(g: Digraph, s: set<nat>, m: nat) {
    exists u :: u in s && HasEdge(g, u, m)
  }

  ghost predicate PredClosed(g: Digraph, s: set<nat>) {
    && (forall m :: m in s ==> m < |g|)
    && (forall m {:trigger HasPredIn(g, s, m)} :: m in s ==> HasPredIn(g, s, m))
  }

  /** Following predecessors inside s for n steps. */
  lemma {:induction false} BackWalk(g: Digraph, s: set<nat>, n: nat) returns (p: seq<nat>)
    requires PredClosed(g, s) && s != {}
    ensures IsWalk(g, p) && |p| == n + 1
    ensures forall i :: 0 <= i < |p| ==> p[i] in s
  {
    if n == 0 {
      var m :| m in s;
      p := [m];
    } else {
      var q := BackWalk(g, s, n - 1);
      assert HasPredIn(g, s, q[0]);
      var u :| u in s && HasEdge(g, u, q[0]);
      p := [u] + q;
    }
  }

  /** A non-empty set in which every node has a predecessor contains a cycle. */
  lemma PredClosedHasCycle(g: Digraph, s: set<nat>) returns (c: seq<nat>)
    requires PredClosed(g, s) && s != {}
    ensures IsCycle(g, c)
    ensures forall i :: 0 <= i < |c| ==> c[i] in s
  {
    var p := BackWalk(g, s, |s|);
    var i, j := Pigeonhole(p, s);
    c := p[i..j + 1];
  }

  lemma Pigeonhole(p: seq<nat>, s: set<nat>) returns (i: nat, j: nat)
    requires |p| > |s| && forall k :: 0 <= k < |p| ==> p[k] in s
    ensures i < j < |p| && p[i] == p[j]
  {
    if forall k, l :: 0 <= k < l < |p| ==> p[k] != p[l] {
      Countdown.DistinctSize(p);
      Countdown.SubsetSize((set x | x in p), s);
      assert false;
    }
    i, j :| 0 <= i < j < |p| && p[i] == p[j];
  }

  /** A listing in which every in-edge of a node starts at a node listed before it. */
  ghost predicate TopologicalOrder(g: Digraph, order: seq<nat>) {
    && (forall i :: 0 <= i < |order| ==> order[i] < |g|)
    && (forall i, u :: 0 <= i < |order| && HasEdge(g, u, order[i]) ==> u in order[..i])
  }

  /** No node of a topological order lies on a cycle. */
  lemma OrderedNotOnCycle(g: Digraph, order: seq<nat>, c: seq<nat>)
    requires TopologicalOrder(g, order) && IsCycle(g, c)
    ensures c[0] !in order
  {
    if c[0] in order {
      var i :| 0 <= i < |order| && order[i] == c[0];
      NoDescent(g, order, c, i);
    }
  }

  /** If the end of a walk of at least one edge is listed at i, its start is listed before i. */
  lemma {:induction false} BackAlongWalk(g: Digraph, order: seq<nat>, p: seq<nat>, i: nat)
    requires TopologicalOrder(g, order) && IsWalk(g, p) && |p| >= 2
    requires i < |order| && order[i] == p[|p| - 1]
    ensures exists j: nat :: j < i && order[j] == p[0]
    decreases |p|
  {
    var u := p[|p| - 2];
    assert HasEdge(g, u, p[|p| - 1]);
    assert u in order[..i];
    var j: nat :| j < i && order[j] == u;
    if |p| > 2 {
      var q := p[..|p| - 1];
      BackAlongWalk(g, order, q, j);
    }
  }

  lemma {:induction false} NoDescent(g: Digraph, order: seq<nat>, c: seq<nat>, i: nat)
    requires TopologicalOrder(g, order) && IsCycle(g, c)
    requires i < |order| && order[i] == c[0]
    ensures false
    decreases i
  {
    BackAlongWalk(g, order, c, i);
    var j: nat :| j < i && order[j] == c[0];
    NoDescent(g, order, c, j);
  }
}
