/** The part of a graph that is reachable from its root, when that part has the lowest ids. */
module Subgraph {
  import opened Digraph

  /** The nodes reachable from the root are those below k. */
  ghost predicate LowestIds(g: Digraph, root: nat, k: nat) {
    forall n: nat {:trigger Reachable(g, root, n)} :: Reachable(g, root, n) <==> n < k
  }

  ghost function InDegrees(g: Digraph, k: nat): seq<int> {
    seq(k, (m: nat) => InDegree(g, m))
  }

  lemma AtMostAll(g: Digraph, root: nat, k: nat)
    requires LowestIds(g, root, k)
    ensures k <= |g|
  {
    if k > |g| {
      ReachableInRange(g, root, |g|);
    }
  }

  /** The out-nodes of the part belong to it. */
  lemma PartWellFormed(g: Digraph, root: nat, k: nat)
    requires WellFormed(g) && LowestIds(g, root, k) && k <= |g|
    ensures WellFormed(g[..k])
  {
    forall u, i | 0 <= u < k && 0 <= i < |g[u]| ensures g[u][i] < k {
      assert Reachable(g, root, u) && HasEdge(g, u, g[u][i]);
      ReachStep(g, root, u, g[u][i]);
    }
  }

  /** In an acceptable graph, so do the sources of its in-edges. */
  lemma PartInEdges(g: Digraph, root: nat, k: nat, m: nat)
    requires LowestIds(g, root, k) && k <= |g| && Accepted(g, root) && m < k
    ensures InEdges(g[..k], m) == InEdges(g, m)
  {
    forall u: nat, i: nat | u < |g| && i < |g[u]| && g[u][i] == m ensures u < k {
      assert HasEdge(g, u, m) && Reachable(g, root, m);
      assert Reachable(g, root, u);
    }
  }

  lemma {:induction false} WalkInPart(g: Digraph, root: nat, k: nat, p: seq<nat>)
    requires LowestIds(g, root, k) && k <= |g| && IsWalk(g, p) && p[0] == root
    ensures IsWalk(g[..k], p)
  {
    forall i | 0 <= i < |p| ensures p[i] < k {
      assert WalkFrom(g, p[..i + 1], root, p[i]);
      assert Reachable(g, root, p[i]);
    }
    forall i, j | 0 <= i && j == i + 1 && j < |p| ensures HasEdge(g[..k], p[i], p[j]) {
      assert HasEdge(g, p[i], p[j]);
    }
  }

  lemma WalkOfPart(g: Digraph, k: nat, p: seq<nat>)
    requires k <= |g| && IsWalk(g[..k], p)
    ensures IsWalk(g, p)
  {
    forall i, j | 0 <= i && j == i + 1 && j < |p| ensures HasEdge(g, p[i], p[j]) {
      assert HasEdge(g[..k], p[i], p[j]);
    }
  }

  lemma PartReachable(g: Digraph, root: nat, k: nat, n: nat)
    requires LowestIds(g, root, k) && k <= |g| && n < k
    ensures Reachable(g[..k], root, n)
  {
    assert Reachable(g, root, n);
    var p :| WalkFrom(g, p, root, n);
    WalkInPart(g, root, k, p);
    assert WalkFrom(g[..k], p, root, n);
  }

  /** The part of an acceptable graph is acceptable, all of it is reachable, and its in-degrees are those of the graph. */
  lemma PartAccepted(g: Digraph, root: nat, k: nat)
    requires WellFormed(g) && Accepted(g, root) && LowestIds(g, root, k)
    ensures k <= |g| && WellFormed(g[..k]) && Accepted(g[..k], root)
    ensures forall n: nat :: n < k ==> Reachable(g[..k], root, n)
    ensures InDegrees(g[..k], k) == InDegrees(g, k)
  {
    AtMostAll(g, root, k);
    PartWellFormed(g, root, k);
    var h := g[..k];
    forall m: nat | m < k ensures InEdges(h, m) == InEdges(g, m) && Reachable(h, root, m) {
      PartInEdges(g, root, k, m);
      PartReachable(g, root, k, m);
    }
    ReachSelf(g, root);
    assert Reachable(g, root, root);
    forall c | IsCycle(h, c) ensures IsCycle(g, c) && c[0] < k {
      WalkOfPart(g, k, c);
    }
  }

  /** An acceptable graph on which a request cannot be run: the root 0 reaches 2 but not 1, so there is no counter for 2. */
  lemma UnreachedLowerId()
    ensures var g: Digraph := [[2], [], []];
            WellFormed(g) && Accepted(g, 0) && forall k :: !LowestIds(g, 0, k)
  {
    var g: Digraph := [[2], [], []];
    assert InEdges(g, 0) == {};
    forall u: nat, v: nat | HasEdge(g, u, v) ensures u == 0 && v == 2 {
    }
    ReachSelf(g, 0);
    assert TopologicalOrder(g, [0, 1, 2]) by {
      assert [0, 1, 2][..2] == [0, 1];
    }
    forall c | IsCycle(g, c) ensures c[0] !in [0, 1, 2] {
      OrderedNotOnCycle(g, [0, 1, 2], c);
    }
    assert HasEdge(g, 0, 2);
    ReachStep(g, 0, 0, 2);
    if Reachable(g, 0, 1) {
      ClosedHoldsReachable(g, {0, 2}, 0, 1);
    }
    forall k ensures !LowestIds(g, 0, k) {
      assert Reachable(g, 0, 2) && !Reachable(g, 0, 1);
    }
  }
}
