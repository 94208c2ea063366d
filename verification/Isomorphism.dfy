/** Graphs that differ only in the numbering of their nodes. */
module Isomorphism {
  import opened Digraph

  /** f renames the nodes of g to nodes of h and takes edges to edges. */
  ghost predicate Renames(g: Digraph, h: Digraph, f: seq<nat>) {
    && |f| == |g| && WellFormed(g) && WellFormed(h)
    && (forall u :: 0 <= u < |f| ==> f[u] < |h|)
    && (forall u: nat, v: nat {:trigger HasEdge(g, u, v)} :: v < |g| && HasEdge(g, u, v) ==> HasEdge(h, f[u], f[v]))
  }

  /** e undoes f. */
  ghost predicate Undoes(f: seq<nat>, e: seq<nat>) {
    forall u :: 0 <= u < |f| ==> f[u] < |e| && e[f[u]] == u
  }

  /** f and e are inverse renamings. */
  ghost predicate Isomorphic(g: Digraph, h: Digraph, f: seq<nat>, e: seq<nat>) {
    Renames(g, h, f) && Renames(h, g, e) && Undoes(f, e) && Undoes(e, f)
  }

  ghost function Renamed(f: seq<nat>, p: seq<nat>): (q: seq<nat>)
    requires forall i :: 0 <= i < |p| ==> p[i] < |f|
    ensures |q| == |p| && forall i :: 0 <= i < |p| ==> q[i] == f[p[i]]
  {
    seq(|p|, i requires 0 <= i < |p| => f[p[i]])
  }

  lemma WalkRenamed(g: Digraph, h: Digraph, f: seq<nat>, p: seq<nat>)
    requires Renames(g, h, f) && IsWalk(g, p)
    ensures IsWalk(h, Renamed(f, p))
  {
    var q := Renamed(f, p);
    forall i, j | 0 <= i && j == i + 1 && j < |q| ensures HasEdge(h, q[i], q[j]) {
      assert HasEdge(g, p[i], p[j]);
    }
  }

  lemma ReachRenamed(g: Digraph, h: Digraph, f: seq<nat>, a: nat, b: nat)
    requires Renames(g, h, f) && Reachable(g, a, b)
    ensures a < |g| && b < |g| && Reachable(h, f[a], f[b])
  {
    var p :| WalkFrom(g, p, a, b);
    WalkRenamed(g, h, f, p);
    assert WalkFrom(h, Renamed(f, p), f[a], f[b]);
  }

  lemma HasInEdge(g: Digraph, u: nat, m: nat)
    requires HasEdge(g, u, m)
    ensures InDegree(g, m) > 0
  {
    var k :| 0 <= k < |g[u]| && g[u][k] == m;
    assert (u, k) in InEdges(g, m);
  }

  lemma NoInEdges(g: Digraph, m: nat)
    ensures InDegree(g, m) == 0 <==> forall u: nat :: !HasEdge(g, u, m)
  {
    forall u: nat | HasEdge(g, u, m) ensures InDegree(g, m) > 0 {
      HasInEdge(g, u, m);
    }
    if InDegree(g, m) > 0 {
      var edge :| edge in InEdges(g, m);
      assert HasEdge(g, edge.0, m);
    }
  }

  lemma EdgeUndone(g: Digraph, h: Digraph, f: seq<nat>, e: seq<nat>, u: nat, m: nat)
    requires Isomorphic(g, h, f, e) && m < |g| && HasEdge(h, u, f[m])
    ensures u < |e| && HasEdge(g, e[u], m)
  {
  }

  lemma NoInputsRenamed(g: Digraph, h: Digraph, f: seq<nat>, e: seq<nat>, m: nat)
    requires Isomorphic(g, h, f, e) && m < |g| && InDegree(g, m) == 0
    ensures InDegree(h, f[m]) == 0
  {
    NoInEdges(g, m);
    NoInEdges(h, f[m]);
    forall u: nat ensures !HasEdge(h, u, f[m]) {
      if HasEdge(h, u, f[m]) {
        EdgeUndone(g, h, f, e, u, m);
      }
    }
  }

  /** The verdict on a graph does not depend on how its nodes are numbered. */
  lemma AcceptedRenamed(g: Digraph, h: Digraph, f: seq<nat>, e: seq<nat>, root: nat)
    requires Isomorphic(g, h, f, e) && Accepted(g, root)
    ensures Accepted(h, f[root])
  {
    NoInputsRenamed(g, h, f, e, root);
    forall u: nat, v: nat | HasEdge(h, u, v) && Reachable(h, f[root], v) ensures Reachable(h, f[root], u) {
      ReachRenamed(h, g, e, f[root], v);
      assert HasEdge(g, e[u], e[v]);
      ReachRenamed(g, h, f, root, e[u]);
    }
    forall c: seq<nat> | IsCycle(h, c) ensures !Reachable(h, f[root], c[0]) {
      WalkRenamed(h, g, e, c);
      assert IsCycle(g, Renamed(e, c));
      if Reachable(h, f[root], c[0]) {
        ReachRenamed(h, g, e, f[root], c[0]);
      }
    }
  }

  lemma AcceptedAlike(g: Digraph, h: Digraph, f: seq<nat>, e: seq<nat>, root: nat)
    requires Isomorphic(g, h, f, e) && root < |g|
    ensures Accepted(g, root) <==> Accepted(h, f[root])
  {
    if Accepted(g, root) {
      AcceptedRenamed(g, h, f, e, root);
    }
    if Accepted(h, f[root]) {
      AcceptedRenamed(h, g, e, f, f[root]);
    }
  }
}
