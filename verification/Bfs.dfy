/** The bookkeeping behind `Graph::init`: breadth-first search with a queue that may hold a node more than once. */
module Bfs {
  import opened Digraph

  ghost predicate Distinct(s: seq<nat>) {
    forall i, j :: 0 <= i < j < |s| ==> s[i] != s[j]
  }

  ghost predicate AllReachable(g: Digraph, root: nat, s: seq<nat>) {
    forall x :: x in s ==> x < |g| && Reachable(g, root, x)
  }

  ghost predicate BfsInv(g: Digraph, root: nat, queue: seq<nat>, visited: seq<nat>) {
    && Distinct(visited)
    && AllReachable(g, root, queue) && AllReachable(g, root, visited)
    && (root in visited || root in queue)
    && (forall u, v :: u in visited && HasEdge(g, u, v) ==> v in visited || v in queue)
  }

  ghost function NotIn(n: nat, s: seq<nat>): set<nat> {
    set x: nat | x < n && x !in s
  }

  lemma OutNodesReachable(g: Digraph, root: nat, cur: nat)
    requires WellFormed(g) && cur < |g| && Reachable(g, root, cur)
    ensures AllReachable(g, root, g[cur])
  {
    forall v: nat | v in g[cur] ensures v < |g| && Reachable(g, root, v) {
      assert HasEdge(g, cur, v);
      ReachStep(g, root, cur, v);
    }
  }

  lemma JoinReachable(g: Digraph, root: nat, a: seq<nat>, b: seq<nat>)
    requires AllReachable(g, root, a) && AllReachable(g, root, b)
    ensures AllReachable(g, root, a + b)
  {
  }

  /** A node met again is dropped; a new one is listed and its out-nodes are queued. */
  lemma BfsStep(g: Digraph, root: nat, queue: seq<nat>, visited: seq<nat>)
    requires WellFormed(g) && BfsInv(g, root, queue, visited) && queue != []
    ensures queue[0] in visited ==> BfsInv(g, root, queue[1..], visited)
    ensures queue[0] < |g|
    ensures queue[0] !in visited ==>
              && BfsInv(g, root, queue[1..] + g[queue[0]], visited + [queue[0]])
              && NotIn(|g|, visited + [queue[0]]) < NotIn(|g|, visited)
  {
    var cur, rest := queue[0], queue[1..];
    assert queue == [cur] + rest && cur in queue;
    assert AllReachable(g, root, rest);
    if cur !in visited {
      OutNodesReachable(g, root, cur);
      JoinReachable(g, root, rest, g[cur]);
      JoinReachable(g, root, visited, [cur]);
      assert cur in NotIn(|g|, visited) && cur !in NotIn(|g|, visited + [cur]);
    }
  }

  lemma BfsDone(g: Digraph, root: nat, visited: seq<nat>)
    requires BfsInv(g, root, [], visited)
    ensures forall n: nat :: n in visited <==> Reachable(g, root, n)
  {
    forall n: nat | Reachable(g, root, n) ensures n in visited {
      ClosedHoldsReachable(g, (set x | x in visited), root, n);
    }
  }
}
