/** The graph objects: nodes that know their out-nodes, and the graph that checks them once at start-up and sets up
    the counters of each request. */
module Graph {
  import Countdown
  import opened Bfs
  import opened Digraph
  import opened Kahn
  import opened Options
  import Scheduler
  import opened Subgraph

  class Node {
    const name: string
    const id: nat
    var outNodes: seq<Node>
    var inputNum: int
    var inputNumForCheck: int

    constructor (name: string, id: nat)
      ensures this.name == name && this.id == id
      ensures outNodes == [] && inputNum == 0 && inputNumForCheck == 0
    {
      this.name := name;
      this.id := id;
      outNodes := [];
      inputNum := 0;
      inputNumForCheck := 0;
    }

    /** Appends an out-node and counts the new edge on it, once for the runs and once for the check. */
    method AddOutput(node: Node)
      modifies this`outNodes, node`inputNum, node`inputNumForCheck
      ensures outNodes == old(outNodes) + [node]
      ensures node.inputNum == old(node.inputNum) + 1
      ensures node.inputNumForCheck == old(node.inputNumForCheck) + 1
    {
      outNodes := outNodes + [node];
      node.inputNumForCheck := node.inputNumForCheck + 1;
      node.inputNum := node.inputNum + 1;
    }
  }

  ghost function IdsOf(nodes: seq<Node>): (ids: seq<nat>)
    ensures |ids| == |nodes| && forall i :: 0 <= i < |ids| ==> ids[i] == nodes[i].id
  {
    seq(|nodes|, i requires 0 <= i < |nodes| => nodes[i].id)
  }

  /** The out-node lists of the created nodes, by id. */
  ghost function Topology(created: seq<Node>): (g: Digraph)
    reads (set n | n in created)`outNodes
    ensures |g| == |created| && forall i :: 0 <= i < |g| ==> g[i] == IdsOf(created[i].outNodes)
  {
    if created == [] then []
    else Topology(created[..|created| - 1]) + [IdsOf(created[|created| - 1].outNodes)]
  }

  predicate IsCreated(created: seq<Node>, n: Node) {
    n.id < |created| && created[n.id] == n
  }

  ghost predicate AllCreated(created: seq<Node>, nodes: seq<Node>) {
    forall n :: n in nodes ==> IsCreated(created, n)
  }

  /** Ids are positions in the order of creation, and out-nodes are created nodes. */
  ghost predicate Universe(created: seq<Node>)
    reads (set n | n in created)`outNodes
  {
    && (forall i :: 0 <= i < |created| ==> created[i].id == i)
    && (forall i {:trigger created[i].outNodes} :: 0 <= i < |created| ==> AllCreated(created, created[i].outNodes))
  }

  ghost function CheckCounters(created: seq<Node>): (c: seq<int>)
    reads (set n | n in created)`inputNumForCheck
    ensures |c| == |created| && forall i :: 0 <= i < |c| ==> c[i] == created[i].inputNumForCheck
  {
    if created == [] then []
    else CheckCounters(created[..|created| - 1]) + [created[|created| - 1].inputNumForCheck]
  }

  lemma UniverseIsWellFormed(created: seq<Node>)
    requires Universe(created)
    ensures WellFormed(Topology(created))
  {
    var g := Topology(created);
    forall u, k | 0 <= u < |g| && 0 <= k < |g[u]| ensures g[u][k] < |g| {
      assert IsCreated(created, created[u].outNodes[k]);
    }
  }

  lemma NewId(created: seq<Node>, nodes: seq<Node>, n: Node)
    requires AllCreated(created, nodes) && IsCreated(created, n) && n !in nodes
    ensures n.id !in IdsOf(nodes)
    ensures IdsOf(nodes + [n]) == IdsOf(nodes) + [n.id]
  {
    forall i | 0 <= i < |nodes| ensures nodes[i].id != n.id {
      assert nodes[i] in nodes;
    }
  }

  method PushAll(queue: seq<Node>, nodes: seq<Node>) returns (q: seq<Node>)
    ensures q == queue + nodes && IdsOf(q) == IdsOf(queue) + IdsOf(nodes)
  {
    q := queue;
    for k := 0 to |nodes|
      invariant q == queue + nodes[..k]
    {
      q := q + [nodes[k]];
    }
  }

  class Graph {
    var root: Node?
    var allNodes: seq<Node>

    constructor ()
      ensures root == null && allNodes == []
    {
      root := null;
      allNodes := [];
    }

    /** `allNodes` lists exactly the nodes reachable from the root, each once. */
    ghost predicate Collected(created: seq<Node>)
      reads this, (set n | n in created)`outNodes
    {
      && root != null && IsCreated(created, root)
      && AllCreated(created, allNodes)
      && Distinct(IdsOf(allNodes))
      && (forall n: nat :: n in IdsOf(allNodes) <==> Reachable(Topology(created), root.id, n))
    }

    /** The breadth-first search of `init`. */
    method Collect(node: Node, ghost created: seq<Node>)
      requires Universe(created) && IsCreated(created, node)
      modifies this
      ensures root == node && Collected(created)
    {
      var nodes: seq<Node> := [];
      var q := [node];
      ghost var g := Topology(created);
      UniverseIsWellFormed(created);
      ReachSelf(g, node.id);
      assert IdsOf(q) == [node.id];
      while q != []
        invariant AllCreated(created, q) && AllCreated(created, nodes)
        invariant BfsInv(g, node.id, IdsOf(q), IdsOf(nodes))
        decreases NotIn(|g|, IdsOf(nodes)), |q|
      {
        var cur := q[0];
        BfsStep(g, node.id, IdsOf(q), IdsOf(nodes));
        assert IdsOf(q)[1..] == IdsOf(q[1..]);
        q := q[1..];
        if cur !in nodes {
          NewId(created, nodes, cur);
          nodes := nodes + [cur];
          q := PushAll(q, cur.outNodes);
        }
      }
      BfsDone(g, node.id, IdsOf(nodes));
      root := node;
      allNodes := nodes;
    }

    /** Visits the out-nodes of a deleted node, one at a time, and queues those whose counter reaches zero. */
    static method Delete(r: Node, queue: seq<Node>, ghost created: seq<Node>, ghost root: nat, ghost ctr: seq<int>, ghost moves: seq<Move>,
                         ghost before: seq<nat>)
      returns (queue2: seq<Node>, ghost moves2: seq<Move>)
      requires Universe(created) && IsCreated(created, r) && AllCreated(created, queue)
      requires At(Topology(created), root, ctr, moves, CheckCounters(created), IdsOf(queue), before + [r.id], 0)
      modifies (set n | n in created)`inputNumForCheck
      ensures AllCreated(created, queue2)
      ensures At(Topology(created), root, ctr, moves2, CheckCounters(created), IdsOf(queue2), before + [r.id], |r.outNodes|)
    {
      ghost var g := Topology(created);
      UniverseIsWellFormed(created);
      queue2, moves2 := queue, moves;
      for j := 0 to |r.outNodes|
        invariant AllCreated(created, queue2)
        invariant At(g, root, ctr, moves2, CheckCounters(created), IdsOf(queue2), before + [r.id], j)
      {
        var n := r.outNodes[j];
        assert AllCreated(created, created[r.id].outNodes);
        AtSubtract(g, root, ctr, moves2, CheckCounters(created), IdsOf(queue2), before, r.id, j);
        moves2 := moves2 + [Move.Subtract];
        queue2 := Subtract(n, queue2, created);
      }
    }

    static method Subtract(n: Node, queue: seq<Node>, ghost created: seq<Node>) returns (queue2: seq<Node>)
      requires Universe(created) && IsCreated(created, n) && AllCreated(created, queue)
      modifies (set n | n in created)`inputNumForCheck
      ensures var now := old(CheckCounters(created));
              && CheckCounters(created) == now[n.id := now[n.id] - 1]
              && queue2 == if now[n.id] == 1 then queue + [n] else queue
      ensures IdsOf(queue2) == if old(CheckCounters(created))[n.id] == 1 then IdsOf(queue) + [n.id] else IdsOf(queue)
      ensures AllCreated(created, queue2)
    {
      assert created[n.id] in created;
      n.inputNumForCheck := n.inputNumForCheck - 1;
      queue2 := if n.inputNumForCheck == 0 then queue + [n] else queue;
    }

    /** Deletes the front of the queue. */
    static method DeleteFront(queue: seq<Node>, deleted: map<Node, bool>, ghost nodes: seq<Node>, ghost created: seq<Node>,
                              ghost root: nat, ghost ctr: seq<int>, ghost moves: seq<Move>, ghost order: seq<nat>)
      returns (queue2: seq<Node>, deleted2: map<Node, bool>, ghost moves2: seq<Move>)
      requires Universe(created) && AllCreated(created, queue) && queue != [] && Marked(created, nodes, deleted, order)
      requires CanCheck(Topology(created), root, ctr)
      requires At(Topology(created), root, ctr, moves, CheckCounters(created), IdsOf(queue), order, LastOut(Topology(created), order))
      modifies (set n | n in created)`inputNumForCheck
      ensures AllCreated(created, queue2) && Marked(created, nodes, deleted2, order + [queue[0].id])
      ensures var order2 := order + [queue[0].id];
              At(Topology(created), root, ctr, moves2, CheckCounters(created), IdsOf(queue2), order2, LastOut(Topology(created), order2))
      ensures NotIn(|created|, order + [queue[0].id]) < NotIn(|created|, order)
    {
      var r := queue[0];
      AtPop(Topology(created), root, ctr, moves, CheckCounters(created), IdsOf(queue), order);
      assert IdsOf(queue)[1..] == IdsOf(queue[1..]);
      deleted2 := Mark(r, deleted, nodes, created, order);
      queue2, moves2 := Delete(r, queue[1..], created, root, ctr, moves + [Pop], order);
    }

    /** Deletes nodes without inputs, starting with the root, until there are none left. */
    static method DeleteAll(start: Node, unmarked: map<Node, bool>, ghost nodes: seq<Node>, ghost created: seq<Node>)
      returns (deleted: map<Node, bool>, ghost order: seq<nat>)
      requires Universe(created) && IsCreated(created, start) && Marked(created, nodes, unmarked, [])
      requires CanCheck(Topology(created), start.id, CheckCounters(created))
      modifies (set n | n in created)`inputNumForCheck
      ensures Marked(created, nodes, deleted, order)
      ensures (forall n: nat :: Reachable(Topology(created), start.id, n) ==> n in order) <==> Accepted(Topology(created), start.id)
    {
      ghost var g := Topology(created);
      ghost var ctr := CheckCounters(created);
      var queue := [start];
      ghost var moves: seq<Move> := [];
      deleted, order := unmarked, [];
      assert IdsOf(queue) == [start.id];
      while queue != []
        invariant AllCreated(created, queue)
        invariant At(g, start.id, ctr, moves, CheckCounters(created), IdsOf(queue), order, LastOut(g, order))
        invariant Marked(created, nodes, deleted, order)
        decreases NotIn(|g|, order)
      {
        ghost var r := queue[0];
        queue, deleted, moves := DeleteFront(queue, deleted, nodes, created, start.id, ctr, moves, order);
        order := order + [r.id];
      }
      AtEnd(g, start.id, ctr, moves, CheckCounters(created), order);
    }

    static method Mark(r: Node, deleted: map<Node, bool>, ghost nodes: seq<Node>, ghost created: seq<Node>, ghost order: seq<nat>)
      returns (deleted2: map<Node, bool>)
      requires IsCreated(created, r) && Marked(created, nodes, deleted, order)
      ensures Marked(created, nodes, deleted2, order + [r.id])
    {
      deleted2 := deleted[r := true];
    }

    /** Kahn's algorithm: the graph passes when no collected node is left undeleted. */
    method Check(ghost created: seq<Node>) returns (valid: bool)
      requires Universe(created) && Collected(created)
      requires forall i :: 0 <= i < |created| ==> created[i].inputNumForCheck == InDegree(Topology(created), i)
      modifies (set n | n in created)`inputNumForCheck
      ensures valid <==> Accepted(Topology(created), root.id)
    {
      UniverseIsWellFormed(created);
      var start: Node := root;
      var deleted := Unmarked(allNodes);
      if start.inputNumForCheck != 0 {
        return false;
      }
      ghost var order;
      deleted, order := DeleteAll(start, deleted, allNodes, created);
      valid := forall n :: n in deleted ==> deleted[n];
      AllMarked(created, start.id, allNodes, deleted, order);
    }

    /** All flags are set exactly when every collected node has been deleted. */
    static lemma AllMarked(created: seq<Node>, root: nat, nodes: seq<Node>, deleted: map<Node, bool>, order: seq<nat>)
      requires Marked(created, nodes, deleted, order)
      requires forall n: nat :: n in IdsOf(nodes) <==> Reachable(Topology(created), root, n)
      ensures (forall n :: n in deleted ==> deleted[n]) <==> forall n: nat :: Reachable(Topology(created), root, n) ==> n in order
    {
      if forall n :: n in deleted ==> deleted[n] {
        forall x: nat | Reachable(Topology(created), root, x) ensures x in order {
          var i :| 0 <= i < |nodes| && nodes[i].id == x;
          assert nodes[i] in nodes;
        }
      } else {
        var n :| n in deleted && !deleted[n];
        var i :| 0 <= i < |nodes| && nodes[i] == n;
        assert IdsOf(nodes)[i] == n.id;
      }
    }

    /** `del_flag_map` before any deletion. */
    static method Unmarked(nodes: seq<Node>) returns (deleted: map<Node, bool>)
      ensures forall n :: n in deleted <==> n in nodes
      ensures forall n :: n in deleted ==> !deleted[n]
    {
      deleted := map[];
      for i := 0 to |nodes|
        invariant forall n :: n in deleted <==> n in nodes[..i]
        invariant forall n :: n in deleted ==> !deleted[n]
      {
        deleted := deleted[nodes[i] := false];
      }
    }

    /** The flags cover the collected nodes and say which nodes have been deleted. */
    static ghost predicate Marked(created: seq<Node>, nodes: seq<Node>, deleted: map<Node, bool>, order: seq<nat>) {
      && (forall n :: n in nodes ==> n in deleted)
      && (forall n :: n in deleted ==> IsCreated(created, n) && (n in nodes || deleted[n]) && (deleted[n] <==> n.id in order))
    }

    /** Start-up: collect the reachable nodes, then check them. */
    method Init(node: Node, ghost created: seq<Node>) returns (ret: int)
      requires Universe(created) && IsCreated(created, node)
      requires forall i :: 0 <= i < |created| ==> created[i].inputNumForCheck == InDegree(Topology(created), i)
      modifies this, (set n | n in created)`inputNumForCheck
      ensures root == node && Collected(created)
      ensures ret == if Accepted(Topology(created), node.id) then 0 else -1
    {
      Collect(node, created);
      assert Universe(created);
      var valid := Check(created);
      ret := if valid then 0 else -1;
    }

    /** A counter for each listed node, at its number of inputs; the process ends at an id that has no counter. */
    static method Counters(nodes: seq<Node>) returns (ok: bool, nodeInputNum: array<int>)
      requires Distinct(IdsOf(nodes))
      ensures ok <==> forall j :: 0 <= j < |nodes| ==> nodes[j].id < |nodes|
      ensures fresh(nodeInputNum) && nodeInputNum.Length == |nodes|
      ensures ok ==> forall j :: 0 <= j < |nodes| ==> nodeInputNum[nodes[j].id] == nodes[j].inputNum
    {
      nodeInputNum := new int[|nodes|];
      for i := 0 to |nodes|
        invariant forall j :: 0 <= j < i ==> nodes[j].id < |nodes| && nodeInputNum[nodes[j].id] == nodes[j].inputNum
      {
        if nodes[i].id >= |nodes| {
          return false, nodeInputNum;
        }
        assert forall j :: 0 <= j < i ==> IdsOf(nodes)[j] != IdsOf(nodes)[i];
        nodeInputNum[nodes[i].id] := nodes[i].inputNum;
      }
      ok := true;
    }

    /** The set-up of one request: a fresh counter for every listed node, at the node's number of inputs.  The counters
        are indexed by id, so the process ends, and None is returned, when the nodes that the root reaches do not have
        the lowest ids. */
    method Run(ghost created: seq<Node>) returns (ret: Option<int>, nodeInputNum: array<int>)
      requires Universe(created) && (root != null ==> Collected(created))
      requires forall i :: 0 <= i < |created| ==> created[i].inputNum == InDegree(Topology(created), i)
      ensures fresh(nodeInputNum)
      ensures root == null ==> ret == Some(-1)
      ensures root != null ==> ret == if LowestIds(Topology(created), root.id, |allNodes|) then Some(0) else None
      ensures ret == Some(0) ==> nodeInputNum[..] == InDegrees(Topology(created), |allNodes|)
    {
      if root == null {
        nodeInputNum := new int[0];
        return Some(-1), nodeInputNum;
      }
      var ok;
      ok, nodeInputNum := Counters(allNodes);
      ListedHaveLowestIds(Topology(created), root.id, IdsOf(allNodes));
      if !ok {
        assert exists j :: 0 <= j < |allNodes| && IdsOf(allNodes)[j] >= |allNodes|;
        return None, nodeInputNum;
      }
      assert forall j :: 0 <= j < |allNodes| ==> IdsOf(allNodes)[j] < |allNodes|;
      forall m: nat | m < |allNodes| ensures nodeInputNum[m] == InDegree(Topology(created), m) {
        assert m in IdsOf(allNodes);
        var j :| 0 <= j < |allNodes| && IdsOf(allNodes)[j] == m;
        assert IsCreated(created, allNodes[j]);
      }
      ret := Some(0);
    }
  }

  /** What the theorems about runs require of the plan of a request is what the check and the set-up establish. */
  lemma AcceptedMayRun(created: seq<Node>, root: Node, k: nat, io: set<nat>)
    requires Universe(created) && IsCreated(created, root) && Accepted(Topology(created), root.id)
    requires LowestIds(Topology(created), root.id, k)
    ensures k <= |created|
    ensures var p := Scheduler.Plan(Topology(created)[..k], root.id, io);
            Scheduler.GoodPlan(p) && Scheduler.Init(p).ctr == InDegrees(Topology(created), k)
  {
    UniverseIsWellFormed(created);
    PartAccepted(Topology(created), root.id, k);
  }

  /** A list of the reachable ids, each once: they are the lowest ids exactly if none reaches the length of the list. */
  lemma ListedHaveLowestIds(g: Digraph, root: nat, ids: seq<nat>)
    requires Distinct(ids) && forall n: nat :: n in ids <==> Reachable(g, root, n)
    ensures LowestIds(g, root, |ids|) <==> forall i :: 0 <= i < |ids| ==> ids[i] < |ids|
    ensures LowestIds(g, root, |ids|) ==> forall n: nat :: n in ids <==> n < |ids|
  {
    if forall i :: 0 <= i < |ids| ==> ids[i] < |ids| {
      EveryIdOnce(ids);
    } else {
      var i :| 0 <= i < |ids| && ids[i] >= |ids|;
      assert Reachable(g, root, ids[i]);
    }
  }

  /** Distinct ids below their number are all the ids below it. */
  lemma EveryIdOnce(ids: seq<nat>)
    requires Distinct(ids) && forall i :: 0 <= i < |ids| ==> ids[i] < |ids|
    ensures forall n: nat :: n in ids <==> n < |ids|
  {
    Countdown.DistinctSize(ids);
    var all := Countdown.Below(|ids|);
    var listed := set x | x in ids;
    Countdown.SubsetSize(listed, all);
    forall n: nat | n < |ids| ensures n in ids {
      if n !in ids {
        Countdown.SubsetSize(listed, all - {n});
        assert false;
      }
    }
  }
}
