/** The bookkeeping behind `Graph::check`: deleting nodes without inputs, on the values of the node fields. */
module Kahn {
  import Countdown
  import opened Bfs
  import opened Digraph
  import opened Options

  /** `seen` is everything ever queued: the nodes deleted, in `order`, and those in `queue`. */
  ghost predicate Listed(seen: set<nat>, order: seq<nat>, queue: seq<nat>) {
    && Distinct(queue)
    && (forall x :: x in queue ==> x in seen && x !in order)
    && (forall x :: x in order ==> x in seen)
    && (forall x :: x in seen ==> x in order || x in queue)
  }

  /** `ctr` holds the fields `input_num_4_check` and `delivered` the edges already subtracted from them. */
  ghost predicate Counted(g: Digraph, ctr: seq<int>, delivered: set<Edge>) {
    && |ctr| == |g|
    && (forall m: nat {:trigger CounterOk(g, ctr, delivered, m)} :: m < |g| ==> CounterOk(g, ctr, delivered, m))
  }

  ghost predicate KahnInv(g: Digraph, root: nat, ctr: seq<int>, delivered: set<Edge>, seen: set<nat>, order: seq<nat>, queue: seq<nat>) {
    && Counted(g, ctr, delivered)
    && delivered <= Edges(g)
    && Listed(seen, order, queue)
    && root in seen
    && (forall x :: x in seen ==> x < |g| && ctr[x] == 0 && Reachable(g, root, x))
    && (forall e :: e in delivered ==> e.0 in order)
    && (forall e :: e in delivered && g[e.0][e.1] < |g| && ctr[g[e.0][e.1]] == 0 ==> g[e.0][e.1] in seen)
    && TopologicalOrder(g, order)
  }

  /** The edges of the nodes in `before` have been delivered, and of r those up to the j-th. */
  ghost predicate DeliveredUpTo(g: Digraph, delivered: set<Edge>, before: seq<nat>, r: nat, j: nat) {
    && AllDelivered(g, delivered, before)
    && r < |g| && r !in before
    && (forall k: nat :: k < |g[r]| ==> ((r, k) in delivered <==> k < j))
  }

  ghost predicate AllDelivered(g: Digraph, delivered: set<Edge>, order: seq<nat>) {
    forall n, k: nat :: n in order && n < |g| && k < |g[n]| ==> (n, k) in delivered
  }

  lemma KahnStart(g: Digraph, root: nat, ctr: seq<int>)
    requires root < |g| && |ctr| == |g| && ctr[root] == 0
    requires forall m: nat :: m < |g| ==> ctr[m] == InDegree(g, m)
    ensures KahnInv(g, root, ctr, {}, {root}, [], [root])
    ensures AllDelivered(g, {}, [])
  {
    ReachSelf(g, root);
    forall m: nat | m < |g| ensures CounterOk(g, ctr, {}, m) {
      assert InEdges(g, m) - {} == InEdges(g, m);
    }
  }

  /** Taking the front of the queue keeps the deletion order topological. */
  lemma KahnPop(g: Digraph, root: nat, ctr: seq<int>, delivered: set<Edge>, seen: set<nat>, order: seq<nat>, queue: seq<nat>)
    requires KahnInv(g, root, ctr, delivered, seen, order, queue) && queue != [] && AllDelivered(g, delivered, order)
    ensures KahnInv(g, root, ctr, delivered, seen, order + [queue[0]], queue[1..])
    ensures DeliveredUpTo(g, delivered, order, queue[0], 0)
  {
    var r := queue[0];
    assert queue == [r] + queue[1..];
    assert r in queue && r in seen;
    PredecessorsDelivered(g, ctr, delivered, order, r);
    OrderExtends(g, order, r);
  }

  /** A node whose counter is at zero has all its predecessors deleted. */
  lemma PredecessorsDelivered(g: Digraph, ctr: seq<int>, delivered: set<Edge>, order: seq<nat>, r: nat)
    requires Counted(g, ctr, delivered) && r < |g| && ctr[r] == 0 && forall e :: e in delivered ==> e.0 in order
    ensures forall u: nat :: HasEdge(g, u, r) ==> u in order
  {
    assert CounterOk(g, ctr, delivered, r);
    Countdown.Zero(InEdges(g, r), delivered);
    forall u: nat | HasEdge(g, u, r) ensures u in order {
      var k :| 0 <= k < |g[u]| && g[u][k] == r;
      assert (u, k) in InEdges(g, r);
    }
  }

  lemma OrderExtends(g: Digraph, order: seq<nat>, r: nat)
    requires TopologicalOrder(g, order) && r < |g| && forall u: nat :: HasEdge(g, u, r) ==> u in order
    ensures TopologicalOrder(g, order + [r])
  {
    assert forall i :: 0 <= i < |order| ==> (order + [r])[..i] == order[..i];
    assert (order + [r])[..|order|] == order;
  }

  lemma DeliverCounts(g: Digraph, ctr: seq<int>, delivered: set<Edge>, e: Edge, m: nat)
    requires m < |g| && Counted(g, ctr, delivered) && e in InEdges(g, m) && e !in delivered
    ensures Counted(g, ctr[m := ctr[m] - 1], delivered + {e}) && ctr[m] >= 1
  {
    var ctr2 := ctr[m := ctr[m] - 1];
    assert CounterOk(g, ctr, delivered, m);
    Countdown.Spend(InEdges(g, m), delivered, e);
    forall x: nat | x < |g| ensures CounterOk(g, ctr2, delivered + {e}, x) {
      if x != m {
        assert CounterOk(g, ctr, delivered, x);
        Countdown.Other(InEdges(g, x), delivered, e);
      }
    }
  }

  lemma DeliverListed(seen: set<nat>, order: seq<nat>, queue: seq<nat>, m: nat)
    requires Listed(seen, order, queue) && m !in seen
    ensures Listed(seen + {m}, order, queue + [m])
  {
  }

  lemma DeliverNext(g: Digraph, delivered: set<Edge>, before: seq<nat>, r: nat, j: nat)
    requires DeliveredUpTo(g, delivered, before, r, j) && j < |g[r]|
    ensures DeliveredUpTo(g, delivered + {(r, j)}, before, r, j + 1)
  {
  }

  lemma TargetReachable(g: Digraph, root: nat, r: nat, j: nat)
    requires WellFormed(g) && Reachable(g, root, r) && r < |g| && j < |g[r]|
    ensures g[r][j] < |g| && Reachable(g, root, g[r][j])
  {
    assert HasEdge(g, r, g[r][j]);
    ReachStep(g, root, r, g[r][j]);
  }

  /** The counter of the target is not at zero, so it has not been queued. */
  lemma TargetCounted(g: Digraph, ctr: seq<int>, delivered: set<Edge>, r: nat, j: nat)
    requires Counted(g, ctr, delivered) && r < |g| && j < |g[r]| && g[r][j] < |g| && (r, j) !in delivered
    ensures var m := g[r][j]; ctr[m] >= 1 && Counted(g, ctr[m := ctr[m] - 1], delivered + {(r, j)})
  {
    assert (r, j) in InEdges(g, g[r][j]);
    DeliverCounts(g, ctr, delivered, (r, j), g[r][j]);
  }

  /** Subtracting one edge from its target, which joins the queue when its counter reaches zero. */
  lemma KahnDeliver(g: Digraph, root: nat, ctr: seq<int>, delivered: set<Edge>, seen: set<nat>, order: seq<nat>, queue: seq<nat>,
                    r: nat, j: nat, seen2: set<nat>, queue2: seq<nat>)
    requires WellFormed(g) && KahnInv(g, root, ctr, delivered, seen, order, queue) && r in order
    requires r < |g| && j < |g[r]| && (r, j) !in delivered
    requires var m := g[r][j];
             m < |ctr| && if ctr[m] == 1 then seen2 == seen + {m} && queue2 == queue + [m] else seen2 == seen && queue2 == queue
    ensures ctr[g[r][j]] >= 1
    ensures KahnInv(g, root, ctr[g[r][j] := ctr[g[r][j]] - 1], delivered + {(r, j)}, seen2, order, queue2)
  {
    TargetReachable(g, root, r, j);
    TargetCounted(g, ctr, delivered, r, j);
    DeliverListed(seen, order, queue, g[r][j]);
  }

  lemma DeletedMeansAccepted(g: Digraph, root: nat, order: seq<nat>)
    requires root < |g| && InDegree(g, root) == 0 && TopologicalOrder(g, order)
    requires forall n :: Reachable(g, root, n) <==> n in order
    ensures Accepted(g, root)
  {
    forall u, v | HasEdge(g, u, v) && Reachable(g, root, v) ensures Reachable(g, root, u) {
      var i :| 0 <= i < |order| && order[i] == v;
      assert u in order[..i];
    }
    forall c | IsCycle(g, c) ensures !Reachable(g, root, c[0]) {
      OrderedNotOnCycle(g, order, c);
    }
  }

  /** A reachable node that was not deleted waits for another one. */
  lemma LeftOverWaits(g: Digraph, root: nat, ctr: seq<int>, delivered: set<Edge>, seen: set<nat>, order: seq<nat>, m: nat) returns (u: nat)
    requires WellFormed(g) && Accepted(g, root)
    requires KahnInv(g, root, ctr, delivered, seen, order, []) && AllDelivered(g, delivered, order)
    requires Reachable(g, root, m) && m !in order && m < |g|
    ensures HasEdge(g, u, m) && u !in order && Reachable(g, root, u) && u < |g|
  {
    assert CounterOk(g, ctr, delivered, m);
    Countdown.Zero(InEdges(g, m), delivered);
    ReachableHasInEdge(g, root, m);
    var e0 :| e0 in InEdges(g, m);
    var e :| e in InEdges(g, m) && e !in delivered;
    u := e.0;
    assert HasEdge(g, u, m);
    assert Reachable(g, root, u);
  }

  lemma AcceptedMeansDeleted(g: Digraph, root: nat, ctr: seq<int>, delivered: set<Edge>, seen: set<nat>, order: seq<nat>, n: nat)
    requires WellFormed(g) && Accepted(g, root)
    requires KahnInv(g, root, ctr, delivered, seen, order, []) && AllDelivered(g, delivered, order)
    requires Reachable(g, root, n)
    ensures n in order
  {

    ReachableInRange(g, root, n);
    var stuck := set m: nat | m < |g| && Reachable(g, root, m) && m !in order;
    forall m | m in stuck ensures HasPredIn(g, stuck, m) {
      var u := LeftOverWaits(g, root, ctr, delivered, seen, order, m);
      assert u in stuck;
    }
    if n !in order {
      assert n in stuck;
      var c := PredClosedHasCycle(g, stuck);
      assert false;
    }
  }

  // ------------------------------------------------------------------ the algorithm as a machine

  /** Where `check` stands: the counters, the queue, the nodes deleted so far, how many out-nodes of the last of
      them have been visited, and, as history, the edges subtracted and the nodes ever queued. */
  datatype Checker = Checker(ctr: seq<int>, queue: seq<nat>, order: seq<nat>, next: nat, delivered: set<Edge>, seen: set<nat>)

  datatype Move = Pop | Subtract

  predicate BetweenNodes(g: Digraph, c: Checker) {
    c.order == [] || (var r := c.order[|c.order| - 1]; r < |g| && c.next >= |g[r]|)
  }

  predicate InsideNode(g: Digraph, c: Checker) {
    && c.order != [] && c.order[|c.order| - 1] < |g|
    && c.next < |g[c.order[|c.order| - 1]]| && g[c.order[|c.order| - 1]][c.next] < |c.ctr|
  }

  function Moved(g: Digraph, c: Checker, move: Move): Option<Checker> {
    match move
    case Pop =>
      if c.queue != [] && BetweenNodes(g, c) then Some(c.(queue := c.queue[1..], order := c.order + [c.queue[0]], next := 0)) else None
    case Subtract =>
      if InsideNode(g, c) then
        var r := c.order[|c.order| - 1];
        var m := g[r][c.next];
        Some(Checker(c.ctr[m := c.ctr[m] - 1], if c.ctr[m] == 1 then c.queue + [m] else c.queue, c.order, c.next + 1,
                     c.delivered + {(r, c.next)}, if c.ctr[m] == 1 then c.seen + {m} else c.seen))
      else None
  }

  /** The state after a list of moves. */
  function After(g: Digraph, root: nat, ctr: seq<int>, moves: seq<Move>): Option<Checker> {
    if moves == [] then Some(Checker(ctr, [root], [], 0, {}, {root}))
    else
      match After(g, root, ctr, moves[..|moves| - 1])
      case None => None
      case Some(c) => Moved(g, c, moves[|moves| - 1])
  }

  ghost predicate CheckerOk(g: Digraph, root: nat, c: Checker) {
    && KahnInv(g, root, c.ctr, c.delivered, c.seen, c.order, c.queue)
    && if c.order == [] then true
       else DeliveredUpTo(g, c.delivered, c.order[..|c.order| - 1], c.order[|c.order| - 1], c.next)
  }

  /** What `check` starts from. */
  ghost predicate CanCheck(g: Digraph, root: nat, ctr: seq<int>) {
    && WellFormed(g) && root < |g| && |ctr| == |g| && ctr[root] == 0
    && (forall m: nat :: m < |g| ==> ctr[m] == InDegree(g, m))
  }

  lemma OrderSplits(g: Digraph, c: Checker)
    requires c.order != [] && DeliveredUpTo(g, c.delivered, c.order[..|c.order| - 1], c.order[|c.order| - 1], c.next)
    requires BetweenNodes(g, c)
    ensures AllDelivered(g, c.delivered, c.order)
  {
    assert c.order == c.order[..|c.order| - 1] + [c.order[|c.order| - 1]];
  }

  lemma PopOk(g: Digraph, root: nat, c: Checker)
    requires CheckerOk(g, root, c) && Moved(g, c, Pop).Some?
    ensures CheckerOk(g, root, Moved(g, c, Pop).value)
    ensures c.queue[0] in NotIn(|g|, c.order)
  {
    if c.order != [] {
      OrderSplits(g, c);
    }
    KahnPop(g, root, c.ctr, c.delivered, c.seen, c.order, c.queue);
    assert (c.order + [c.queue[0]])[..|c.order|] == c.order;
  }

  lemma IsCheckerOk(g: Digraph, root: nat, c: Checker, before: seq<nat>, r: nat)
    requires c.order == before + [r]
    requires KahnInv(g, root, c.ctr, c.delivered, c.seen, c.order, c.queue)
    requires DeliveredUpTo(g, c.delivered, before, r, c.next)
    ensures CheckerOk(g, root, c)
  {
    assert c.order[..|c.order| - 1] == before;
  }

  lemma Subtracted(g: Digraph, root: nat, c: Checker, c2: Checker, before: seq<nat>, r: nat)
    requires WellFormed(g) && KahnInv(g, root, c.ctr, c.delivered, c.seen, c.order, c.queue)
    requires c.order == before + [r] && DeliveredUpTo(g, c.delivered, before, r, c.next) && c.next < |g[r]|
    requires var m := g[r][c.next];
             && m < |c.ctr| && c2.ctr == c.ctr[m := c.ctr[m] - 1]
             && c2.queue == (if c.ctr[m] == 1 then c.queue + [m] else c.queue)
             && c2.seen == (if c.ctr[m] == 1 then c.seen + {m} else c.seen)
    requires c2.order == c.order && c2.next == c.next + 1 && c2.delivered == c.delivered + {(r, c.next)}
    ensures CheckerOk(g, root, c2)
  {
    assert r in c.order;
    KahnDeliver(g, root, c.ctr, c.delivered, c.seen, c.order, c.queue, r, c.next, c2.seen, c2.queue);
    DeliverNext(g, c.delivered, before, r, c.next);
    IsCheckerOk(g, root, c2, before, r);
  }

  lemma SubtractOk(g: Digraph, root: nat, c: Checker)
    requires WellFormed(g) && CheckerOk(g, root, c) && Moved(g, c, Subtract).Some?
    ensures CheckerOk(g, root, Moved(g, c, Subtract).value)
  {
    var before := c.order[..|c.order| - 1];
    var r := c.order[|c.order| - 1];
    assert c.order == before + [r];
    Subtracted(g, root, c, Moved(g, c, Subtract).value, before, r);
  }

  lemma {:induction false} MachineOk(g: Digraph, root: nat, ctr: seq<int>, moves: seq<Move>)
    requires CanCheck(g, root, ctr) && After(g, root, ctr, moves).Some?
    ensures CheckerOk(g, root, After(g, root, ctr, moves).value)
  {
    if moves == [] {
      KahnStart(g, root, ctr);
    } else {
      var before := moves[..|moves| - 1];
      MachineOk(g, root, ctr, before);
      var c := After(g, root, ctr, before).value;
      match moves[|moves| - 1]
      case Pop => PopOk(g, root, c);
      case Subtract => SubtractOk(g, root, c);
    }
  }

  /** A node is queued once, so the deletions come to an end. */
  lemma PopIsNew(g: Digraph, root: nat, ctr: seq<int>, moves: seq<Move>)
    requires CanCheck(g, root, ctr) && After(g, root, ctr, moves).Some?
    requires var c := After(g, root, ctr, moves).value; c.queue != [] && BetweenNodes(g, c)
    ensures var c := After(g, root, ctr, moves).value;
            c.queue[0] in NotIn(|g|, c.order) && NotIn(|g|, c.order + [c.queue[0]]) < NotIn(|g|, c.order)
  {
    MachineOk(g, root, ctr, moves);
    var c := After(g, root, ctr, moves).value;
    PopOk(g, root, c);
    assert c.queue[0] !in NotIn(|g|, c.order + [c.queue[0]]);
  }

  /** When the queue has run empty, every reachable node has been deleted exactly when the graph is acceptable. */
  lemma Verdict(g: Digraph, root: nat, ctr: seq<int>, moves: seq<Move>)
    requires CanCheck(g, root, ctr) && After(g, root, ctr, moves).Some?
    requires var c := After(g, root, ctr, moves).value; c.queue == [] && BetweenNodes(g, c)
    ensures var c := After(g, root, ctr, moves).value;
            (forall n: nat :: Reachable(g, root, n) ==> n in c.order) <==> Accepted(g, root)
  {
    MachineOk(g, root, ctr, moves);
    var c := After(g, root, ctr, moves).value;
    if c.order != [] {
      OrderSplits(g, c);
    }
    if forall n: nat :: Reachable(g, root, n) ==> n in c.order {
      DeletedMeansAccepted(g, root, c.order);
    } else if Accepted(g, root) {
      var n: nat :| Reachable(g, root, n) && n !in c.order;
      AcceptedMeansDeleted(g, root, c.ctr, c.delivered, c.seen, c.order, n);
    }
  }

  /** The nodes deleted are reachable ones. */
  lemma DeletedInRange(g: Digraph, root: nat, ctr: seq<int>, moves: seq<Move>)
    requires CanCheck(g, root, ctr) && After(g, root, ctr, moves).Some?
    ensures forall n :: n in After(g, root, ctr, moves).value.order ==> n < |g|
  {
    MachineOk(g, root, ctr, moves);
  }

  // ------------------------------------------------------------------ following the machine

  /** The counters, the queue, the deletions and the loop index are those of the machine after the given moves. */
  ghost predicate At(g: Digraph, root: nat, ctr: seq<int>, moves: seq<Move>, now: seq<int>, queue: seq<nat>, order: seq<nat>, next: nat) {
    match After(g, root, ctr, moves)
    case None => false
    case Some(c) => c.ctr == now && c.queue == queue && c.order == order && c.next == next
  }

  /** How many out-nodes the node deleted last has. */
  ghost function LastOut(g: Digraph, order: seq<nat>): nat {
    if order == [] || order[|order| - 1] >= |g| then 0 else |g[order[|order| - 1]]|
  }

  lemma AtPop(g: Digraph, root: nat, ctr: seq<int>, moves: seq<Move>, now: seq<int>, queue: seq<nat>, order: seq<nat>)
    requires CanCheck(g, root, ctr) && At(g, root, ctr, moves, now, queue, order, LastOut(g, order)) && queue != []
    ensures At(g, root, ctr, moves + [Pop], now, queue[1..], order + [queue[0]], 0)
    ensures NotIn(|g|, order + [queue[0]]) < NotIn(|g|, order)
  {
    DeletedInRange(g, root, ctr, moves);
    assert order != [] ==> order[|order| - 1] in order;
    PopIsNew(g, root, ctr, moves);
    assert (moves + [Pop])[..|moves|] == moves;
  }

  lemma AtSubtract(g: Digraph, root: nat, ctr: seq<int>, moves: seq<Move>, now: seq<int>, queue: seq<nat>, before: seq<nat>, r: nat, j: nat)
    requires WellFormed(g) && |now| == |g| && r < |g| && j < |g[r]|
    requires At(g, root, ctr, moves, now, queue, before + [r], j)
    ensures var m := g[r][j];
            At(g, root, ctr, moves + [Subtract], now[m := now[m] - 1], if now[m] == 1 then queue + [m] else queue, before + [r], j + 1)
  {
    assert (moves + [Subtract])[..|moves|] == moves;
  }

  lemma AtEnd(g: Digraph, root: nat, ctr: seq<int>, moves: seq<Move>, now: seq<int>, order: seq<nat>)
    requires CanCheck(g, root, ctr) && At(g, root, ctr, moves, now, [], order, LastOut(g, order))
    ensures (forall n: nat :: Reachable(g, root, n) ==> n in order) <==> Accepted(g, root)
  {
    DeletedInRange(g, root, ctr, moves);
    assert order != [] ==> order[|order| - 1] in order;
    Verdict(g, root, ctr, moves);
  }
}
