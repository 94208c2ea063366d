/** The run-time protocol of the scheduler as a step machine.  Each step is one atomic action of one bthread,
    or the completion of one io node; the interleaving is arbitrary. */
module Scheduler {
  import opened Digraph
  import opened Options

  /** What `Graph::run` starts from: the out-node lists, the root, and the nodes whose type is "io". */
  datatype Plan = Plan(g: Digraph, root: nat, io: set<nat>)

  /** One bthread.  It is about to call `run` on a node, inside the node's `do_service`, or inside the loop of
      `run_output_nodes_if_ready`.  There `next` is the loop index, `held` is `last_ready_node`, and `got` is an
      out-node whose `notify` returned true and which the loop body has not yet dealt with. */
  datatype Thread =
    | Pending(node: nat)
    | Serving(node: nat)
    | Notifying(node: nat, next: nat, held: Option<nat>, got: Option<nat>)

  /** What a node does that its successors may depend on. */
  datatype Event = Begin(node: nat) | End(node: nat)

  /** `ctr` is `node_input_num_map`; `threads` are the live bthreads; `io` holds the io nodes whose completion is
      outstanding.  The other fields are history: they record what happened and no step reads them. */
  datatype State = State(
    ctr: seq<int>,
    threads: map<nat, Thread>,
    nextId: nat,
    io: set<nat>,
    begun: set<nat>,
    ended: set<nat>,
    delivered: set<Edge>,
    placed: set<nat>,
    left: set<nat>,
    log: seq<Event>)

  datatype Action =
    | Run(thread: nat, skip: bool)
    | Served(thread: nat)
    | IoDone(node: nat)
    | Notify(thread: nat)
    | Place(thread: nat)
    | Finish(thread: nat)

  ghost function Init(p: Plan): State {
    State(seq(|p.g|, (m: nat) => InDegree(p.g, m)), map[0 := Pending(p.root)], 1, {}, {}, {}, {}, {}, {}, [])
  }

  /** The state after an action, or None when the action is not possible in s. */
  function Step(p: Plan, s: State, a: Action): Option<State> {
    match a
    case Run(t, skip) => if t in s.threads && s.threads[t].Pending? then Some(RunNode(p, s, t, skip)) else None
    case Served(t) =>
      if t in s.threads && s.threads[t].Serving? then
        var n := s.threads[t].node;
        Some(Ended(s, n).(threads := s.threads[t := Notifying(n, 0, None, None)]))
      else None
    case IoDone(n) =>
      if n in s.io then
        Some(Ended(s, n).(io := s.io - {n}, threads := s.threads[s.nextId := Notifying(n, 0, None, None)], nextId := s.nextId + 1))
      else None
    case Notify(t) => if CanNotify(p, s, t) then Some(NotifyNext(p, s, t)) else None
    case Place(t) =>
      if t in s.threads && s.threads[t].Notifying? && s.threads[t].got.Some? then Some(PlaceReady(s, t)) else None
    case Finish(t) => if CanFinish(p, s, t) then Some(LeaveLoop(s, t)) else None
  }

  /** Lines 15-29 of graph.cpp: a skipped node goes straight to its out-nodes, a cpu node serves first, and an io
      node leaves its completion to a callback. */
  function RunNode(p: Plan, s: State, t: nat, skip: bool): State
    requires t in s.threads && s.threads[t].Pending?
  {
    var n := s.threads[t].node;
    var s1 := s.(begun := s.begun + {n}, log := s.log + [Begin(n)]);
    if skip then Ended(s1, n).(threads := s.threads[t := Notifying(n, 0, None, None)])
    else if n in p.io then s1.(threads := s.threads - {t}, io := s.io + {n})
    else s1.(threads := s.threads[t := Serving(n)])
  }

  function Ended(s: State, n: nat): State {
    s.(ended := s.ended + {n}, log := s.log + [End(n)])
  }

  predicate CanNotify(p: Plan, s: State, t: nat) {
    && t in s.threads && s.threads[t].Notifying? && s.threads[t].got.None?
    && s.threads[t].node < |p.g| && s.threads[t].next < |p.g[s.threads[t].node]|
    && p.g[s.threads[t].node][s.threads[t].next] < |s.ctr|
  }

  predicate CanFinish(p: Plan, s: State, t: nat) {
    && t in s.threads && s.threads[t].Notifying? && s.threads[t].got.None?
    && s.threads[t].node < |p.g| && s.threads[t].next >= |p.g[s.threads[t].node]|
  }

  /** `fetch_sub(1)` on the counter of the next out-node; the out-node is ready when the old value was 1. */
  function NotifyNext(p: Plan, s: State, t: nat): State
    requires CanNotify(p, s, t)
  {
    var th := s.threads[t];
    var m := p.g[th.node][th.next];
    var old_value := s.ctr[m];
    s.(ctr := s.ctr[m := old_value - 1],
       delivered := s.delivered + {(th.node, th.next)},
       threads := s.threads[t := th.(next := th.next + 1, got := if old_value == 1 then Some(m) else None)])
  }

  /** A newly ready out-node takes the place of `last_ready_node`, which gets a bthread of its own. */
  function PlaceReady(s: State, t: nat): State
    requires t in s.threads && s.threads[t].Notifying? && s.threads[t].got.Some?
  {
    var th := s.threads[t];
    var s1 := s.(placed := s.placed + {th.got.value}, threads := s.threads[t := th.(held := th.got, got := None)]);
    match th.held
    case None => s1
    case Some(h) => s1.(threads := s1.threads[s.nextId := Pending(h)], nextId := s.nextId + 1)
  }

  /** After the loop the thread runs `last_ready_node` itself, or ends. */
  function LeaveLoop(s: State, t: nat): State
    requires t in s.threads && s.threads[t].Notifying?
  {
    var th := s.threads[t];
    var s1 := s.(left := s.left + {th.node});
    match th.held
    case None => s1.(threads := s.threads - {t})
    case Some(h) => s1.(threads := s.threads[t := Pending(h)])
  }

  /** The state a list of actions leads to, or None when one of them is not possible. */
  ghost function Exec(p: Plan, acts: seq<Action>): Option<State> {
    if acts == [] then Some(Init(p))
    else
      match Exec(p, acts[..|acts| - 1])
      case None => None
      case Some(s) => Step(p, s, acts[|acts| - 1])
  }

  /** Nothing is left to do. */
  predicate Terminal(s: State) {
    s.threads == map[] && s.io == {}
  }

  // ------------------------------------------------------------------ the invariant

  ghost predicate Owns(th: Thread, m: nat) {
    match th
    case Pending(n) => n == m
    case Serving(_) => false
    case Notifying(_, _, held, got) => held == Some(m) || got == Some(m)
  }

  ghost predicate Acts(th: Thread, n: nat) {
    !th.Pending? && th.node == n
  }

  ghost predicate OwnedIn(threads: map<nat, Thread>, m: nat) {
    exists t :: t in threads && Owns(threads[t], m)
  }

  ghost predicate ActedIn(threads: map<nat, Thread>, n: nat) {
    exists t :: t in threads && Acts(threads[t], n)
  }

  /** No two threads hold the same ready node, and no two work for the same node. */
  ghost predicate Exclusive(threads: map<nat, Thread>) {
    && (forall t1, t2, m: nat :: t1 in threads && t2 in threads && Owns(threads[t1], m) && Owns(threads[t2], m) ==> t1 == t2)
    && (forall t1, t2, n: nat :: t1 in threads && t2 in threads && Acts(threads[t1], n) && Acts(threads[t2], n) ==> t1 == t2)
  }

  /** Every counter is the number of in-edges not yet notified. */
  ghost predicate CounterInv(p: Plan, s: State) {
    && |s.ctr| == |p.g|
    && (forall m: nat {:trigger CounterOk(p.g, s.ctr, s.delivered, m)} :: m < |p.g| ==> CounterOk(p.g, s.ctr, s.delivered, m))
  }

  ghost predicate ThreadOk(p: Plan, s: State, th: Thread) {
    match th
    case Pending(n) => true
    case Serving(n) => n in s.begun && n !in s.ended
    case Notifying(n, next, held, got) =>
      && n in s.ended && n !in s.left && n < |p.g| && next <= |p.g[n]|
      && (forall k: nat :: k < |p.g[n]| ==> ((n, k) in s.delivered <==> k < next))
      && (held.Some? ==> held.value in s.placed)
      && (got.Some? ==> got.value !in s.placed)
  }

  /** A node held by a thread is ready and has not begun. */
  ghost predicate HeldOk(s: State, th: Thread) {
    forall m: nat :: Owns(th, m) ==> m < |s.ctr| && m !in s.begun && s.ctr[m] == 0
  }

  ghost predicate ThreadInv(p: Plan, s: State) {
    && Exclusive(s.threads)
    && (forall t :: t in s.threads ==> t < s.nextId)
    && (forall t :: t in s.threads ==> ThreadOk(p, s, s.threads[t]))
    && (forall t :: t in s.threads ==> HeldOk(s, s.threads[t]))
    && IoOk(s)
  }

  /** An io node awaiting completion has begun, and no thread works for it. */
  ghost predicate IoOk(s: State) {
    forall n :: n in s.io ==> n in s.begun && n !in s.ended && !ActedIn(s.threads, n)
  }

  /** Node n is being served, is notifying its out-nodes, or has notified them all. */
  ghost predicate NodeCovered(p: Plan, s: State, n: nat) {
    && (n in s.begun && n !in s.ended ==> n in s.io || ActedIn(s.threads, n))
    && (n in s.ended && n !in s.left ==> ActedIn(s.threads, n))
    && (n in s.left && n < |p.g| ==> forall k: nat :: k < |p.g[n]| ==> (n, k) in s.delivered)
  }

  /** Nothing is lost: every node is covered, and a node that is ready but has not begun has an owner. */
  ghost predicate CoverInv(p: Plan, s: State) {
    && (forall m: nat {:trigger OwnedIn(s.threads, m)} :: m < |s.ctr| && m !in s.begun && s.ctr[m] == 0 ==> OwnedIn(s.threads, m))
    && (forall n: nat {:trigger NodeCovered(p, s, n)} :: NodeCovered(p, s, n))
  }

  ghost predicate HistoryInv(p: Plan, s: State) {
    && s.left <= s.ended <= s.begun
    && (forall n :: n in s.begun ==> n < |p.g| && n < |s.ctr| && s.ctr[n] == 0)
    && s.delivered <= Edges(p.g)
    && (forall e :: e in s.delivered ==> e.0 in s.ended)
    && (forall m :: m in s.placed ==> m < |s.ctr| && s.ctr[m] == 0)
  }

  /** Each event happens once, and a node begins only after the end of every predecessor. */
  ghost predicate Ordered(g: Digraph, log: seq<Event>) {
    && (forall i, j :: 0 <= i < j < |log| ==> log[i] != log[j])
    && (forall i, u: nat :: 0 <= i < |log| && log[i].Begin? && HasEdge(g, u, log[i].node) ==> End(u) in log[..i])
    && (forall i :: 0 <= i < |log| && log[i].End? ==> Begin(log[i].node) in log[..i])
  }

  ghost predicate LogOk(g: Digraph, begun: set<nat>, ended: set<nat>, log: seq<Event>) {
    && Ordered(g, log)
    && (forall n :: n in begun <==> Begin(n) in log)
    && (forall n :: n in ended <==> End(n) in log)
  }

  ghost predicate LogInv(p: Plan, s: State) {
    LogOk(p.g, s.begun, s.ended, s.log)
  }

  ghost predicate Inv(p: Plan, s: State) {
    CounterInv(p, s) && ThreadInv(p, s) && CoverInv(p, s) && HistoryInv(p, s)
  }

  /** The graphs a request may be run on: accepted by the start-up check, every created node reachable. */
  ghost predicate GoodPlan(p: Plan) {
    && WellFormed(p.g)
    && Accepted(p.g, p.root)
    && (forall n :: 0 <= n < |p.g| ==> Reachable(p.g, p.root, n))
  }

  /** What the invariant needs of the graph: the root is the one node without in-edges. */
  ghost predicate RootedPlan(p: Plan) {
    && WellFormed(p.g) && p.root < |p.g|
    && (forall n: nat :: n < |p.g| ==> (InDegree(p.g, n) == 0 <==> n == p.root))
  }

  lemma GoodPlanIsRooted(p: Plan)
    requires GoodPlan(p)
    ensures RootedPlan(p)
  {
    forall n: nat | n < |p.g| && n != p.root ensures InDegree(p.g, n) != 0 {
      ReachableHasInEdge(p.g, p.root, n);
    }
  }

  lemma InitInv(p: Plan)
    requires RootedPlan(p)
    ensures Inv(p, Init(p)) && LogInv(p, Init(p))
  {
    var s := Init(p);
    forall m: nat | m < |p.g| ensures CounterOk(p.g, s.ctr, s.delivered, m) {
      assert InEdges(p.g, m) - {} == InEdges(p.g, m);
    }
    assert Owns(s.threads[0], p.root);
  }
}
