/** What the scheduler guarantees over every interleaving. */
module SchedulerTheorems {
  import Countdown
  import opened Digraph
  import opened Options
  import opened Scheduler
  import opened SchedulerSteps

  /** Every reachable state satisfies the invariant. */
  lemma {:induction false} Safety(p: Plan, acts: seq<Action>)
    requires RootedPlan(p) && Exec(p, acts).Some?
    ensures Inv(p, Exec(p, acts).value) && LogInv(p, Exec(p, acts).value)
  {
    if acts == [] {
      InitInv(p);
    } else {
      var before := acts[..|acts| - 1];
      Safety(p, before);
      StepKeepsInv(p, Exec(p, before).value, acts[|acts| - 1]);
      StepKeepsLog(p, Exec(p, before).value, acts[|acts| - 1]);
    }
  }

  /** The token invariant: counters count the in-edges not yet notified; a node that is ready and has not begun is
      held by one thread, in one place; and a notification never finds its counter at zero or below. */
  lemma Tokens(p: Plan, acts: seq<Action>, m: nat)
    requires RootedPlan(p) && Exec(p, acts).Some? && m < |p.g|
    ensures var s := Exec(p, acts).value;
            && |s.ctr| == |p.g|
            && s.ctr[m] == |InEdges(p.g, m) - s.delivered| >= 0
            && (s.ctr[m] == 0 && m !in s.begun ==>
                  exists t :: t in s.threads && Owns(s.threads[t], m)
                    && forall t2 :: t2 in s.threads && Owns(s.threads[t2], m) ==> t2 == t)
            && (s.ctr[m] > 0 ==> m !in s.begun && forall t :: t in s.threads ==> !Owns(s.threads[t], m))
            && (forall t :: t in s.threads && s.threads[t].Notifying? ==>
                  s.threads[t].held.None? || s.threads[t].held != s.threads[t].got)
            && (forall t :: CanNotify(p, s, t) ==> s.ctr[p.g[s.threads[t].node][s.threads[t].next]] >= 1)
  {
    Safety(p, acts);
    var s := Exec(p, acts).value;
    assert CounterOk(p.g, s.ctr, s.delivered, m);
    OneOwner(p, s, m);
    forall t | t in s.threads && s.threads[t].Notifying? ensures s.threads[t].held.None? || s.threads[t].held != s.threads[t].got {
      GotIsNotHeld(p, s, t);
    }
    forall t | CanNotify(p, s, t) ensures s.ctr[p.g[s.threads[t].node][s.threads[t].next]] >= 1 {
      NotifyCounters(p, s, t);
    }
  }

  /** A node has one owner while it is ready and has not begun, and none before. */
  lemma OneOwner(p: Plan, s: State, m: nat)
    requires ThreadInv(p, s) && CoverInv(p, s) && HistoryInv(p, s) && m < |s.ctr|
    ensures s.ctr[m] == 0 && m !in s.begun ==>
              exists t :: t in s.threads && Owns(s.threads[t], m)
                && forall t2 :: t2 in s.threads && Owns(s.threads[t2], m) ==> t2 == t
    ensures s.ctr[m] > 0 ==> m !in s.begun && forall t :: t in s.threads ==> !Owns(s.threads[t], m)
  {
    assert OwnedIn(s.threads, m) <==> exists t :: t in s.threads && Owns(s.threads[t], m);
    forall t | t in s.threads ensures s.ctr[m] > 0 ==> !Owns(s.threads[t], m) {
      assert HeldOk(s, s.threads[t]);
    }
  }

  lemma GotIsNotHeld(p: Plan, s: State, t: nat)
    requires ThreadInv(p, s) && t in s.threads && s.threads[t].Notifying?
    ensures s.threads[t].held.None? || s.threads[t].held != s.threads[t].got
  {
    assert ThreadOk(p, s, s.threads[t]);
  }

  // ------------------------------------------------------------------ order

  /** The nodes in the order in which they begin. */
  function Starts(log: seq<Event>): seq<nat> {
    if log == [] then []
    else
      var before := Starts(log[..|log| - 1]);
      match log[|log| - 1]
      case Begin(n) => before + [n]
      case End(_) => before
  }

  lemma {:induction false} StartsMembers(log: seq<Event>, n: nat)
    ensures n in Starts(log) <==> Begin(n) in log
  {
    if log != [] {
      StartsMembers(log[..|log| - 1], n);
      assert log == log[..|log| - 1] + [log[|log| - 1]];
    }
  }

  ghost predicate NoRepeat(order: seq<nat>) {
    forall i, j :: 0 <= i < j < |order| ==> order[i] != order[j]
  }

  /** A node that begins after its predecessors extends the order. */
  lemma OrderExtends(g: Digraph, order: seq<nat>, n: nat)
    requires TopologicalOrder(g, order) && NoRepeat(order) && n < |g| && n !in order
    requires forall u: nat :: HasEdge(g, u, n) ==> u in order
    ensures TopologicalOrder(g, order + [n]) && NoRepeat(order + [n])
  {
    var all := order + [n];
    assert forall i :: 0 <= i < |order| ==> all[..i] == order[..i];
    assert all[..|order|] == order;
  }

  lemma OrderedPrefix(g: Digraph, log: seq<Event>)
    requires Ordered(g, log) && log != []
    ensures Ordered(g, log[..|log| - 1])
  {
    var before := log[..|log| - 1];
    assert forall i :: 0 <= i < |before| ==> before[..i] == log[..i];
  }

  /** The predecessors of the node that begins last have begun before it, and it has not. */
  lemma LastBegins(g: Digraph, log: seq<Event>, n: nat)
    requires Ordered(g, log) && log != [] && log[|log| - 1] == Begin(n)
    ensures n !in Starts(log[..|log| - 1])
    ensures forall u: nat :: HasEdge(g, u, n) ==> u in Starts(log[..|log| - 1])
  {
    var last := |log| - 1;
    StartsMembers(log[..last], n);
    forall u: nat | HasEdge(g, u, n) ensures u in Starts(log[..last]) {
      assert End(u) in log[..last];
      var i :| 0 <= i < last && log[i] == End(u);
      assert Begin(u) in log[..i];
      StartsMembers(log[..last], u);
    }
  }

  lemma {:induction false} StartsOrdered(g: Digraph, log: seq<Event>)
    requires Ordered(g, log) && forall i :: 0 <= i < |log| && log[i].Begin? ==> log[i].node < |g|
    ensures TopologicalOrder(g, Starts(log)) && NoRepeat(Starts(log))
  {
    if log != [] {
      OrderedPrefix(g, log);
      StartsOrdered(g, log[..|log| - 1]);
      match log[|log| - 1]
      case End(_) =>
      case Begin(n) =>
        LastBegins(g, log, n);
        OrderExtends(g, Starts(log[..|log| - 1]), n);
    }
  }

  /** Dependency order: the nodes that have begun, in the order in which they began, are a linear extension of the
      graph without repetition; and when a node begins, every predecessor has already been served or skipped. */
  lemma DependencyOrder(p: Plan, acts: seq<Action>)
    requires RootedPlan(p) && Exec(p, acts).Some?
    ensures var log := Exec(p, acts).value.log;
            && TopologicalOrder(p.g, Starts(log))
            && (forall i, j :: 0 <= i < j < |Starts(log)| ==> Starts(log)[i] != Starts(log)[j])
            && (forall i, u: nat :: 0 <= i < |log| && log[i].Begin? && HasEdge(p.g, u, log[i].node) ==> End(u) in log[..i])
  {
    Safety(p, acts);
    var s := Exec(p, acts).value;
    forall i | 0 <= i < |s.log| && s.log[i].Begin? ensures s.log[i].node < |p.g| {
      assert s.log[i].node in s.begun;
    }
    StartsOrdered(p.g, s.log);
  }

  // ------------------------------------------------------------------ progress

  /** Until nothing is left to do, some action is possible. */
  lemma Progress(p: Plan, acts: seq<Action>) returns (a: Action)
    requires RootedPlan(p) && Exec(p, acts).Some? && !Terminal(Exec(p, acts).value)
    ensures Exec(p, acts + [a]).Some?
  {
    Safety(p, acts);
    a := NextAction(p, Exec(p, acts).value);
    assert (acts + [a])[..|acts|] == acts;
  }

  lemma NextAction(p: Plan, s: State) returns (a: Action)
    requires WellFormed(p.g) && |s.ctr| == |p.g| && ThreadInv(p, s) && !Terminal(s)
    ensures Step(p, s, a).Some?
  {
    if s.io != {} {
      var n :| n in s.io;
      a := IoDone(n);
    } else {
      assert s.threads.Keys != {};
      var t :| t in s.threads;
      assert ThreadOk(p, s, s.threads[t]);
      match s.threads[t]
      case Pending(_) => a := Run(t, false);
      case Serving(_) => a := Served(t);
      case Notifying(n, next, held, got) =>
        a := if got.Some? then Place(t) else if next < |p.g[n]| then Notify(t) else Finish(t);
    }
  }

  /** With nothing left to do on an acyclic graph, every node has begun, ended, and notified all its out-nodes. */
  lemma QuiescentIsComplete(p: Plan, s: State)
    requires RootedPlan(p) && Acyclic(p.g) && Inv(p, s) && Terminal(s)
    ensures forall n: nat :: n < |p.g| ==> n in s.left && n in s.ended && n in s.begun
  {
    forall n: nat | n in s.begun ensures n in s.left {
      assert NodeCovered(p, s, n);
    }
    var stuck := set n: nat | n < |p.g| && n !in s.begun;
    if stuck != {} {
      forall m | m in stuck ensures HasPredIn(p.g, stuck, m) {
        assert CounterOk(p.g, s.ctr, s.delivered, m);
        assert !OwnedIn(s.threads, m);
        Countdown.Zero(InEdges(p.g, m), s.delivered);
        var e :| e in InEdges(p.g, m) && e !in s.delivered;
        assert NodeCovered(p, s, e.0);
        assert HasEdge(p.g, e.0, m);
      }
      var c := PredClosedHasCycle(p.g, stuck);
      assert false;
    }
    forall n: nat | n < |p.g| ensures n in s.left {
      assert n !in stuck;
    }
  }

  /** How much is left to happen: nodes to begin, to end, to leave their loops and to be placed, and edges to notify. */
  ghost function Measure(p: Plan, s: State): int {
    (|p.g| - |s.begun|) + (|p.g| - |s.ended|) + (|p.g| - |s.left|) + (|p.g| - |s.placed|) + (|Edges(p.g)| - |s.delivered|)
  }

  lemma MeasureBounded(p: Plan, s: State)
    requires Inv(p, s)
    ensures 0 <= Measure(p, s) <= 4 * |p.g| + |Edges(p.g)|
  {
    Countdown.BoundedSize(s.begun, |p.g|);
    Countdown.BoundedSize(s.ended, |p.g|);
    Countdown.BoundedSize(s.left, |p.g|);
    Countdown.BoundedSize(s.placed, |p.g|);
    Countdown.SubsetSize(s.delivered, Edges(p.g));
  }

  /** A history set gains a new member and none loses one. */
  ghost predicate Grows(s: State, s2: State) {
    && s.begun <= s2.begun && s.ended <= s2.ended && s.left <= s2.left && s.placed <= s2.placed && s.delivered <= s2.delivered
    && (s.begun < s2.begun || s.ended < s2.ended || s.left < s2.left || s.placed < s2.placed || s.delivered < s2.delivered)
  }

  lemma RunGrows(p: Plan, s: State, t: nat, skip: bool)
    requires Inv(p, s) && t in s.threads && s.threads[t].Pending?
    ensures Grows(s, RunNode(p, s, t, skip))
  {
    HolderIsAlone(p, s, t, s.threads[t].node);
    assert s.threads[t].node in RunNode(p, s, t, skip).begun;
  }

  lemma NotifyGrows(p: Plan, s: State, t: nat)
    requires WellFormed(p.g) && Inv(p, s) && CanNotify(p, s, t)
    ensures Grows(s, NotifyNext(p, s, t))
  {
    NotifyCounters(p, s, t);
    assert (s.threads[t].node, s.threads[t].next) in NotifyNext(p, s, t).delivered;
  }

  lemma LoopGrows(p: Plan, s: State, t: nat)
    requires ThreadInv(p, s)
    ensures CanPlace(s, t) ==> Grows(s, PlaceReady(s, t))
    ensures CanFinish(p, s, t) ==> Grows(s, LeaveLoop(s, t))
  {
    if CanPlace(s, t) {
      assert ThreadOk(p, s, s.threads[t]);
      assert s.threads[t].got.value in PlaceReady(s, t).placed;
    }
    if CanFinish(p, s, t) {
      assert ThreadOk(p, s, s.threads[t]);
      assert s.threads[t].node in LeaveLoop(s, t).left;
    }
  }

  lemma EndGrows(p: Plan, s: State, t: nat, n: nat)
    requires ThreadInv(p, s) && CanEnd(s, t, n)
    ensures Grows(s, StartNotifying(s, t, n))
  {
    EndIsNew(p, s, t, n);
    assert n in StartNotifying(s, t, n).ended;
  }

  lemma StepGrows(p: Plan, s: State, a: Action)
    requires WellFormed(p.g) && Inv(p, s) && Step(p, s, a).Some?
    ensures Grows(s, Step(p, s, a).value)
  {
    match a
    case Run(t, skip) => RunGrows(p, s, t, skip);
    case Served(t) => EndGrows(p, s, t, s.threads[t].node);
    case IoDone(n) => EndGrows(p, s, s.nextId, n);
    case Notify(t) => NotifyGrows(p, s, t);
    case Place(t) => LoopGrows(p, s, t);
    case Finish(t) => LoopGrows(p, s, t);
  }

  /** Every action uses up some of the measure. */
  lemma MeasureDecreases(p: Plan, s: State, a: Action)
    requires WellFormed(p.g) && Inv(p, s) && Step(p, s, a).Some?
    ensures Measure(p, Step(p, s, a).value) < Measure(p, s)
  {
    StepGrows(p, s, a);
    var s2 := Step(p, s, a).value;
    Countdown.ProperSubsetSize(s.begun, s2.begun);
    Countdown.ProperSubsetSize(s.ended, s2.ended);
    Countdown.ProperSubsetSize(s.left, s2.left);
    Countdown.ProperSubsetSize(s.placed, s2.placed);
    Countdown.ProperSubsetSize(s.delivered, s2.delivered);
  }

  /** Termination: no run takes more than four steps a node and one an edge. */
  lemma {:induction false} RunsAreShort(p: Plan, acts: seq<Action>)
    requires RootedPlan(p) && Exec(p, acts).Some?
    ensures |acts| + Measure(p, Exec(p, acts).value) <= 4 * |p.g| + |Edges(p.g)|
    ensures |acts| <= 4 * |p.g| + |Edges(p.g)|
  {
    Safety(p, acts);
    MeasureBounded(p, Exec(p, acts).value);
    if acts != [] {
      var before := acts[..|acts| - 1];
      RunsAreShort(p, before);
      Safety(p, before);
      MeasureDecreases(p, Exec(p, before).value, acts[|acts| - 1]);
    }
  }

  /** Exactly once: on an accepted graph a run that can go no further has begun and ended every node once. */
  lemma ExactlyOnce(p: Plan, acts: seq<Action>)
    requires GoodPlan(p) && Exec(p, acts).Some?
    requires forall a :: Exec(p, acts + [a]).None?
    ensures var log := Exec(p, acts).value.log;
            && (forall n: nat :: n < |p.g| ==> multiset(Starts(log))[n] == 1)
            && (forall n: nat :: n < |p.g| ==> Begin(n) in log && End(n) in log)
            && (forall i, j :: 0 <= i < j < |log| ==> log[i] != log[j])
            && (forall m: nat :: m < |Exec(p, acts).value.ctr| ==> Exec(p, acts).value.ctr[m] == 0)
  {
    GoodPlanIsRooted(p);
    GoodPlanIsAcyclic(p);
    Safety(p, acts);
    DependencyOrder(p, acts);
    var s := Exec(p, acts).value;
    if !Terminal(s) {
      var a := Progress(p, acts);
      assert false;
    }
    QuiescentIsComplete(p, s);
    forall n: nat | n < |p.g| ensures multiset(Starts(s.log))[n] == 1 {
      StartsMembers(s.log, n);
      DistinctOnce(Starts(s.log), n);
    }
  }

  lemma {:induction false} DistinctOnce(order: seq<nat>, n: nat)
    requires forall i, j :: 0 <= i < j < |order| ==> order[i] != order[j]
    ensures multiset(order)[n] == if n in order then 1 else 0
  {
    if order != [] {
      DistinctOnce(order[1..], n);
      assert order == [order[0]] + order[1..];
    }
  }

  lemma GoodPlanIsAcyclic(p: Plan)
    requires GoodPlan(p)
    ensures Acyclic(p.g)
  {
    forall c ensures !IsCycle(p.g, c) {
    }
  }

  /** From every reachable state the run can be carried on until nothing is left. */
  lemma {:induction false} RunToEnd(p: Plan, acts: seq<Action>) returns (all: seq<Action>)
    requires RootedPlan(p) && Exec(p, acts).Some?
    ensures acts <= all && Exec(p, all).Some? && Terminal(Exec(p, all).value)
    decreases 4 * |p.g| + |Edges(p.g)| - |acts|
  {
    if Terminal(Exec(p, acts).value) {
      all := acts;
    } else {
      var a := Progress(p, acts);
      RunsAreShort(p, acts + [a]);
      all := RunToEnd(p, acts + [a]);
    }
  }

  /** A node on a cycle never begins. */
  lemma CycleNeverBegins(p: Plan, acts: seq<Action>, c: seq<nat>)
    requires RootedPlan(p) && Exec(p, acts).Some? && IsCycle(p.g, c)
    ensures c[0] !in Exec(p, acts).value.begun
  {
    var s := Exec(p, acts).value;
    Safety(p, acts);
    DependencyOrder(p, acts);
    OrderedNotOnCycle(p.g, Starts(s.log), c);
    StartsMembers(s.log, c[0]);
  }

  /** Some run of the plan begins every node. */
  ghost predicate CanComplete(p: Plan) {
    exists acts :: Exec(p, acts).Some? && forall n: nat :: n < |p.g| ==> n in Exec(p, acts).value.begun
  }

  /** No run of the plan stops before it has begun every node. */
  ghost predicate AlwaysCompletes(p: Plan) {
    forall acts :: Exec(p, acts).Some? && Terminal(Exec(p, acts).value) ==>
      forall n: nat :: n < |p.g| ==> n in Exec(p, acts).value.begun
  }

  /** What the start-up check rests on: a plan whose only node without in-edges is its root completes on every
      interleaving when its graph is acyclic, and on none when it is not. */
  lemma CompletesIffAcyclic(p: Plan)
    requires RootedPlan(p)
    ensures Acyclic(p.g) <==> AlwaysCompletes(p)
    ensures Acyclic(p.g) <==> CanComplete(p)
  {
    var all := RunToEnd(p, []);
    if Acyclic(p.g) {
      forall acts | Exec(p, acts).Some? && Terminal(Exec(p, acts).value)
        ensures forall n: nat :: n < |p.g| ==> n in Exec(p, acts).value.begun
      {
        Safety(p, acts);
        QuiescentIsComplete(p, Exec(p, acts).value);
      }
    } else {
      var c :| IsCycle(p.g, c);
      forall acts | Exec(p, acts).Some? ensures c[0] < |p.g| && c[0] !in Exec(p, acts).value.begun {
        CycleNeverBegins(p, acts, c);
      }
    }
  }
}
