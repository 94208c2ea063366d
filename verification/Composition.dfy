/** The scheduler and the services behind its io nodes as one machine.  The scheduler's proofs take for granted that
    each io node notifies its out-nodes exactly once; here that is what the services' countdowns establish. */
module Composition {
  import opened Digraph
  import opened IoCalls
  import opened Options
  import Sched = Scheduler
  import SchedulerSteps
  import SchedulerTrace
  import Theorems = SchedulerTheorems

  /** A plan with a service for each of its io nodes. */
  datatype System = System(plan: Sched.Plan, services: map<nat, Service>)

  datatype World = World(sched: Sched.State, calls: map<nat, Call>)

  /** A step of a scheduler thread, or a step inside the call of an io node. */
  datatype Action = Thread(sa: Sched.Action) | Inside(node: nat, ca: CallAction)

  ghost predicate GoodSystem(y: System) {
    && Sched.RootedPlan(y.plan)
    && y.services.Keys == y.plan.io
    && (forall n :: n in y.services ==> n < |y.plan.g| && ServiceOk(y.services[n]))
  }

  ghost function Init(y: System): World {
    World(Sched.Init(y.plan), map[])
  }

  /** The process is gone. */
  predicate Crashed(w: World) {
    exists n :: n in w.calls && CallCrashed(w.calls[n])
  }

  function Step(y: System, w: World, a: Action): Option<World> {
    if Crashed(w) then None
    else
      match a
      case Thread(sa) => ThreadStep(y, w, sa)
      case Inside(n, ca) => if n in w.calls && n in y.services then CallMove(y, w, n, ca) else None
  }

  /** Threads do everything except complete an io node; running an io node starts its call. */
  function ThreadStep(y: System, w: World, a: Sched.Action): Option<World> {
    if a.IoDone? then None
    else
      match Sched.Step(y.plan, w.sched, a)
      case None => None
      case Some(s) => Some(World(s, if StartsCall(y, w, a) then w.calls[Runs(w, a) := Start(y.services[Runs(w, a)])] else w.calls))
  }

  predicate StartsCall(y: System, w: World, a: Sched.Action) {
    && a.Run? && !a.skip && a.thread in w.sched.threads && w.sched.threads[a.thread].node in y.plan.io
    && w.sched.threads[a.thread].node in y.services
  }

  function Runs(w: World, a: Sched.Action): nat
    requires a.Run? && a.thread in w.sched.threads
  {
    w.sched.threads[a.thread].node
  }

  /** `run_output_nodes_if_ready` at the end of a call.  Nothing here checks that the node awaits its completion. */
  function Completion(s: Sched.State, n: nat): Sched.State {
    Sched.Ended(s, n).(io := s.io - {n}, threads := s.threads[s.nextId := Sched.Notifying(n, 0, None, None)], nextId := s.nextId + 1)
  }

  function CallMove(y: System, w: World, n: nat, ca: CallAction): Option<World>
    requires n in w.calls && n in y.services
  {
    match CallStep(y.services[n], w.calls[n], ca)
    case None => None
    case Some(c) =>
      Some(World(if Notified(c) > Notified(w.calls[n]) then Completion(w.sched, n) else w.sched, w.calls[n := c]))
  }

  ghost function Exec(y: System, acts: seq<Action>): Option<World> {
    if acts == [] then Some(Init(y))
    else
      match Exec(y, acts[..|acts| - 1])
      case None => None
      case Some(w) => Step(y, w, acts[|acts| - 1])
  }

  predicate Terminal(y: System, w: World) {
    && Sched.Terminal(w.sched)
    && (forall n :: n in w.calls && n in y.services ==> CallTerminal(y.services[n], w.calls[n]))
  }

  /** Everything has been done, or the process is gone. */
  predicate Over(y: System, w: World) {
    Terminal(y, w) || Crashed(w)
  }

  /** The first send of some fetch of some call has failed. */
  predicate Doomed(y: System, w: World) {
    exists n :: n in w.calls && n in y.services && CallDoomed(y.services[n], w.calls[n])
  }

  // ------------------------------------------------------------------ the invariant

  /** A call has been started for the node, and it has not yet notified exactly while the scheduler awaits it. */
  ghost predicate CallOk(y: System, w: World, n: nat) {
    && (n in w.sched.io ==> n in w.calls)
    && (n in w.calls ==>
          && n in y.services && n in w.sched.begun
          && CallInv(y.services[n], w.calls[n]) && Notified(w.calls[n]) <= 1
          && (Notified(w.calls[n]) == 0 <==> n in w.sched.io))
  }

  ghost predicate CallsInv(y: System, w: World) {
    forall n: nat {:trigger CallOk(y, w, n)} :: CallOk(y, w, n)
  }

  /** The scheduler action that a step of the whole amounts to, if any. */
  function Shadow(y: System, w: World, a: Action): Option<Sched.Action> {
    match a
    case Thread(sa) => Some(sa)
    case Inside(n, ca) =>
      if n in w.calls && n in y.services then
        match CallStep(y.services[n], w.calls[n], ca)
        case None => None
        case Some(c) => if Notified(c) > Notified(w.calls[n]) then Some(Sched.IoDone(n)) else None
      else None
  }

  /** Steps that touch no io node but those in `changed`. */
  lemma OtherCallOk(y: System, w: World, w2: World, n: nat)
    requires CallOk(y, w, n)
    requires n in w2.calls <==> n in w.calls
    requires n in w.calls ==> w2.calls[n] == w.calls[n]
    requires n in w2.sched.io <==> n in w.sched.io
    requires w.sched.begun <= w2.sched.begun
    ensures CallOk(y, w2, n)
  {
  }

  /** What a thread's action does to the nodes that await completion. */
  lemma ThreadIo(y: System, w: World, a: Sched.Action)
    requires ThreadStep(y, w, a).Some? && y.services.Keys == y.plan.io
    ensures var s2 := ThreadStep(y, w, a).value.sched;
            && w.sched.begun <= s2.begun
            && s2.io == (if StartsCall(y, w, a) then w.sched.io + {Runs(w, a)} else w.sched.io)
            && (StartsCall(y, w, a) ==> Runs(w, a) in s2.begun && w.sched.threads[a.thread].Pending?)
  {
  }

  lemma ThreadKeepsCalls(y: System, w: World, a: Sched.Action)
    requires GoodSystem(y) && Sched.ThreadInv(y.plan, w.sched) && CallsInv(y, w) && ThreadStep(y, w, a).Some?
    ensures CallsInv(y, ThreadStep(y, w, a).value)
  {
    var w2 := ThreadStep(y, w, a).value;
    ThreadIo(y, w, a);
    forall n: nat ensures CallOk(y, w2, n) {
      assert CallOk(y, w, n);
      if StartsCall(y, w, a) && n == Runs(w, a) {
        StartInv(y.services[n]);
      } else {
        OtherCallOk(y, w, w2, n);
      }
    }
  }

  lemma CallMoveKeepsCalls(y: System, w: World, n: nat, ca: CallAction)
    requires CallsInv(y, w) && n in w.calls && n in y.services && CallMove(y, w, n, ca).Some?
    ensures CallsInv(y, CallMove(y, w, n, ca).value)
  {
    var w2 := CallMove(y, w, n, ca).value;
    assert CallOk(y, w, n);
    CallStepKeepsInv(y.services[n], w.calls[n], ca);
    forall m: nat ensures CallOk(y, w2, m) {
      assert CallOk(y, w, m);
      if m != n {
        OtherCallOk(y, w, w2, m);
      }
    }
  }

  /** A call that notifies does what the scheduler's `IoDone` does, and the scheduler was waiting for it. */
  lemma NotificationIsIoDone(y: System, w: World, n: nat, ca: CallAction)
    requires CallsInv(y, w) && n in w.calls && n in y.services && CallMove(y, w, n, ca).Some?
    ensures var w2 := CallMove(y, w, n, ca).value;
            if Shadow(y, w, Inside(n, ca)).Some?
            then Sched.Step(y.plan, w.sched, Sched.IoDone(n)) == Some(w2.sched)
            else w2.sched == w.sched
  {
    assert CallOk(y, w, n);
    CallStepKeepsInv(y.services[n], w.calls[n], ca);
  }

  /** The steps of the threads and the notifications of a run, as the scheduler sees them. */
  ghost function Shadows(y: System, acts: seq<Action>): seq<Sched.Action> {
    if acts == [] then []
    else
      var before := acts[..|acts| - 1];
      match Exec(y, before)
      case None => Shadows(y, before)
      case Some(w) =>
        match Shadow(y, w, acts[|acts| - 1])
        case None => Shadows(y, before)
        case Some(sa) => Shadows(y, before) + [sa]
  }

  /** Refinement: every run of the scheduler together with its services is, seen from the scheduler, a run of the
      scheduler alone, in which an io node completes once because its call notifies once.  Everything proved of the
      scheduler's runs therefore holds of the whole. */
  lemma {:induction false} Refinement(y: System, acts: seq<Action>)
    requires GoodSystem(y) && Exec(y, acts).Some?
    ensures CallsInv(y, Exec(y, acts).value)
    ensures Sched.Exec(y.plan, Shadows(y, acts)) == Some(Exec(y, acts).value.sched)
    ensures Sched.Inv(y.plan, Exec(y, acts).value.sched)
  {
    if acts != [] {
      var before := acts[..|acts| - 1];
      Refinement(y, before);
      var w := Exec(y, before).value;
      StepRefines(y, w, acts[|acts| - 1], Shadows(y, before));
    } else {
      Sched.InitInv(y.plan);
    }
  }

  lemma StepRefines(y: System, w: World, a: Action, shadows: seq<Sched.Action>)
    requires GoodSystem(y) && CallsInv(y, w) && Step(y, w, a).Some?
    requires Sched.Exec(y.plan, shadows) == Some(w.sched) && Sched.Inv(y.plan, w.sched)
    ensures CallsInv(y, Step(y, w, a).value)
    ensures Sched.Exec(y.plan, match Shadow(y, w, a) case None => shadows case Some(sa) => shadows + [sa]) == Some(Step(y, w, a).value.sched)
    ensures Sched.Inv(y.plan, Step(y, w, a).value.sched)
  {
    match a
    case Thread(sa) =>
      ThreadKeepsCalls(y, w, sa);
      assert (shadows + [sa])[..|shadows|] == shadows;
      SchedulerSteps.StepKeepsInv(y.plan, w.sched, sa);
    case Inside(n, ca) =>
      CallMoveKeepsCalls(y, w, n, ca);
      NotificationIsIoDone(y, w, n, ca);
      assert (shadows + [Sched.IoDone(n)])[..|shadows|] == shadows;
      if Shadow(y, w, a).Some? {
        SchedulerSteps.StepKeepsInv(y.plan, w.sched, Sched.IoDone(n));
      }
  }

  // ------------------------------------------------------------------ the whole makes progress and ends

  /** No deadlock in the whole: something can happen until every node and every call is done or the process is gone. */
  lemma Progress(y: System, acts: seq<Action>) returns (a: Action)
    requires GoodSystem(y) && Exec(y, acts).Some? && !Over(y, Exec(y, acts).value)
    ensures Exec(y, acts + [a]).Some?
  {
    Refinement(y, acts);
    var w := Exec(y, acts).value;
    a := NextAction(y, w);
    assert (acts + [a])[..|acts|] == acts;
  }

  lemma NextAction(y: System, w: World) returns (a: Action)
    requires GoodSystem(y) && CallsInv(y, w) && Sched.Inv(y.plan, w.sched) && !Over(y, w)
    ensures Step(y, w, a).Some?
  {
    if exists n :: n in w.calls && n in y.services && !CallTerminal(y.services[n], w.calls[n]) {
      var n :| n in w.calls && n in y.services && !CallTerminal(y.services[n], w.calls[n]);
      assert CallOk(y, w, n);
      var ca := CallProgress(y.services[n], w.calls[n]);
      a := Inside(n, ca);
    } else {
      var sa := Theorems.NextAction(y.plan, w.sched);
      if sa.IoDone? {
        assert CallOk(y, w, sa.node);
        TerminalHasNotified(y.services[sa.node], w.calls[sa.node]);
        assert false;
      }
      a := Thread(sa);
    }
  }

  /** What has happened in the calls of the nodes below n. */
  ghost function CallsHappened(calls: map<nat, Call>, n: nat): nat {
    if n == 0 then 0 else CallsHappened(calls, n - 1) + if n - 1 in calls then CallHappened(calls[n - 1]) else 0
  }

  /** The most that can happen in them. */
  function CallsBound(services: map<nat, Service>, n: nat): nat {
    if n == 0 then 0 else CallsBound(services, n - 1) + if n - 1 in services then CallBound(services[n - 1]) else 0
  }

  /** Changing one call's state changes the sum by as much. */
  lemma {:induction false} OneCallHappens(calls: map<nat, Call>, k: nat, c: Call, n: nat)
    ensures CallsHappened(calls[k := c], n) ==
            CallsHappened(calls, n) + (if k < n then CallHappened(c) - (if k in calls then CallHappened(calls[k]) else 0) else 0)
  {
    if n > 0 {
      OneCallHappens(calls, k, c, n - 1);
    }
  }

  lemma {:induction false} CallsAreBounded(y: System, w: World, n: nat)
    requires CallsInv(y, w)
    ensures CallsHappened(w.calls, n) <= CallsBound(y.services, n)
  {
    if n > 0 {
      CallsAreBounded(y, w, n - 1);
      assert CallOk(y, w, n - 1);
      if n - 1 in w.calls {
        CallIsBounded(y.services[n - 1], w.calls[n - 1]);
      }
    }
  }

  /** What is left to happen in the scheduler, less what has happened in the calls. */
  ghost function Remaining(y: System, w: World): int {
    Theorems.Measure(y.plan, w.sched) - CallsHappened(w.calls, |y.plan.g|)
  }

  lemma ThreadSpends(y: System, w: World, a: Sched.Action)
    requires GoodSystem(y) && CallsInv(y, w) && Sched.Inv(y.plan, w.sched) && ThreadStep(y, w, a).Some?
    ensures Remaining(y, ThreadStep(y, w, a).value) < Remaining(y, w)
  {
    Theorems.MeasureDecreases(y.plan, w.sched, a);
    if StartsCall(y, w, a) {
      var n := Runs(w, a);
      NewCall(y, w, a);
      OneCallHappens(w.calls, n, Start(y.services[n]), |y.plan.g|);
    }
  }

  /** A node that is run has no call yet. */
  lemma NewCall(y: System, w: World, a: Sched.Action)
    requires Sched.ThreadInv(y.plan, w.sched) && CallsInv(y, w) && StartsCall(y, w, a) && ThreadStep(y, w, a).Some?
    ensures Runs(w, a) !in w.calls
  {
    var th := w.sched.threads[a.thread];
    assert Sched.HeldOk(w.sched, th) && Sched.Owns(th, Runs(w, a));
    assert CallOk(y, w, Runs(w, a));
  }

  lemma InsideSpends(y: System, w: World, n: nat, ca: CallAction)
    requires GoodSystem(y) && CallsInv(y, w) && Sched.Inv(y.plan, w.sched)
    requires n in w.calls && n in y.services && CallMove(y, w, n, ca).Some?
    ensures Remaining(y, CallMove(y, w, n, ca).value) < Remaining(y, w)
  {
    var w2 := CallMove(y, w, n, ca).value;
    assert CallOk(y, w, n);
    CallStepHappens(y.services[n], w.calls[n], ca);
    OneCallHappens(w.calls, n, w2.calls[n], |y.plan.g|);
    NotificationIsIoDone(y, w, n, ca);
    if Shadow(y, w, Inside(n, ca)).Some? {
      Theorems.MeasureDecreases(y.plan, w.sched, Sched.IoDone(n));
    }
  }

  /** Termination of the whole: no run takes more steps than four for each node, one for each edge, and those of the
      io nodes' calls. */
  lemma {:induction false} RunsAreShort(y: System, acts: seq<Action>)
    requires GoodSystem(y) && Exec(y, acts).Some?
    ensures |acts| <= 4 * |y.plan.g| + |Edges(y.plan.g)| - Remaining(y, Exec(y, acts).value)
    ensures |acts| <= 4 * |y.plan.g| + |Edges(y.plan.g)| + CallsBound(y.services, |y.plan.g|)
  {
    Refinement(y, acts);
    var w := Exec(y, acts).value;
    Theorems.MeasureBounded(y.plan, w.sched);
    CallsAreBounded(y, w, |y.plan.g|);
    if acts == [] {
      NoCalls(|y.plan.g|);
    } else {
      var before := acts[..|acts| - 1];
      RunsAreShort(y, before);
      Refinement(y, before);
      match acts[|acts| - 1]
      case Thread(sa) => ThreadSpends(y, Exec(y, before).value, sa);
      case Inside(n, ca) => InsideSpends(y, Exec(y, before).value, n, ca);
    }
  }

  lemma {:induction false} NoCalls(n: nat)
    ensures CallsHappened(map[], n) == 0
  {
    if n > 0 {
      NoCalls(n - 1);
    }
  }

  /** A run of the whole that is over was completed or crashed according to the first sends. */
  lemma OverIsDecidedByFirstSends(y: System, w: World)
    requires GoodSystem(y) && CallsInv(y, w) && Over(y, w)
    ensures Terminal(y, w) <==> !Doomed(y, w)
    ensures Crashed(w) <==> Doomed(y, w)
  {
    forall n | n in w.calls
      ensures n in y.services
      ensures CallTerminal(y.services[n], w.calls[n]) ==> !CallDoomed(y.services[n], w.calls[n])
      ensures CallCrashed(w.calls[n]) ==> CallDoomed(y.services[n], w.calls[n])
    {
      assert CallOk(y, w, n);
      OverIsDecided(y.services[n], w.calls[n]);
    }
  }

  /** A run in which nothing more can happen is over. */
  lemma StuckIsOver(y: System, acts: seq<Action>)
    requires GoodSystem(y) && Exec(y, acts).Some? && forall a :: Exec(y, acts + [a]).None?
    ensures Over(y, Exec(y, acts).value)
  {
    if !Over(y, Exec(y, acts).value) {
      var a := Progress(y, acts);
      assert false;
    }
  }

  /** The whole crashes exactly when the first send of some fetch of some request fails. */
  lemma CrashesIff(y: System, acts: seq<Action>)
    requires GoodSystem(y) && Exec(y, acts).Some? && forall a :: Exec(y, acts + [a]).None?
    ensures Crashed(Exec(y, acts).value) <==> Doomed(y, Exec(y, acts).value)
  {
    Refinement(y, acts);
    StuckIsOver(y, acts);
    OverIsDecidedByFirstSends(y, Exec(y, acts).value);
  }

  /** The whole does its work exactly once: on an accepted graph, when nothing more can happen and no first send has
      failed, every node has begun and ended once, in an order that respects the edges, and every call that was started
      has notified once. */
  lemma ExactlyOnce(y: System, acts: seq<Action>)
    requires GoodSystem(y) && Sched.GoodPlan(y.plan) && Exec(y, acts).Some? && forall a :: Exec(y, acts + [a]).None?
    requires !Doomed(y, Exec(y, acts).value)
    ensures var w := Exec(y, acts).value;
            var order := Theorems.Starts(w.sched.log);
            && TopologicalOrder(y.plan.g, order)
            && (forall n: nat :: n < |y.plan.g| ==> multiset(order)[n] == 1 && Sched.End(n) in w.sched.log)
            && (forall i, j :: 0 <= i < j < |w.sched.log| ==> w.sched.log[i] != w.sched.log[j])
            && (forall n: nat :: n in w.calls ==> Notified(w.calls[n]) == 1)
  {
    Refinement(y, acts);
    StuckIsOver(y, acts);
    OverIsDecidedByFirstSends(y, Exec(y, acts).value);
    var shadows := Shadows(y, acts);
    Theorems.DependencyOrder(y.plan, shadows);
    TerminalIsStuck(y.plan, shadows);
    Theorems.ExactlyOnce(y.plan, shadows);
    AllNotified(y, Exec(y, acts).value);
  }

  /** What the scheduler is seen to do in a run of the whole. */
  ghost function Trace(y: System, acts: seq<Action>): seq<SchedulerTrace.Deed> {
    SchedulerTrace.Trace(y.plan, Shadows(y, acts))
  }

  /** And no node's service is left out: when nothing more can happen and no first send has failed, each node was either
      called and served once, an io node by the notification of its own call, or skipped once. */
  lemma EveryNodeIsServedOrSkipped(y: System, acts: seq<Action>, n: nat)
    requires GoodSystem(y) && Sched.GoodPlan(y.plan) && Exec(y, acts).Some? && forall a :: Exec(y, acts + [a]).None?
    requires !Doomed(y, Exec(y, acts).value) && n < |y.plan.g|
    ensures var tr := Trace(y, acts);
            && SchedulerTrace.TimesServed(y.plan, tr, n) + multiset(tr)[SchedulerTrace.Skipped(n)] == 1
            && multiset(tr)[SchedulerTrace.Called(n)] == SchedulerTrace.TimesServed(y.plan, tr, n)
            && (n in Exec(y, acts).value.calls <==> n in y.plan.io && SchedulerTrace.Called(n) in tr)
  {
    Refinement(y, acts);
    StuckIsOver(y, acts);
    OverIsDecidedByFirstSends(y, Exec(y, acts).value);
    TerminalIsStuck(y.plan, Shadows(y, acts));
    SchedulerTrace.EveryNodeIsServedOrSkipped(y.plan, Shadows(y, acts), n);
    CallsAreCalled(y, acts, n);
  }

  /** What the scheduler is seen to do in a step of the whole. */
  function SeenIn(y: System, w: World, a: Action): seq<SchedulerTrace.Deed> {
    match Shadow(y, w, a)
    case None => []
    case Some(sa) => SchedulerTrace.Seen(w.sched, sa)
  }

  lemma TraceMore(p: Sched.Plan, shadows: seq<Sched.Action>, s: Sched.State, sa: Sched.Action)
    requires Sched.Exec(p, shadows) == Some(s)
    ensures SchedulerTrace.Trace(p, shadows + [sa]) == SchedulerTrace.Trace(p, shadows) + SchedulerTrace.Seen(s, sa)
  {
    assert (shadows + [sa])[..|shadows|] == shadows;
  }

  lemma TraceStep(y: System, acts: seq<Action>)
    requires GoodSystem(y) && acts != [] && Exec(y, acts[..|acts| - 1]).Some?
    ensures var before := acts[..|acts| - 1];
            Trace(y, acts) == Trace(y, before) + SeenIn(y, Exec(y, before).value, acts[|acts| - 1])
  {
    var before := acts[..|acts| - 1];
    Refinement(y, before);
    var w := Exec(y, before).value;
    match Shadow(y, w, acts[|acts| - 1])
    case None =>
    case Some(sa) => TraceMore(y.plan, Shadows(y, before), w.sched, sa);
  }

  /** A step starts the call of an io node exactly when it is seen to call its `do_service`. */
  lemma StepCalls(y: System, w: World, a: Action, n: nat)
    requires GoodSystem(y) && Step(y, w, a).Some?
    ensures n in Step(y, w, a).value.calls <==> n in w.calls || (n in y.plan.io && SchedulerTrace.Called(n) in SeenIn(y, w, a))
  {
  }

  /** The io nodes whose calls have been started are those whose `do_service` was called. */
  lemma {:induction false} CallsAreCalled(y: System, acts: seq<Action>, n: nat)
    requires GoodSystem(y) && Exec(y, acts).Some?
    ensures n in Exec(y, acts).value.calls <==> n in y.plan.io && SchedulerTrace.Called(n) in Trace(y, acts)
  {
    if acts != [] {
      var before := acts[..|acts| - 1];
      CallsAreCalled(y, before, n);
      TraceStep(y, acts);
      StepCalls(y, Exec(y, before).value, acts[|acts| - 1], n);
    }
  }

  lemma TerminalIsStuck(p: Sched.Plan, acts: seq<Sched.Action>)
    requires Sched.Exec(p, acts).Some? && Sched.Terminal(Sched.Exec(p, acts).value)
    ensures forall a :: Sched.Exec(p, acts + [a]).None?
  {
    forall a ensures Sched.Exec(p, acts + [a]).None? {
      assert (acts + [a])[..|acts|] == acts;
    }
  }

  lemma AllNotified(y: System, w: World)
    requires GoodSystem(y) && CallsInv(y, w) && Terminal(y, w)
    ensures forall n: nat :: n in w.calls ==> Notified(w.calls[n]) == 1
  {
    forall n: nat | n in w.calls ensures Notified(w.calls[n]) == 1 {
      assert CallOk(y, w, n);
      TerminalHasNotified(y.services[n], w.calls[n]);
    }
  }

  /** Every run can be carried on until it is over: completed if no first send has failed by then, and crashed
      otherwise. */
  lemma {:induction false} RunToEnd(y: System, acts: seq<Action>) returns (all: seq<Action>)
    requires GoodSystem(y) && Exec(y, acts).Some?
    ensures acts <= all && Exec(y, all).Some? && Over(y, Exec(y, all).value)
    ensures Terminal(y, Exec(y, all).value) <==> !Doomed(y, Exec(y, all).value)
    decreases 4 * |y.plan.g| + |Edges(y.plan.g)| + CallsBound(y.services, |y.plan.g|) - |acts|
  {
    if Over(y, Exec(y, acts).value) {
      all := acts;
      Refinement(y, acts);
      OverIsDecidedByFirstSends(y, Exec(y, acts).value);
    } else {
      var a := Progress(y, acts);
      RunsAreShort(y, acts + [a]);
      all := RunToEnd(y, acts + [a]);
    }
  }
}
