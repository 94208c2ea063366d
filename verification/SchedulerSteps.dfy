/** Every step of the scheduler keeps the invariant. */
module SchedulerSteps {
  import Countdown
  import opened Digraph
  import opened Options
  import opened Scheduler

  /** When a node's counter is at zero all its predecessors have ended. */
  lemma ReadyMeansPredecessorsEnded(p: Plan, s: State, m: nat)
    requires CounterInv(p, s) && HistoryInv(p, s)
    requires m < |s.ctr| && s.ctr[m] == 0
    ensures forall u: nat :: HasEdge(p.g, u, m) ==> u in s.ended
  {
    assert CounterOk(p.g, s.ctr, s.delivered, m);
    Countdown.Zero(InEdges(p.g, m), s.delivered);
    forall u: nat | HasEdge(p.g, u, m) ensures u in s.ended {
      var k :| 0 <= k < |p.g[u]| && p.g[u][k] == m;
      assert (u, k) in InEdges(p.g, m);
    }
  }

  lemma LogBegin(g: Digraph, begun: set<nat>, ended: set<nat>, log: seq<Event>, n: nat)
    requires LogOk(g, begun, ended, log) && n !in begun
    requires forall u: nat :: HasEdge(g, u, n) ==> u in ended
    ensures LogOk(g, begun + {n}, ended, log + [Begin(n)])
  {
    assert forall i :: 0 <= i < |log| ==> (log + [Begin(n)])[..i] == log[..i];
    assert (log + [Begin(n)])[..|log|] == log;
  }

  lemma LogEnd(g: Digraph, begun: set<nat>, ended: set<nat>, log: seq<Event>, n: nat)
    requires LogOk(g, begun, ended, log) && n in begun && n !in ended
    ensures LogOk(g, begun, ended + {n}, log + [End(n)])
  {
    assert forall i :: 0 <= i < |log| ==> (log + [End(n)])[..i] == log[..i];
    assert (log + [End(n)])[..|log|] == log;
  }

  /** Giving a thread a new state keeps ownership exclusive when it takes over nothing that another thread has. */
  lemma SetThread(threads: map<nat, Thread>, t: nat, th: Thread)
    requires Exclusive(threads)
    requires forall t2, m: nat :: t2 in threads && t2 != t && Owns(threads[t2], m) ==> !Owns(th, m)
    requires forall t2, n: nat :: t2 in threads && t2 != t && Acts(threads[t2], n) ==> !Acts(th, n)
    ensures Exclusive(threads[t := th])
  {
  }

  lemma DropThread(threads: map<nat, Thread>, t: nat)
    requires Exclusive(threads)
    ensures Exclusive(threads - {t})
  {
  }

  /** What a step for node n, which deals with ready node m, may change. */
  ghost predicate OnlyFor(s: State, s2: State, n: nat, m: Option<nat>) {
    && |s2.ctr| == |s.ctr|
    && s.begun <= s2.begun <= s.begun + {n}
    && s.ended <= s2.ended <= s.ended + {n}
    && s.left <= s2.left <= s.left + {n}
    && s.delivered <= s2.delivered
    && (forall e :: e in s2.delivered && e.0 != n ==> e in s.delivered)
    && s.placed <= s2.placed
    && (forall x :: x in s2.placed ==> x in s.placed || m == Some(x))
    && (forall x: nat :: x < |s.ctr| && s.ctr[x] == 0 ==> s2.ctr[x] == 0)
  }

  /** Such a step does not disturb a thread that neither works for n nor holds n or m. */
  lemma OtherThreadOk(p: Plan, s: State, s2: State, n: nat, m: Option<nat>, th: Thread)
    requires OnlyFor(s, s2, n, m)
    requires ThreadOk(p, s, th) && HeldOk(s, th)
    requires !Acts(th, n) && !Owns(th, n) && (m.Some? ==> !Owns(th, m.value))
    ensures ThreadOk(p, s2, th) && HeldOk(s2, th)
  {
  }

  /** The threads a step leaves alone. */
  ghost predicate SameElsewhere(s: State, s2: State, t: nat) {
    && s.nextId <= s2.nextId
    && (forall t0 :: t0 in s2.threads && t0 != t && t0 < s.nextId ==> t0 in s.threads && s.threads[t0] == s2.threads[t0])
    && (forall t0 :: t0 in s.threads && t0 != t ==> t0 in s2.threads && s.threads[t0] == s2.threads[t0])
  }

  /** A step for node n by thread t loses nothing if it accounts for n, for what t held, and for what became ready. */
  lemma KeepCover(p: Plan, s: State, s2: State, n: nat, m: Option<nat>, t: nat)
    requires CoverInv(p, s) && OnlyFor(s, s2, n, m) && SameElsewhere(s, s2, t)
    requires s.io - {n} <= s2.io
    requires NodeCovered(p, s2, n)
    requires t in s.threads ==> forall x: nat :: x != n ==> !Acts(s.threads[t], x)
    requires t in s.threads ==> forall x: nat :: Owns(s.threads[t], x) ==> x in s2.begun || OwnedIn(s2.threads, x)
    requires forall x: nat :: x < |s.ctr| && s.ctr[x] != 0 && s2.ctr[x] == 0 && x !in s2.begun ==> OwnedIn(s2.threads, x)
    ensures CoverInv(p, s2)
  {
    forall x: nat | x < |s2.ctr| && x !in s2.begun && s2.ctr[x] == 0 ensures OwnedIn(s2.threads, x) {
      if s.ctr[x] == 0 {
        assert OwnedIn(s.threads, x);
        var t0 :| t0 in s.threads && Owns(s.threads[t0], x);
        if t0 != t {
          assert Owns(s2.threads[t0], x);
        }
      }
    }
    forall x: nat ensures NodeCovered(p, s2, x) {
      assert NodeCovered(p, s, x);
      if x != n && ActedIn(s.threads, x) {
        var t0 :| t0 in s.threads && Acts(s.threads[t0], x);
        assert Acts(s2.threads[t0], x);
      }
    }
  }

  /** Thread t, and a thread started by it, are in order afterwards. */
  ghost predicate OwnOk(p: Plan, s: State, s2: State, t: nat) {
    forall t0 :: t0 in s2.threads && (t0 == t || t0 >= s.nextId) ==>
      t0 < s2.nextId && ThreadOk(p, s2, s2.threads[t0]) && HeldOk(s2, s2.threads[t0])
  }

  /** A step for node n by thread t keeps the threads in order if it leaves t itself, and a thread it may have
      started, in order. */
  lemma KeepThreads(p: Plan, s: State, s2: State, n: nat, m: Option<nat>, t: nat)
    requires ThreadInv(p, s) && OnlyFor(s, s2, n, m) && SameElsewhere(s, s2, t)
    requires Exclusive(s2.threads)
    requires OwnOk(p, s, s2, t)
    requires forall t0 :: t0 in s.threads && t0 != t ==>
               !Acts(s.threads[t0], n) && !Owns(s.threads[t0], n) && (m.Some? ==> !Owns(s.threads[t0], m.value))
    requires IoOk(s2)
    ensures ThreadInv(p, s2)
  {
    forall t0 | t0 in s2.threads ensures ThreadOk(p, s2, s2.threads[t0]) && HeldOk(s2, s2.threads[t0]) {
      if t0 != t && t0 < s.nextId {
        OtherThreadOk(p, s, s2, n, m, s.threads[t0]);
      }
    }
  }

  /** When thread t holds n, nothing else has to do with n. */
  lemma HolderIsAlone(p: Plan, s: State, t: nat, n: nat)
    requires ThreadInv(p, s) && HistoryInv(p, s) && t in s.threads && Owns(s.threads[t], n)
    ensures n < |s.ctr| && n !in s.begun && n !in s.ended && n !in s.left && n !in s.io && s.ctr[n] == 0
    ensures !ActedIn(s.threads, n)
    ensures forall t0 :: t0 in s.threads && t0 != t ==> !Owns(s.threads[t0], n)
    ensures forall k: nat :: (n, k) !in s.delivered
  {
    assert HeldOk(s, s.threads[t]);
    forall t0 | t0 in s.threads ensures !Acts(s.threads[t0], n) {
      assert ThreadOk(p, s, s.threads[t0]);
    }
  }

  // ------------------------------------------------------------------ a node begins

  lemma RunExclusive(p: Plan, s: State, t: nat, skip: bool)
    requires ThreadInv(p, s) && HistoryInv(p, s) && t in s.threads && s.threads[t].Pending?
    ensures Exclusive(RunNode(p, s, t, skip).threads)
    ensures SameElsewhere(s, RunNode(p, s, t, skip), t)
    ensures IoOk(RunNode(p, s, t, skip))
  {
    var s2 := RunNode(p, s, t, skip);
    HolderIsAlone(p, s, t, s.threads[t].node);
    if s2.threads == s.threads - {t} {
      DropThread(s.threads, t);
    } else {
      SetThread(s.threads, t, s2.threads[t]);
    }
  }

  lemma RunOwn(p: Plan, s: State, t: nat, skip: bool)
    requires |s.ctr| == |p.g|
    requires ThreadInv(p, s) && HistoryInv(p, s) && t in s.threads && s.threads[t].Pending?
    ensures OwnOk(p, s, RunNode(p, s, t, skip), t)
    ensures OnlyFor(s, RunNode(p, s, t, skip), s.threads[t].node, None)
  {
    HolderIsAlone(p, s, t, s.threads[t].node);
  }

  lemma RunThreads(p: Plan, s: State, t: nat, skip: bool)
    requires |s.ctr| == |p.g|
    requires ThreadInv(p, s) && HistoryInv(p, s) && CoverInv(p, s) && t in s.threads && s.threads[t].Pending?
    ensures ThreadInv(p, RunNode(p, s, t, skip))
    ensures CoverInv(p, RunNode(p, s, t, skip))
  {
    var n := s.threads[t].node;
    var s2 := RunNode(p, s, t, skip);
    HolderIsAlone(p, s, t, n);
    RunExclusive(p, s, t, skip);
    RunOwn(p, s, t, skip);
    KeepThreads(p, s, s2, n, None, t);
    if t in s2.threads {
      assert Acts(s2.threads[t], n);
    }
    KeepCover(p, s, s2, n, None, t);
  }

  lemma RunLog(p: Plan, s: State, t: nat, skip: bool)
    requires Inv(p, s) && LogInv(p, s) && t in s.threads && s.threads[t].Pending?
    ensures LogInv(p, RunNode(p, s, t, skip))
  {
    var n := s.threads[t].node;
    HolderIsAlone(p, s, t, n);
    ReadyMeansPredecessorsEnded(p, s, n);
    LogBegin(p.g, s.begun, s.ended, s.log, n);
    if skip {
      LogEnd(p.g, s.begun + {n}, s.ended, s.log + [Begin(n)], n);
    }
  }

  lemma RunKeepsInv(p: Plan, s: State, t: nat, skip: bool)
    requires Inv(p, s) && t in s.threads && s.threads[t].Pending?
    ensures Inv(p, RunNode(p, s, t, skip))
  {
    HolderIsAlone(p, s, t, s.threads[t].node);
    RunThreads(p, s, t, skip);
  }

  // ------------------------------------------------------------------ a node's service ends

  /** When thread t works for n, nothing else has to do with n. */
  lemma ActorIsAlone(p: Plan, s: State, t: nat, n: nat)
    requires ThreadInv(p, s) && HistoryInv(p, s) && t in s.threads && Acts(s.threads[t], n)
    ensures n in s.begun && n !in s.left && n !in s.io && n < |p.g|
    ensures forall t0 :: t0 in s.threads && t0 != t ==> !Acts(s.threads[t0], n)
    ensures forall t0 :: t0 in s.threads ==> !Owns(s.threads[t0], n)
  {
    assert ThreadOk(p, s, s.threads[t]);
    forall t0 | t0 in s.threads ensures !Owns(s.threads[t0], n) {
      assert HeldOk(s, s.threads[t0]);
    }
  }

  /** A node whose service ends, on its own thread or in a callback, starts notifying its out-nodes. */
  function StartNotifying(s: State, t: nat, n: nat): State {
    Ended(s, n).(io := s.io - {n}, threads := s.threads[t := Notifying(n, 0, None, None)],
                 nextId := if t == s.nextId then s.nextId + 1 else s.nextId)
  }

  ghost predicate CanEnd(s: State, t: nat, n: nat) {
    (t in s.threads && s.threads[t] == Serving(n)) || (t == s.nextId && n in s.io)
  }

  lemma EndThreads(p: Plan, s: State, t: nat, n: nat)
    requires Inv(p, s) && CanEnd(s, t, n)
    ensures ThreadInv(p, StartNotifying(s, t, n))
    ensures CoverInv(p, StartNotifying(s, t, n))
  {
    var s2 := StartNotifying(s, t, n);
    if t in s.threads {
      assert ThreadOk(p, s, s.threads[t]);
      ActorIsAlone(p, s, t, n);
    } else {
      forall t0 | t0 in s.threads ensures !Owns(s.threads[t0], n) {
        assert HeldOk(s, s.threads[t0]);
      }
    }
    SetThread(s.threads, t, s2.threads[t]);
    assert Acts(s2.threads[t], n);
    KeepThreads(p, s, s2, n, None, t);
    KeepCover(p, s, s2, n, None, t);
  }

  lemma EndIsNew(p: Plan, s: State, t: nat, n: nat)
    requires ThreadInv(p, s) && CanEnd(s, t, n)
    ensures n in s.begun && n !in s.ended
  {
    if t in s.threads {
      assert ThreadOk(p, s, s.threads[t]);
    }
  }

  lemma EndLog(p: Plan, s: State, t: nat, n: nat)
    requires ThreadInv(p, s) && LogInv(p, s) && CanEnd(s, t, n)
    ensures LogInv(p, StartNotifying(s, t, n))
  {
    EndIsNew(p, s, t, n);
    LogEnd(p.g, s.begun, s.ended, s.log, n);
  }

  lemma EndKeepsInv(p: Plan, s: State, t: nat, n: nat)
    requires Inv(p, s) && CanEnd(s, t, n)
    ensures Inv(p, StartNotifying(s, t, n))
  {
    EndIsNew(p, s, t, n);
    EndThreads(p, s, t, n);
  }

  // ------------------------------------------------------------------ an out-node is notified

  lemma NotifyCounters(p: Plan, s: State, t: nat)
    requires WellFormed(p.g) && Inv(p, s) && CanNotify(p, s, t)
    ensures CounterInv(p, NotifyNext(p, s, t))
    ensures s.ctr[p.g[s.threads[t].node][s.threads[t].next]] >= 1
    ensures (s.threads[t].node, s.threads[t].next) !in s.delivered
  {
    var th := s.threads[t];
    var e: Edge := (th.node, th.next);
    var m := p.g[th.node][th.next];
    var s2 := NotifyNext(p, s, t);
    assert ThreadOk(p, s, th);
    assert e in InEdges(p.g, m);
    assert CounterOk(p.g, s.ctr, s.delivered, m);
    Countdown.Spend(InEdges(p.g, m), s.delivered, e);
    forall x: nat | x < |p.g| ensures CounterOk(p.g, s2.ctr, s2.delivered, x) {
      if x != m {
        assert CounterOk(p.g, s.ctr, s.delivered, x);
        Countdown.Other(InEdges(p.g, x), s.delivered, e);
      }
    }
  }

  lemma NotifyOwn(p: Plan, s: State, t: nat)
    requires WellFormed(p.g) && Inv(p, s) && CanNotify(p, s, t)
    ensures OwnOk(p, s, NotifyNext(p, s, t), t)
    ensures OnlyFor(s, NotifyNext(p, s, t), s.threads[t].node, None)
  {
    NotifyCounters(p, s, t);
    assert ThreadOk(p, s, s.threads[t]) && HeldOk(s, s.threads[t]);
  }

  lemma NotifyExclusive(p: Plan, s: State, t: nat)
    requires WellFormed(p.g) && Inv(p, s) && CanNotify(p, s, t)
    ensures Exclusive(NotifyNext(p, s, t).threads)
    ensures IoOk(NotifyNext(p, s, t))
  {
    var s2 := NotifyNext(p, s, t);
    NotifyCounters(p, s, t);
    forall t0 | t0 in s.threads ensures !Owns(s.threads[t0], p.g[s.threads[t].node][s.threads[t].next]) {
      assert HeldOk(s, s.threads[t0]);
    }
    SetThread(s.threads, t, s2.threads[t]);
  }

  lemma NotifyThreads(p: Plan, s: State, t: nat)
    requires WellFormed(p.g) && Inv(p, s) && CanNotify(p, s, t)
    ensures ThreadInv(p, NotifyNext(p, s, t))
    ensures CoverInv(p, NotifyNext(p, s, t))
  {
    var n := s.threads[t].node;
    var s2 := NotifyNext(p, s, t);
    ActorIsAlone(p, s, t, n);
    NotifyOwn(p, s, t);
    NotifyExclusive(p, s, t);
    KeepThreads(p, s, s2, n, None, t);
    assert Acts(s2.threads[t], n);
    forall x: nat | x < |s.ctr| && s.ctr[x] != 0 && s2.ctr[x] == 0 ensures OwnedIn(s2.threads, x) {
      assert Owns(s2.threads[t], x);
    }
    forall x: nat | Owns(s.threads[t], x) ensures OwnedIn(s2.threads, x) {
      assert Owns(s2.threads[t], x);
    }
    KeepCover(p, s, s2, n, None, t);
  }

  lemma NotifyKeepsInv(p: Plan, s: State, t: nat)
    requires WellFormed(p.g) && Inv(p, s) && CanNotify(p, s, t)
    ensures Inv(p, NotifyNext(p, s, t))
  {
    NotifyCounters(p, s, t);
    NotifyThreads(p, s, t);
    assert ThreadOk(p, s, s.threads[t]);
  }

  // ------------------------------------------------------------------ a ready node is placed

  ghost predicate CanPlace(s: State, t: nat) {
    t in s.threads && s.threads[t].Notifying? && s.threads[t].got.Some?
  }

  lemma PlaceOwn(p: Plan, s: State, t: nat)
    requires Inv(p, s) && CanPlace(s, t)
    ensures OwnOk(p, s, PlaceReady(s, t), t)
    ensures OnlyFor(s, PlaceReady(s, t), s.threads[t].node, s.threads[t].got)
  {
    assert ThreadOk(p, s, s.threads[t]) && HeldOk(s, s.threads[t]);
    assert forall m: nat :: Owns(s.threads[t], m) ==> m !in s.begun;
    assert s.threads[t].held.Some? ==> Owns(s.threads[t], s.threads[t].held.value);
    assert Owns(s.threads[t], s.threads[t].got.value);
  }

  lemma PlaceExclusive(p: Plan, s: State, t: nat)
    requires ThreadInv(p, s) && CanPlace(s, t)
    ensures Exclusive(PlaceReady(s, t).threads)
    ensures SameElsewhere(s, PlaceReady(s, t), t)
    ensures IoOk(PlaceReady(s, t))
  {
    var th := s.threads[t];
    assert ThreadOk(p, s, th);
    var mid := s.threads[t := th.(held := th.got, got := None)];
    SetThread(s.threads, t, mid[t]);
    if th.held.Some? {
      assert Owns(th, th.held.value);
      SetThread(mid, s.nextId, Pending(th.held.value));
    }
  }

  lemma PlaceThreads(p: Plan, s: State, t: nat)
    requires Inv(p, s) && CanPlace(s, t)
    ensures ThreadInv(p, PlaceReady(s, t))
  {
    var th := s.threads[t];
    ActorIsAlone(p, s, t, th.node);
    PlaceOwn(p, s, t);
    PlaceExclusive(p, s, t);
    assert Owns(th, th.got.value);
    KeepThreads(p, s, PlaceReady(s, t), th.node, th.got, t);
  }

  lemma PlaceCover(p: Plan, s: State, t: nat)
    requires Inv(p, s) && CanPlace(s, t)
    ensures CoverInv(p, PlaceReady(s, t))
  {
    var th := s.threads[t];
    var s2 := PlaceReady(s, t);
    PlaceOwn(p, s, t);
    PlaceExclusive(p, s, t);
    ActorIsAlone(p, s, t, th.node);
    assert Acts(s2.threads[t], th.node);
    forall x: nat | Owns(th, x) ensures OwnedIn(s2.threads, x) {
      if th.got == Some(x) {
        assert Owns(s2.threads[t], x);
      } else {
        assert Owns(s2.threads[s.nextId], x);
      }
    }
    KeepCover(p, s, s2, th.node, th.got, t);
  }

  lemma PlaceKeepsInv(p: Plan, s: State, t: nat)
    requires Inv(p, s) && CanPlace(s, t)
    ensures Inv(p, PlaceReady(s, t))
  {
    PlaceThreads(p, s, t);
    PlaceCover(p, s, t);
    assert Owns(s.threads[t], s.threads[t].got.value) && HeldOk(s, s.threads[t]);
  }

  // ------------------------------------------------------------------ a loop ends

  lemma FinishExclusive(p: Plan, s: State, t: nat)
    requires ThreadInv(p, s) && CanFinish(p, s, t)
    ensures Exclusive(LeaveLoop(s, t).threads)
    ensures SameElsewhere(s, LeaveLoop(s, t), t)
    ensures IoOk(LeaveLoop(s, t))
  {
    var th := s.threads[t];
    if th.held.Some? {
      assert Owns(th, th.held.value);
      SetThread(s.threads, t, Pending(th.held.value));
    } else {
      DropThread(s.threads, t);
    }
  }

  lemma FinishKeepsInv(p: Plan, s: State, t: nat)
    requires Inv(p, s) && CanFinish(p, s, t)
    ensures Inv(p, LeaveLoop(s, t))
  {
    var th := s.threads[t];
    var s2 := LeaveLoop(s, t);
    ActorIsAlone(p, s, t, th.node);
    FinishExclusive(p, s, t);
    assert ThreadOk(p, s, th) && HeldOk(s, th);
    assert OwnOk(p, s, s2, t) by {
      if th.held.Some? {
        assert Owns(th, th.held.value);
      }
    }
    KeepThreads(p, s, s2, th.node, None, t);
    forall x: nat | Owns(th, x) ensures OwnedIn(s2.threads, x) {
      assert Owns(s2.threads[t], x);
    }
    KeepCover(p, s, s2, th.node, None, t);
  }

  // ------------------------------------------------------------------ any step

  /** Every action that is possible keeps the invariant. */
  lemma StepKeepsInv(p: Plan, s: State, a: Action)
    requires WellFormed(p.g) && Inv(p, s) && Step(p, s, a).Some?
    ensures Inv(p, Step(p, s, a).value)
  {
    match a
    case Run(t, skip) => RunKeepsInv(p, s, t, skip);
    case Served(t) => EndKeepsInv(p, s, t, s.threads[t].node); ServedIsEnd(p, s, t);
    case IoDone(n) => EndKeepsInv(p, s, s.nextId, n); IoDoneIsEnd(p, s, n);
    case Notify(t) => NotifyKeepsInv(p, s, t);
    case Place(t) => PlaceKeepsInv(p, s, t);
    case Finish(t) => FinishKeepsInv(p, s, t);
  }

  lemma ServedIsEnd(p: Plan, s: State, t: nat)
    requires Inv(p, s) && Step(p, s, Served(t)).Some?
    ensures Step(p, s, Served(t)).value == StartNotifying(s, t, s.threads[t].node)
  {
    var n := s.threads[t].node;
    assert ThreadOk(p, s, s.threads[t]);
    ActorIsAlone(p, s, t, n);
    assert s.io - {n} == s.io;
  }

  lemma IoDoneIsEnd(p: Plan, s: State, n: nat)
    requires Step(p, s, IoDone(n)).Some?
    ensures Step(p, s, IoDone(n)).value == StartNotifying(s, s.nextId, n)
  {
  }

  /** Every action that is possible keeps the log in order. */
  lemma StepKeepsLog(p: Plan, s: State, a: Action)
    requires Inv(p, s) && LogInv(p, s) && Step(p, s, a).Some?
    ensures LogInv(p, Step(p, s, a).value)
  {
    match a
    case Run(t, skip) => RunLog(p, s, t, skip);
    case Served(t) => EndLog(p, s, t, s.threads[t].node);
    case IoDone(n) => EndLog(p, s, s.nextId, n);
    case Notify(t) =>
    case Place(t) =>
    case Finish(t) =>
  }
}
