/** What the threads are seen to do in a run, read off the actions and the thread that takes each: which nodes are
    served, which are skipped, and which edges are notified. */
module SchedulerTrace {
  import Countdown
  import opened Digraph
  import opened Options
  import opened Scheduler
  import SchedulerSteps
  import Theorems = SchedulerTheorems

  /** `do_service` of a node is called; it is skipped instead; `do_service` of a cpu node returns; the callback of an io
      node reports its completion; and the k-th out-node of a node is notified. */
  datatype Deed = Called(node: nat) | Skipped(node: nat) | Returned(node: nat) | Completed(node: nat) | Notified(node: nat, k: nat)

  /** What an action does, by what its thread was about to do.  Nothing here looks at the state it leads to. */
  function Seen(s: State, a: Action): seq<Deed> {
    match a
    case Run(t, skip) => if t in s.threads then [if skip then Skipped(s.threads[t].node) else Called(s.threads[t].node)] else []
    case Served(t) => if t in s.threads then [Returned(s.threads[t].node)] else []
    case IoDone(n) => [Completed(n)]
    case Notify(t) => if t in s.threads && s.threads[t].Notifying? then [Notified(s.threads[t].node, s.threads[t].next)] else []
    case Place(_) => []
    case Finish(_) => []
  }

  ghost function Trace(p: Plan, acts: seq<Action>): seq<Deed> {
    if acts == [] then []
    else
      var before := acts[..|acts| - 1];
      match Exec(p, before)
      case None => Trace(p, before)
      case Some(s) => Trace(p, before) + Seen(s, acts[|acts| - 1])
  }

  /** The node has been served or skipped. */
  predicate Over(tr: seq<Deed>, n: nat) {
    Skipped(n) in tr || Returned(n) in tr || Completed(n) in tr
  }

  /** What must have been seen, and what must not, before a deed: a node is served or skipped after all its in-edges have
      been notified, and never both; the service of a cpu node returns and that of an io node is completed by its
      callback, after the call; the out-nodes of a node are notified one after the other, when it is over; and nothing
      happens twice. */
  ghost predicate MayFollow(p: Plan, before: seq<Deed>, d: Deed) {
    && d !in before
    && d.node < |p.g|
    && match d
       case Called(n) => Skipped(n) !in before && InEdgesNotified(p, before, n)
       case Skipped(n) => Called(n) !in before && InEdgesNotified(p, before, n)
       case Returned(n) => n !in p.io && Called(n) in before
       case Completed(n) => n in p.io && Called(n) in before
       case Notified(n, k) => k < |p.g[n]| && Over(before, n) && (k > 0 ==> Notified(n, k - 1) in before)
  }

  ghost predicate InEdgesNotified(p: Plan, before: seq<Deed>, n: nat) {
    forall u: nat, k: nat {:trigger Notified(u, k)} :: (u, k) in InEdges(p.g, n) ==> Notified(u, k) in before
  }

  ghost predicate Proper(p: Plan, tr: seq<Deed>) {
    forall i :: 0 <= i < |tr| ==> MayFollow(p, tr[..i], tr[i])
  }

  // ------------------------------------------------------------------ the invariant

  /** The history of the machine is what was seen, and cpu nodes are served on threads and io nodes are not. */
  ghost predicate Reflects(p: Plan, s: State, tr: seq<Deed>) {
    && (forall n: nat {:trigger n in s.begun} {:trigger Called(n)} {:trigger Skipped(n)} ::
          n in s.begun <==> Called(n) in tr || Skipped(n) in tr)
    && (forall n: nat {:trigger n in s.ended} {:trigger Over(tr, n)} :: n in s.ended <==> Over(tr, n))
    && (forall n: nat, k: nat {:trigger Notified(n, k)} :: (n, k) in s.delivered <==> Notified(n, k) in tr)
    && (forall t :: t in s.threads && s.threads[t].Serving? ==> s.threads[t].node !in p.io)
    && s.io <= p.io
  }

  lemma OneMore(p: Plan, tr: seq<Deed>, d: Deed)
    requires Proper(p, tr) && MayFollow(p, tr, d)
    ensures Proper(p, tr + [d])
  {
    assert (tr + [d])[..|tr|] == tr;
    forall i | 0 <= i < |tr| ensures MayFollow(p, (tr + [d])[..i], tr[i]) {
      assert (tr + [d])[..i] == tr[..i];
    }
  }

  lemma RunMayFollow(p: Plan, s: State, tr: seq<Deed>, n: nat)
    requires CounterInv(p, s) && Reflects(p, s, tr) && n < |s.ctr| && s.ctr[n] == 0 && n !in s.begun
    ensures MayFollow(p, tr, Called(n)) && MayFollow(p, tr, Skipped(n))
  {
    assert CounterOk(p.g, s.ctr, s.delivered, n);
    Countdown.Zero(InEdges(p.g, n), s.delivered);
    assert InEdgesNotified(p, tr, n);
    assert Called(n) !in tr && Skipped(n) !in tr;
  }

  lemma CallReflects(p: Plan, s: State, s2: State, tr: seq<Deed>, n: nat)
    requires Reflects(p, s, tr) && s2.begun == s.begun + {n} && s2.ended == s.ended && s2.delivered == s.delivered
    requires forall t :: t in s2.threads && s2.threads[t].Serving? ==> s2.threads[t].node !in p.io
    requires s2.io <= p.io
    ensures Reflects(p, s2, tr + [Called(n)])
  {
  }

  lemma SkipReflects(p: Plan, s: State, s2: State, tr: seq<Deed>, n: nat)
    requires Reflects(p, s, tr) && s2.begun == s.begun + {n} && s2.ended == s.ended + {n} && s2.delivered == s.delivered
    requires forall t :: t in s2.threads && s2.threads[t].Serving? ==> s2.threads[t].node !in p.io
    requires s2.io <= p.io
    ensures Reflects(p, s2, tr + [Skipped(n)])
  {
  }

  lemma RunSeen(p: Plan, s: State, tr: seq<Deed>, t: nat, skip: bool)
    requires Inv(p, s) && Reflects(p, s, tr) && t in s.threads && s.threads[t].Pending?
    ensures var d := if skip then Skipped(s.threads[t].node) else Called(s.threads[t].node);
            MayFollow(p, tr, d) && Reflects(p, RunNode(p, s, t, skip), tr + [d])
  {
    var n := s.threads[t].node;
    SchedulerSteps.HolderIsAlone(p, s, t, n);
    RunMayFollow(p, s, tr, n);
    if skip {
      SkipReflects(p, s, RunNode(p, s, t, skip), tr, n);
    } else {
      CallReflects(p, s, RunNode(p, s, t, skip), tr, n);
    }
  }

  lemma EndSeen(p: Plan, s: State, tr: seq<Deed>, t: nat, n: nat, d: Deed)
    requires Inv(p, s) && Reflects(p, s, tr) && SchedulerSteps.CanEnd(s, t, n)
    requires d == if t in s.threads then Returned(n) else Completed(n)
    ensures MayFollow(p, tr, d) && Reflects(p, SchedulerSteps.StartNotifying(s, t, n), tr + [d])
  {
    SchedulerSteps.EndIsNew(p, s, t, n);
    assert !Over(tr, n);
    assert Called(n) in tr;
  }

  lemma NotifySeen(p: Plan, s: State, tr: seq<Deed>, t: nat)
    requires WellFormed(p.g) && Inv(p, s) && Reflects(p, s, tr) && CanNotify(p, s, t)
    ensures var d := Notified(s.threads[t].node, s.threads[t].next);
            MayFollow(p, tr, d) && Reflects(p, NotifyNext(p, s, t), tr + [d])
  {
    var th := s.threads[t];
    SchedulerSteps.NotifyCounters(p, s, t);
    assert ThreadOk(p, s, th);
    assert Over(tr, th.node);
    if th.next > 0 {
      assert (th.node, th.next - 1) in s.delivered;
    }
  }

  lemma StepSeen(p: Plan, s: State, tr: seq<Deed>, a: Action)
    requires RootedPlan(p) && Inv(p, s) && Reflects(p, s, tr) && Proper(p, tr) && Step(p, s, a).Some?
    ensures Reflects(p, Step(p, s, a).value, tr + Seen(s, a)) && Proper(p, tr + Seen(s, a))
  {
    match a
    case Run(t, skip) =>
      RunSeen(p, s, tr, t, skip);
      OneMore(p, tr, Seen(s, a)[0]);
    case Served(t) =>
      EndSeen(p, s, tr, t, s.threads[t].node, Returned(s.threads[t].node));
      OneMore(p, tr, Seen(s, a)[0]);
    case IoDone(n) =>
      EndSeen(p, s, tr, s.nextId, n, Completed(n));
      OneMore(p, tr, Seen(s, a)[0]);
    case Notify(t) =>
      NotifySeen(p, s, tr, t);
      OneMore(p, tr, Seen(s, a)[0]);
    case Place(t) => assert tr + [] == tr;
    case Finish(t) => assert tr + [] == tr;
  }

  /** In every run, at every moment: everything that is seen was allowed by what had been seen before. */
  lemma {:induction false} RunsAreProper(p: Plan, acts: seq<Action>)
    requires RootedPlan(p) && Exec(p, acts).Some?
    ensures Proper(p, Trace(p, acts)) && Reflects(p, Exec(p, acts).value, Trace(p, acts))
  {
    if acts != [] {
      var before := acts[..|acts| - 1];
      RunsAreProper(p, before);
      Theorems.Safety(p, before);
      StepSeen(p, Exec(p, before).value, Trace(p, before), acts[|acts| - 1]);
    }
  }

  // ------------------------------------------------------------------ every node is served or skipped

  lemma {:induction false} SeenOnce(p: Plan, tr: seq<Deed>, d: Deed)
    requires Proper(p, tr)
    ensures multiset(tr)[d] == if d in tr then 1 else 0
  {
    if tr != [] {
      var before := tr[..|tr| - 1];
      forall i | 0 <= i < |before| ensures MayFollow(p, before[..i], before[i]) {
        assert before[..i] == tr[..i];
      }
      SeenOnce(p, before, d);
      assert tr == before + [tr[|tr| - 1]];
    }
  }

  lemma CalledIsNotSkipped(p: Plan, tr: seq<Deed>, n: nat, i: nat)
    requires Proper(p, tr) && i < |tr| && tr[i] == Called(n)
    ensures Skipped(n) !in tr
  {
    assert MayFollow(p, tr[..i], tr[i]);
    forall j | 0 <= j < |tr| ensures tr[j] != Skipped(n) {
      assert MayFollow(p, tr[..j], tr[j]);
      assert j > i ==> tr[..j][i] == Called(n);
      assert j < i ==> tr[..i][j] == tr[j];
    }
  }

  /** A node that is skipped is not served, and one that is served was called before. */
  lemma SkippedOrCalled(p: Plan, tr: seq<Deed>, n: nat)
    requires Proper(p, tr)
    ensures !(Skipped(n) in tr && Called(n) in tr)
    ensures Returned(n) in tr ==> n !in p.io && Called(n) in tr
    ensures Completed(n) in tr ==> n in p.io && Called(n) in tr
  {
    if Called(n) in tr {
      var i :| 0 <= i < |tr| && tr[i] == Called(n);
      CalledIsNotSkipped(p, tr, n, i);
    }
    if Returned(n) in tr {
      var i :| 0 <= i < |tr| && tr[i] == Returned(n);
      assert MayFollow(p, tr[..i], tr[i]);
    }
    if Completed(n) in tr {
      var i :| 0 <= i < |tr| && tr[i] == Completed(n);
      assert MayFollow(p, tr[..i], tr[i]);
    }
  }

  /** How often node n was served to the end: by its own thread if it is a cpu node, by its callback if it is an io
      node. */
  ghost function TimesServed(p: Plan, tr: seq<Deed>, n: nat): nat {
    multiset(tr)[if n in p.io then Completed(n) else Returned(n)]
  }

  /** On an accepted graph, in a run that can go no further, each node was either called and served once, or skipped once
      and not served, and each of its out-nodes was notified once. */
  lemma EveryNodeIsServedOrSkipped(p: Plan, acts: seq<Action>, n: nat)
    requires GoodPlan(p) && Exec(p, acts).Some? && forall a :: Exec(p, acts + [a]).None?
    requires n < |p.g|
    ensures var tr := Trace(p, acts);
            && TimesServed(p, tr, n) + multiset(tr)[Skipped(n)] == 1
            && multiset(tr)[Called(n)] == TimesServed(p, tr, n) == multiset(tr)[Returned(n)] + multiset(tr)[Completed(n)]
            && (forall k: nat :: k < |p.g[n]| ==> multiset(tr)[Notified(n, k)] == 1)
  {
    GoodPlanIsRooted(p);
    Theorems.GoodPlanIsAcyclic(p);
    Theorems.Safety(p, acts);
    RunsAreProper(p, acts);
    var s, tr := Exec(p, acts).value, Trace(p, acts);
    if !Terminal(s) {
      var a := Theorems.Progress(p, acts);
      assert false;
    }
    Theorems.QuiescentIsComplete(p, s);
    assert n in s.ended && n in s.left && NodeCovered(p, s, n);
    CountDeeds(p, tr, n);
    forall k: nat | k < |p.g[n]| ensures multiset(tr)[Notified(n, k)] == 1 {
      SeenOnce(p, tr, Notified(n, k));
      assert (n, k) in s.delivered;
    }
  }

  lemma CountDeeds(p: Plan, tr: seq<Deed>, n: nat)
    requires Proper(p, tr) && Over(tr, n) && (Called(n) in tr || Skipped(n) in tr)
    ensures TimesServed(p, tr, n) + multiset(tr)[Skipped(n)] == 1
    ensures multiset(tr)[Called(n)] == TimesServed(p, tr, n) == multiset(tr)[Returned(n)] + multiset(tr)[Completed(n)]
  {
    SkippedOrCalled(p, tr, n);
    SeenOnce(p, tr, Called(n));
    SeenOnce(p, tr, Skipped(n));
    SeenOnce(p, tr, Returned(n));
    SeenOnce(p, tr, Completed(n));
  }
}
