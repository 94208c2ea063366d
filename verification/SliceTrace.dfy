/** What `ConcurrentService::do_service` is seen to do in a run, read off the actions and the place of the slice that
    takes each. */
module SliceTrace {
  import opened ConcurrentService
  import Countdown
  import opened Options

  /** A slice is started; it is processed; the slices are merged; the out-nodes are notified. */
  datatype Deed = Started(slice: nat) | Processed(slice: nat) | Merged | Notified

  /** What an action does, by where its thread stood. */
  function Seen(s: State, a: Action): seq<Deed> {
    match a
    case Spawn => [Started(s.next)]
    case Work(i) =>
      if i in s.workers then
        match s.workers[i]
        case AtProcess => [Processed(i)]
        case AtMerge => [Merged]
        case AtNotify => [Notified]
        case _ => []
      else []
  }

  function Trace(slices: nat, acts: seq<Action>): seq<Deed> {
    if acts == [] then []
    else
      var before := acts[..|acts| - 1];
      match Exec(slices, before)
      case None => Trace(slices, before)
      case Some(s) => Trace(slices, before) + Seen(s, acts[|acts| - 1])
  }

  /** Slices are started in order; each is processed after it was started; the merge comes after all of them, and the
      notification after the merge; and nothing happens twice. */
  predicate MayFollow(slices: nat, before: seq<Deed>, d: Deed) {
    && d !in before
    && match d
       case Started(i) => i < slices && (i > 0 ==> Started(i - 1) in before)
       case Processed(i) => Started(i) in before
       case Merged => forall i: nat {:trigger Processed(i)} :: i < slices ==> Processed(i) in before
       case Notified => Merged in before
  }

  predicate Proper(slices: nat, tr: seq<Deed>) {
    forall i :: 0 <= i < |tr| ==> MayFollow(slices, tr[..i], tr[i])
  }

  ghost predicate Reflects(s: State, tr: seq<Deed>) {
    && (forall i: nat {:trigger Started(i)} :: Started(i) in tr <==> i < s.next)
    && (forall i: nat {:trigger Processed(i)} :: Processed(i) in tr <==> i in s.processed)
    && (Merged in tr <==> s.merged >= 1)
    && (Notified in tr <==> s.notified >= 1)
  }

  lemma OneMore(slices: nat, tr: seq<Deed>, more: seq<Deed>)
    requires Proper(slices, tr) && |more| <= 1 && forall i :: 0 <= i < |more| ==> MayFollow(slices, tr, more[i])
    ensures Proper(slices, tr + more)
  {
    var all := tr + more;
    assert all[..|tr|] == tr;
    forall i | 0 <= i < |all| ensures MayFollow(slices, all[..i], all[i]) {
      if i < |tr| {
        assert all[..i] == tr[..i];
      }
    }
  }

  lemma MergeMayFollow(slices: nat, s: State, tr: seq<Deed>, last: nat)
    requires Inv(slices, s) && Reflects(s, tr) && last in s.workers && WorkerOk(s, last) && s.workers[last] == AtMerge
    ensures MayFollow(slices, tr, Merged)
  {
    forall i: nat | i < slices ensures Processed(i) in tr {
      assert i in Countdown.Below(slices);
    }
  }

  lemma WorkMayFollow(slices: nat, s: State, tr: seq<Deed>, i: nat)
    requires Inv(slices, s) && Reflects(s, tr) && i in s.workers && WorkerOk(s, i)
    ensures s.workers[i] == AtProcess ==> MayFollow(slices, tr, Processed(i))
    ensures s.workers[i] == AtMerge ==> MayFollow(slices, tr, Merged)
    ensures s.workers[i] == AtNotify ==> MayFollow(slices, tr, Notified)
  {
    if s.workers[i] == AtMerge {
      MergeMayFollow(slices, s, tr, i);
    }
  }

  lemma StepMayFollow(slices: nat, s: State, tr: seq<Deed>, a: Action)
    requires Inv(slices, s) && Reflects(s, tr) && Step(slices, s, a).Some?
    ensures |Seen(s, a)| <= 1 && forall i :: 0 <= i < |Seen(s, a)| ==> MayFollow(slices, tr, Seen(s, a)[i])
  {
    if a.Work? {
      assert WorkerOk(s, a.slice);
      WorkMayFollow(slices, s, tr, a.slice);
    } else {
      assert Started(s.next) !in tr;
    }
  }

  lemma StepReflects(slices: nat, s: State, tr: seq<Deed>, a: Action)
    requires Reflects(s, tr) && Step(slices, s, a).Some?
    ensures Reflects(Step(slices, s, a).value, tr + Seen(s, a))
  {
  }

  /** In every run, at every moment: everything that is seen was allowed by what had been seen before. */
  lemma {:induction false} RunsAreProper(slices: nat, acts: seq<Action>)
    requires slices >= 1 && Exec(slices, acts).Some?
    ensures Proper(slices, Trace(slices, acts)) && Reflects(Exec(slices, acts).value, Trace(slices, acts))
  {
    if acts != [] {
      var before := acts[..|acts| - 1];
      var s, tr := Exec(slices, before).value, Trace(slices, before);
      RunsAreProper(slices, before);
      Safety(slices, before);
      StepMayFollow(slices, s, tr, acts[|acts| - 1]);
      OneMore(slices, tr, Seen(s, acts[|acts| - 1]));
      StepReflects(slices, s, tr, acts[|acts| - 1]);
    }
  }

  lemma {:induction false} SeenOnce(slices: nat, tr: seq<Deed>, d: Deed)
    requires Proper(slices, tr)
    ensures multiset(tr)[d] == if d in tr then 1 else 0
  {
    if tr != [] {
      var before := tr[..|tr| - 1];
      forall i | 0 <= i < |before| ensures MayFollow(slices, before[..i], before[i]) {
        assert before[..i] == tr[..i];
      }
      SeenOnce(slices, before, d);
      assert tr == before + [tr[|tr| - 1]];
    }
  }

  /** In every completed run each slice was started and processed once, and the merge and the notification were seen
      once. */
  lemma EverySliceIsProcessed(slices: nat, acts: seq<Action>, i: nat)
    requires slices >= 1 && Exec(slices, acts).Some? && Terminal(slices, Exec(slices, acts).value) && i < slices
    ensures var tr := Trace(slices, acts);
            && multiset(tr)[Started(i)] == multiset(tr)[Processed(i)] == 1
            && multiset(tr)[Merged] == multiset(tr)[Notified] == 1
  {
    var tr := Trace(slices, acts);
    RunsAreProper(slices, acts);
    ExactlyOnce(slices, acts);
    SeenOnce(slices, tr, Started(i));
    SeenOnce(slices, tr, Processed(i));
    SeenOnce(slices, tr, Merged);
    SeenOnce(slices, tr, Notified);
  }
}
