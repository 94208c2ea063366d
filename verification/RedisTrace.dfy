/** What a call of `RedisService::do_service` is seen to do in a run, read off the actions and the place of the thread
    that takes each: the batches sent, the callbacks, and the effects at the end of the request. */
module RedisTrace {
  import opened Options
  import opened RedisRequest
  import RedisSteps
  import Theorems = RedisTheorems

  /** A batch is sent; it is not, because the send fails or there is nothing to send; its callback comes; the results are
      merged; the cached data is parsed; the promise is set; the response is processed; the out-nodes are notified. */
  datatype Deed = Sent(job: Job) | Unsent(job: Job) | Back(job: Job) | Merged | Parsed | PromiseSet | Processed | Notified

  /** What an action does, by where its thread stood.  Nothing here looks at the state it leads to. */
  function Seen(r: Request, s: State, a: Action): seq<Deed> {
    match a
    case Issue(ok) =>
      if s.phase.Issuing? && s.phase.fetch < |r.batches| then
        var j := (s.phase.fetch, s.phase.batch);
        [if ok && r.batches[j.0] > 0 then Sent(j) else Unsent(j)]
      else []
    case LoopEnd => []
    case Tail => if s.phase == TailParse then [Parsed] else if s.phase == TailSet then [PromiseSet] else []
    case Arrive(j) => [Back(j)]
    case Work(j) => if j in s.workers then SeenAt(s.workers[j].pc) else []
  }

  function SeenAt(pc: Pc): seq<Deed> {
    match pc
    case AtMerge => [Merged]
    case AtParse => [Parsed]
    case AtSet => [PromiseSet]
    case AtProcess => [Processed]
    case AtNotify => [Notified]
    case _ => []
  }

  function Trace(r: Request, acts: seq<Action>): seq<Deed> {
    if acts == [] then []
    else
      var before := acts[..|acts| - 1];
      match Exec(r, before)
      case None => Trace(r, before)
      case Some(s) => Trace(r, before) + Seen(r, s, acts[|acts| - 1])
  }

  predicate Issued(tr: seq<Deed>, j: Job) {
    Sent(j) in tr || Unsent(j) in tr
  }

  /** The batch has come back, or was never sent. */
  predicate Settled(tr: seq<Deed>, j: Job) {
    Back(j) in tr || Unsent(j) in tr
  }

  predicate Earlier(k: Job, j: Job) {
    k.0 < j.0 || (k.0 == j.0 && k.1 < j.1)
  }

  /** What must have been seen, and what must not, before a deed: the batches are issued in order; a callback belongs to a
      batch that was sent; the merge comes when every batch is settled; the promise is set after the parsing; the
      response is processed after the merge and, if there is cached data, after the promise is set; the notification
      comes after that; and nothing happens twice. */
  ghost predicate MayFollow(r: Request, before: seq<Deed>, d: Deed) {
    && d !in before
    && match d
       case Sent(j) => IsJob(r, j) && r.batches[j.0] > 0 && Unsent(j) !in before && EarlierIssued(r, before, j)
       case Unsent(j) => IsJob(r, j) && Sent(j) !in before && EarlierIssued(r, before, j)
       case Back(j) => Sent(j) in before
       case Merged => AllSettled(r, before)
       case Parsed => r.cached
       case PromiseSet => Parsed in before
       case Processed => Merged in before && (r.cached ==> PromiseSet in before)
       case Notified => Processed in before
  }

  ghost predicate EarlierIssued(r: Request, before: seq<Deed>, j: Job) {
    forall k {:trigger Issued(before, k)} :: IsJob(r, k) && Earlier(k, j) ==> Issued(before, k)
  }

  ghost predicate AllSettled(r: Request, before: seq<Deed>) {
    forall j {:trigger Settled(before, j)} :: IsJob(r, j) ==> Settled(before, j)
  }

  ghost predicate Proper(r: Request, tr: seq<Deed>) {
    forall i :: 0 <= i < |tr| ==> MayFollow(r, tr[..i], tr[i])
  }

  // ------------------------------------------------------------------ the invariant

  /** The completions are those of the batches seen to be settled. */
  ghost predicate JobsReflect(s: State, tr: seq<Deed>) {
    && (forall j {:trigger Sent(j)} :: Sent(j) in tr <==> j in s.flight || (j in s.workers && s.workers[j].rpc))
    && (forall j {:trigger Unsent(j)} :: Unsent(j) in tr <==> j in s.workers && !s.workers[j].rpc)
    && (forall j {:trigger Back(j)} :: Back(j) in tr <==> j in s.workers && s.workers[j].rpc)
  }

  /** The counts of the effects are those of the deeds.  A merge that crashes has begun. */
  predicate EffectsReflect(s: State, tr: seq<Deed>) {
    && (Merged in tr <==> s.done.merged >= 1 || s.crashed)
    && (Parsed in tr <==> s.done.parsed >= 1)
    && (PromiseSet in tr <==> s.done.sets >= 1)
    && (Processed in tr <==> s.done.processed >= 1)
    && (Notified in tr <==> s.done.notified >= 1)
  }

  ghost predicate Reflects(s: State, tr: seq<Deed>) {
    JobsReflect(s, tr) && EffectsReflect(s, tr)
  }

  /** At most one more deed. */
  lemma OneMore(r: Request, tr: seq<Deed>, more: seq<Deed>)
    requires Proper(r, tr) && |more| <= 1 && forall i :: 0 <= i < |more| ==> MayFollow(r, tr, more[i])
    ensures Proper(r, tr + more)
  {
    var all := tr + more;
    assert all[..|tr|] == tr;
    forall i | 0 <= i < |all| ensures MayFollow(r, all[..i], all[i]) {
      if i < |tr| {
        assert all[..i] == tr[..i];
      }
    }
  }

  // ------------------------------------------------------------------ issuing and calling back

  lemma IssueMayFollow(r: Request, s: State, tr: seq<Deed>)
    requires IssueInv(r, s) && JobsReflect(s, tr) && CanIssue(r, s)
    ensures var j := (s.phase.fetch, s.phase.batch);
            MayFollow(r, tr, Unsent(j)) && (r.batches[j.0] > 0 ==> MayFollow(r, tr, Sent(j)))
  {
    var j := (s.phase.fetch, s.phase.batch);
    RedisSteps.NextIssued(r, s.issued, s.phase);
    assert Sent(j) !in tr && Unsent(j) !in tr;
    forall k: Job | IsJob(r, k) && Earlier(k, j) ensures Issued(tr, k) {
      assert Before(k, s.phase);
      assert k in s.issued;
      assert Sent(k) in tr || Unsent(k) in tr;
    }
  }

  lemma SentReflects(s: State, s2: State, tr: seq<Deed>, j: Job)
    requires JobsReflect(s, tr) && s2.flight == s.flight + {j} && s2.workers == s.workers
    ensures JobsReflect(s2, tr + [Sent(j)])
  {
  }

  lemma UnsentReflects(s: State, s2: State, tr: seq<Deed>, j: Job, w: Worker)
    requires JobsReflect(s, tr) && j !in s.workers && s2.flight == s.flight && s2.workers == s.workers[j := w] && !w.rpc
    ensures JobsReflect(s2, tr + [Unsent(j)])
  {
  }

  lemma BackReflects(s: State, s2: State, tr: seq<Deed>, j: Job, w: Worker)
    requires JobsReflect(s, tr) && j in s.flight && j !in s.workers
    requires s2.flight == s.flight - {j} && s2.workers == s.workers[j := w] && w.rpc
    ensures JobsReflect(s2, tr + [Back(j)])
  {
  }

  /** Steps that neither issue nor call back, and deeds that are about no batch. */
  lemma SameJobs(s: State, s2: State, tr: seq<Deed>, tr2: seq<Deed>)
    requires JobsReflect(s, tr) && s2.flight == s.flight && s2.workers.Keys == s.workers.Keys
    requires forall j :: j in s.workers ==> s2.workers[j].rpc == s.workers[j].rpc
    requires tr2 == tr || exists d :: tr2 == tr + [d] && !d.Sent? && !d.Unsent? && !d.Back?
    ensures JobsReflect(s2, tr2)
  {
    if tr2 != tr {
      var d :| tr2 == tr + [d] && !d.Sent? && !d.Unsent? && !d.Back?;
    }
  }

  lemma SameEffects(s: State, s2: State, tr: seq<Deed>, d: Deed)
    requires EffectsReflect(s, tr) && s2.done == s.done && s2.crashed == s.crashed && (d.Sent? || d.Unsent? || d.Back?)
    ensures EffectsReflect(s2, tr + [d])
  {
  }

  lemma IssueSeen(r: Request, s: State, tr: seq<Deed>, ok: bool)
    requires Inv(r, s) && Reflects(s, tr) && CanIssue(r, s) && Proper(r, tr)
    ensures Reflects(IssueNext(r, s, ok), tr + Seen(r, s, Issue(ok))) && Proper(r, tr + Seen(r, s, Issue(ok)))
  {
    var j := (s.phase.fetch, s.phase.batch);
    var s2 := IssueNext(r, s, ok);
    var d := if ok && r.batches[j.0] > 0 then Sent(j) else Unsent(j);
    assert Seen(r, s, Issue(ok)) == [d];
    IssueMayFollow(r, s, tr);
    OneMore(r, tr, [d]);
    RedisSteps.IssueFrame(r, s, ok);
    RedisSteps.NextIssued(r, s.issued, s.phase);
    SameEffects(s, s2, tr, d);
    if d.Sent? {
      SentReflects(s, s2, tr, j);
    } else {
      UnsentReflects(s, s2, tr, j, s2.workers[j]);
    }
  }

  lemma ArriveSeen(r: Request, s: State, tr: seq<Deed>, j: Job)
    requires Inv(r, s) && Reflects(s, tr) && j in s.flight && Proper(r, tr)
    ensures Reflects(CallBack(s, j), tr + [Back(j)]) && Proper(r, tr + [Back(j)])
  {
    assert j !in s.workers;
    assert Sent(j) in tr && Back(j) !in tr;
    OneMore(r, tr, [Back(j)]);
    SameEffects(s, CallBack(s, j), tr, Back(j));
    BackReflects(s, CallBack(s, j), tr, j, Worker(AtItem, true));
  }

  // ------------------------------------------------------------------ the effects

  /** When the last countdown has run out, every batch is settled. */
  lemma MergeMayFollow(r: Request, s: State, tr: seq<Deed>)
    requires Inv(r, s) && Reflects(s, tr) && !s.crashed && LastAt(s, AtMerge)
    ensures MayFollow(r, tr, Merged)
  {
    forall j: Job | IsJob(r, j) ensures Settled(tr, j) {
      assert j.0 in Fetches(r);
      assert FetchOk(r, s, j.0);
      if r.batches[j.0] > 0 {
        assert j in Batches(r, j.0);
      }
      assert j in s.workers;
      assert Back(j) in tr || Unsent(j) in tr;
    }
  }

  lemma EffectMayFollow(r: Request, s: State, tr: seq<Deed>, pc: Pc)
    requires Inv(r, s) && Reflects(s, tr) && !s.crashed && LastAt(s, pc)
    ensures pc == AtMerge ==> MayFollow(r, tr, Merged)
    ensures pc == AtParse ==> MayFollow(r, tr, Parsed)
    ensures pc == AtSet ==> MayFollow(r, tr, PromiseSet)
    ensures pc == AtProcess ==> MayFollow(r, tr, Processed)
    ensures pc == AtNotify ==> MayFollow(r, tr, Notified)
  {
    if pc == AtMerge {
      MergeMayFollow(r, s, tr);
    }
  }

  lemma EffectReflects(r: Request, s: State, tr: seq<Deed>, j: Job)
    requires EffectsReflect(s, tr) && !s.crashed && CanWork(s, j) && Finishing(s.workers[j].pc)
    ensures EffectsReflect(Finish(r, s, j), tr + SeenAt(s.workers[j].pc))
  {
  }

  lemma WorkProper(r: Request, s: State, tr: seq<Deed>, j: Job)
    requires Inv(r, s) && Reflects(s, tr) && !s.crashed && CanWork(s, j) && Proper(r, tr)
    ensures Proper(r, tr + SeenAt(s.workers[j].pc))
  {
    var pc := s.workers[j].pc;
    assert IsJob(r, j) && WorkerOk(r, s, j);
    if Finishing(pc) {
      EffectMayFollow(r, s, tr, pc);
    }
    OneMore(r, tr, SeenAt(pc));
  }

  lemma WorkEffects(r: Request, s: State, tr: seq<Deed>, j: Job)
    requires EffectsReflect(s, tr) && !s.crashed && CanWork(s, j)
    ensures EffectsReflect(Advance(r, s, j), tr + SeenAt(s.workers[j].pc))
  {
    match s.workers[j].pc
    case AtItem => RedisSteps.SpendItemCells(s, j);
    case AtCond => RedisSteps.SpendCondCells(s, j);
    case _ => EffectReflects(r, s, tr, j);
  }

  lemma WorkSeen(r: Request, s: State, tr: seq<Deed>, j: Job)
    requires Inv(r, s) && Reflects(s, tr) && !s.crashed && CanWork(s, j) && Proper(r, tr)
    ensures Reflects(Advance(r, s, j), tr + SeenAt(s.workers[j].pc)) && Proper(r, tr + SeenAt(s.workers[j].pc))
  {
    RedisSteps.WorkersKeepKind(r, s, j);
    WorkProper(r, s, tr, j);
    WorkEffects(r, s, tr, j);
    WorkKeepsFlight(r, s, j);
    WorkJobs(s, Advance(r, s, j), tr, s.workers[j].pc);
  }

  lemma WorkJobs(s: State, s2: State, tr: seq<Deed>, pc: Pc)
    requires JobsReflect(s, tr) && s2.flight == s.flight && s2.workers.Keys == s.workers.Keys
    requires forall j :: j in s.workers ==> s2.workers[j].rpc == s.workers[j].rpc
    ensures JobsReflect(s2, tr + SeenAt(pc))
  {
    assert tr + [] == tr;
    SameJobs(s, s2, tr, tr + SeenAt(pc));
  }

  lemma WorkKeepsFlight(r: Request, s: State, j: Job)
    requires CanWork(s, j)
    ensures Advance(r, s, j).flight == s.flight
  {
    if Finishing(s.workers[j].pc) {
      RedisSteps.FinishingFrame(r, s, j);
    }
  }

  lemma TailSeen(r: Request, s: State, tr: seq<Deed>, a: Action)
    requires Inv(r, s) && Reflects(s, tr) && Proper(r, tr) && (a == LoopEnd || a == Tail) && Step(r, s, a).Some?
    ensures Reflects(Step(r, s, a).value, tr + Seen(r, s, a)) && Proper(r, tr + Seen(r, s, a))
  {
    assert tr + [] == tr;
    OneMore(r, tr, Seen(r, s, a));
    SameJobs(s, Step(r, s, a).value, tr, tr + Seen(r, s, a));
  }

  lemma StepSeen(r: Request, s: State, tr: seq<Deed>, a: Action)
    requires Inv(r, s) && Reflects(s, tr) && Proper(r, tr) && Step(r, s, a).Some?
    ensures Reflects(Step(r, s, a).value, tr + Seen(r, s, a)) && Proper(r, tr + Seen(r, s, a))
  {
    match a
    case Issue(ok) => IssueSeen(r, s, tr, ok);
    case LoopEnd => TailSeen(r, s, tr, a);
    case Tail => TailSeen(r, s, tr, a);
    case Arrive(j) => ArriveSeen(r, s, tr, j);
    case Work(j) => WorkSeen(r, s, tr, j);
  }

  /** In every run, at every moment: everything that is seen was allowed by what had been seen before. */
  lemma {:induction false} RunsAreProper(r: Request, acts: seq<Action>)
    requires |r.batches| >= 1 && Exec(r, acts).Some?
    ensures Proper(r, Trace(r, acts)) && Reflects(Exec(r, acts).value, Trace(r, acts))
  {
    if acts != [] {
      var before := acts[..|acts| - 1];
      RunsAreProper(r, before);
      RedisSteps.Safety(r, before);
      StepSeen(r, Exec(r, before).value, Trace(r, before), acts[|acts| - 1]);
    }
  }

  // ------------------------------------------------------------------ the whole request

  lemma {:induction false} SeenOnce(r: Request, tr: seq<Deed>, d: Deed)
    requires Proper(r, tr)
    ensures multiset(tr)[d] == if d in tr then 1 else 0
  {
    if tr != [] {
      var before := tr[..|tr| - 1];
      forall i | 0 <= i < |before| ensures MayFollow(r, before[..i], before[i]) {
        assert before[..i] == tr[..i];
      }
      SeenOnce(r, before, d);
      assert tr == before + [tr[|tr| - 1]];
    }
  }

  /** The first batch of some fetch was not sent although there was one. */
  ghost predicate MissesFirst(r: Request, tr: seq<Deed>) {
    exists f: nat {:trigger Unsent((f, 0))} :: f < |r.batches| && r.batches[f] > 0 && Unsent((f, 0)) in tr
  }

  lemma FirstIsSeen(r: Request, s: State, tr: seq<Deed>)
    requires JobsReflect(s, tr)
    ensures MissesFirst(r, tr) <==> Theorems.FirstSendFailed(r, s)
  {
    if MissesFirst(r, tr) {
      var f: nat :| f < |r.batches| && r.batches[f] > 0 && Unsent((f, 0)) in tr;
      assert Theorems.FailedFirst(r, s, f);
    }
    if Theorems.FirstSendFailed(r, s) {
      var f: nat :| f < |r.batches| && Theorems.FailedFirst(r, s, f);
      assert Unsent((f, 0)) in tr;
    }
  }

  /** If the first batch of every fetch was sent, a run that can go no further has sent, or failed to send, each batch
      once; each batch sent has come back once; the results were merged, the response processed and the out-nodes
      notified once; and the cached data was parsed and the promise set once if there was any. */
  lemma EveryBatchIsSettled(r: Request, acts: seq<Action>, j: Job)
    requires |r.batches| >= 1 && Exec(r, acts).Some? && forall a :: Exec(r, acts + [a]).None?
    requires IsJob(r, j) && !MissesFirst(r, Trace(r, acts))
    ensures var tr := Trace(r, acts);
            && multiset(tr)[Sent(j)] + multiset(tr)[Unsent(j)] == 1
            && multiset(tr)[Back(j)] == multiset(tr)[Sent(j)]
            && multiset(tr)[Merged] == multiset(tr)[Processed] == multiset(tr)[Notified] == 1
            && multiset(tr)[Parsed] == multiset(tr)[PromiseSet] == (if r.cached then 1 else 0)
  {
    var s, tr := Exec(r, acts).value, Trace(r, acts);
    RunsAreProper(r, acts);
    RedisSteps.Safety(r, acts);
    FirstIsSeen(r, s, tr);
    Theorems.StuckIsOver(r, acts);
    Theorems.OverIsDecided(r, s);
    Theorems.TerminalIsComplete(r, s);
    Theorems.JobSpent(r, s, j);
    CountJob(r, s, tr, j);
    CountEffects(r, s, tr);
  }

  lemma CountJob(r: Request, s: State, tr: seq<Deed>, j: Job)
    requires Proper(r, tr) && JobsReflect(s, tr) && j in s.workers && j !in s.flight
    ensures multiset(tr)[Sent(j)] + multiset(tr)[Unsent(j)] == 1 && multiset(tr)[Back(j)] == multiset(tr)[Sent(j)]
  {
    SeenOnce(r, tr, Sent(j));
    SeenOnce(r, tr, Unsent(j));
    SeenOnce(r, tr, Back(j));
  }

  /** Each effect is seen as often as it is counted. */
  lemma CountEffects(r: Request, s: State, tr: seq<Deed>)
    requires Proper(r, tr) && EffectsReflect(s, tr) && !s.crashed
    requires s.done.merged <= 1 && s.done.parsed <= 1 && s.done.sets <= 1 && s.done.processed <= 1 && s.done.notified <= 1
    ensures multiset(tr)[Merged] == s.done.merged && multiset(tr)[Parsed] == s.done.parsed
    ensures multiset(tr)[PromiseSet] == s.done.sets && multiset(tr)[Processed] == s.done.processed
    ensures multiset(tr)[Notified] == s.done.notified
  {
    SeenOnce(r, tr, Merged);
    SeenOnce(r, tr, Parsed);
    SeenOnce(r, tr, PromiseSet);
    SeenOnce(r, tr, Processed);
    SeenOnce(r, tr, Notified);
  }

  /** Otherwise the merge has begun, and nothing has been processed or notified. */
  lemma MissedFirstEndsInMerge(r: Request, acts: seq<Action>)
    requires |r.batches| >= 1 && Exec(r, acts).Some? && forall a :: Exec(r, acts + [a]).None?
    requires MissesFirst(r, Trace(r, acts))
    ensures var tr := Trace(r, acts); Merged in tr && Processed !in tr && Notified !in tr
  {
    RunsAreProper(r, acts);
    FirstIsSeen(r, Exec(r, acts).value, Trace(r, acts));
    Theorems.CrashesIff(r, acts);
  }
}
