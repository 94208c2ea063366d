/** What one call of `RedisService::do_service` guarantees over every interleaving. */
module RedisTheorems {
  import Countdown
  import opened Options
  import opened RedisRequest
  import opened RedisSteps

  /** Every batch of fetch f has come back or failed. */
  predicate Done(r: Request, s: State, f: nat)
    requires f < |r.batches|
  {
    f in s.condSpent && forall b: nat :: b < r.batches[f] ==> (f, b) in s.itemSpent
  }

  /** At every moment of every run: merging, processing the response and notifying the out-nodes have each happened
      at most once and in that order; once the first of them has happened, every batch of every fetch is done; the
      response is processed only after the cached data has been parsed; and `parse_cached_data` and `set_value` are
      each called at most once. */
  lemma ResponseComesLast(r: Request, acts: seq<Action>, f: nat)
    requires |r.batches| >= 1 && Exec(r, acts).Some? && f < |r.batches|
    ensures var s := Exec(r, acts).value;
            && s.done.notified <= s.done.processed <= s.done.merged <= 1
            && (s.done.merged == 1 ==> Done(r, s, f))
            && s.done.sets <= s.done.parsed <= 1
            && (s.done.processed == 1 && r.cached ==> s.done.parsed == 1 && s.done.sets == 1 && !s.cacheFull)
            && (!r.cached ==> s.done.parsed == 0)
  {
    Safety(r, acts);
    var s := Exec(r, acts).value;
    if s.last.Some? {
      assert f in Fetches(r);
      assert FetchOk(r, s, f);
      forall b: nat | b < r.batches[f] ensures (f, b) in s.itemSpent {
        assert (f, b) in Batches(r, f);
      }
    }
  }

  /** The countdowns count what is outstanding, and no decrement finds its counter at zero: `cond` is the number of
      fetches not yet done, `item[f]` the number of batches of f not yet done. */
  lemma Counters(r: Request, acts: seq<Action>, j: Job)
    requires |r.batches| >= 1 && Exec(r, acts).Some? && j in Exec(r, acts).value.workers
    ensures var s := Exec(r, acts).value;
            && |s.item| == |r.batches| && IsJob(r, j)
            && s.cond == |Fetches(r) - s.condSpent|
            && s.item[j.0] == |Batches(r, j.0) - s.itemSpent|
            && (s.workers[j].pc == AtItem ==> s.item[j.0] >= 1)
            && (s.workers[j].pc == AtCond ==> s.cond >= 1)
  {
    Safety(r, acts);
    var s := Exec(r, acts).value;
    assert IsJob(r, j) && WorkerOk(r, s, j);
    assert ItemOk(r, s, j.0);
    if s.workers[j].pc == AtItem {
      Countdown.Spend(Batches(r, j.0), s.itemSpent, j);
    } else if s.workers[j].pc == AtCond {
      Countdown.Spend(Fetches(r), s.condSpent, j.0);
    }
  }

  // ------------------------------------------------------------------ progress

  predicate Enabled(r: Request, s: State, a: Action) {
    Step(r, s, a).Some?
  }

  /** The actions of the thread that called `do_service`. */
  predicate OfIssuer(s: State, a: Action) {
    a.Issue? || a == LoopEnd || a == Tail || (a.Work? && s.inline == Some(a.job))
  }

  /** Until it has returned or the process has crashed, the issuing thread can always go on, whatever the other threads
      do: in particular a callback that waits for the promise never blocks it. */
  lemma IssuerNeverBlocks(r: Request, s: State)
    requires Inv(r, s) && s.phase != Returned && !s.crashed
    ensures exists a :: OfIssuer(s, a) && Enabled(r, s, a)
  {
    if s.phase == TailParse || s.phase == TailSet {
      assert OfIssuer(s, Tail) && Enabled(r, s, Tail);
    } else if Free(s) {
      if s.phase.fetch < |r.batches| {
        assert OfIssuer(s, Issue(true)) && Enabled(r, s, Issue(true));
      } else {
        assert OfIssuer(s, LoopEnd) && Enabled(r, s, LoopEnd);
      }
    } else {
      var j := s.inline.value;
      assert IsJob(r, j) && WorkerOk(r, s, j);
      assert OfIssuer(s, Work(j)) && Enabled(r, s, Work(j));
    }
  }

  /** A callback that waits for the promise is released by the issuing thread: either the promise is set, or that
      thread has not returned and can go on. */
  lemma WaiterIsReleased(r: Request, acts: seq<Action>, j: Job)
    requires |r.batches| >= 1 && Exec(r, acts).Some?
    requires j in Exec(r, acts).value.workers && Exec(r, acts).value.workers[j].pc == AtWait
    ensures var s := Exec(r, acts).value;
            s.promiseSet || (s.phase != Returned && exists a :: OfIssuer(s, a) && Enabled(r, s, a))
  {
    Safety(r, acts);
    var s := Exec(r, acts).value;
    assert WorkerOk(r, s, j);
    if !s.promiseSet {
      IssuerNeverBlocks(r, s);
    }
  }

  /** Once the issuing thread has returned, the promise is set or was never needed, so every completion can go on. */
  lemma WorkerCanGoOn(r: Request, s: State, j: Job)
    requires CacheInv(r, s) && LastInv(r, s) && s.phase == Returned
    requires j in s.workers && IsJob(r, j) && WorkerOk(r, s, j) && |s.item| == |r.batches|
    requires s.workers[j].pc != Finished && !s.crashed
    ensures Enabled(r, s, Work(j))
  {
  }

  /** Everything has been done, or the process has crashed. */
  predicate Over(s: State) {
    Terminal(s) || s.crashed
  }

  /** No deadlock: something can happen until the run is over. */
  lemma Progress(r: Request, s: State) returns (a: Action)
    requires Inv(r, s) && !Over(s)
    ensures Enabled(r, s, a)
  {
    if s.phase != Returned {
      IssuerNeverBlocks(r, s);
      a :| OfIssuer(s, a) && Enabled(r, s, a);
    } else if s.flight != {} {
      var j :| j in s.flight;
      a := Arrive(j);
    } else {
      var j :| j in s.workers && s.workers[j].pc != Finished;
      assert IsJob(r, j) && WorkerOk(r, s, j);
      WorkerCanGoOn(r, s, j);
      a := Work(j);
    }
  }

  // ------------------------------------------------------------------ termination

  function Rank(pc: Pc): nat {
    match pc
    case AtItem => 0
    case AtCond => 0
    case AtMerge => 1
    case AtParse => 2
    case AtSet => 3
    case AtWait => 4
    case AtProcess => 5
    case AtNotify => 6
    case Finished => 7
  }

  function PhaseRank(phase: Phase): nat {
    match phase
    case Issuing(_, _) => 0
    case TailParse => 1
    case TailSet => 2
    case Returned => 3
  }

  function LastRank(s: State): nat {
    match LastPc(s)
    case None => 0
    case Some(w) => Rank(w.pc)
  }

  /** How much has happened: jobs issued, completions started, tokens spent, the positions of the last completion and of
      the issuing thread, and a crash. */
  ghost function Happened(s: State): nat {
    |s.issued| + |s.workers.Keys| + |s.itemSpent| + |s.condSpent| + LastRank(s) + PhaseRank(s.phase) + if s.crashed then 1 else 0
  }

  lemma IssueHappens(r: Request, s: State, ok: bool)
    requires CanIssue(r, s) && (s.phase.fetch, s.phase.batch) !in s.issued + s.workers.Keys
    requires s.last.Some? ==> s.last.value in s.workers
    ensures Happened(IssueNext(r, s, ok)) > Happened(s)
  {
    var s2 := IssueNext(r, s, ok);
    var j := (s.phase.fetch, s.phase.batch);
    IssueFrame(r, s, ok);
    if j in s2.workers {
      assert s2.workers.Keys == s.workers.Keys + {j};
    }
    assert LastPc(s2) == LastPc(s);
  }

  lemma ArriveHappens(r: Request, s: State, j: Job)
    requires j in s.flight && j !in s.workers
    requires s.last.Some? ==> s.last.value in s.workers
    ensures Happened(CallBack(s, j)) > Happened(s)
  {
    var s2 := CallBack(s, j);
    assert s2.workers.Keys == s.workers.Keys + {j};
    assert LastPc(s2) == LastPc(s);
  }

  lemma SpendItemHappens(s: State, j: Job)
    requires j in s.workers && j.0 < |s.item| && s.workers[j].pc == AtItem && j !in s.itemSpent && s.last != Some(j)
    ensures Happened(SpendItem(s, j)) > Happened(s)
  {
    assert SpendItem(s, j).workers.Keys == s.workers.Keys;
  }

  lemma SpendCondHappens(s: State, j: Job)
    requires j in s.workers && s.workers[j].pc == AtCond && j.0 !in s.condSpent && s.last.None?
    ensures Happened(SpendCond(s, j)) > Happened(s)
  {
    assert SpendCond(s, j).workers.Keys == s.workers.Keys;
  }

  lemma NextPcIsLater(r: Request, w: Worker)
    requires Finishing(w.pc)
    ensures Rank(NextPc(r, w)) > Rank(w.pc)
  {
  }

  lemma FinishingMoves(r: Request, s: State, j: Job)
    requires CanWork(s, j) && Finishing(s.workers[j].pc)
    ensures j in Finish(r, s, j).workers && Finish(r, s, j).workers[j].pc == NextPc(r, s.workers[j])
  {
    EffectFrame(SetPc(s, j, NextPc(r, s.workers[j])), s.workers[j].pc);
  }

  lemma FinishingHappens(r: Request, s: State, j: Job)
    requires CanWork(s, j) && Finishing(s.workers[j].pc) && s.last == Some(j)
    ensures Happened(Finish(r, s, j)) > Happened(s)
  {
    FinishingFrame(r, s, j);
    FinishingCells(r, s, j);
    FinishingMoves(r, s, j);
    NextPcIsLater(r, s.workers[j]);
    assert Finish(r, s, j).workers.Keys == s.workers.Keys;
  }

  lemma CrashHappens(s: State)
    requires !s.crashed
    ensures Happened(s.(crashed := true)) > Happened(s)
  {
    assert LastPc(s.(crashed := true)) == LastPc(s);
  }

  lemma WorkHappens(r: Request, s: State, j: Job)
    requires CountInv(r, s) && WorkerInv(r, s) && LastInv(r, s) && CanWork(s, j) && !s.crashed
    ensures Happened(Advance(r, s, j)) > Happened(s)
  {
    assert WorkerOk(r, s, j);
    if s.workers[j].pc == AtMerge && !CellsFilled(r, s) {
      CrashHappens(s);
    } else if Finishing(s.workers[j].pc) {
      FinishingHappens(r, s, j);
    } else if s.workers[j].pc == AtItem {
      SpendItemHappens(s, j);
    } else {
      SpendCondKeepsLast(r, s, j);
      SpendCondHappens(s, j);
    }
  }

  lemma IssuerHappens(r: Request, s: State, a: Action)
    requires (a == LoopEnd || a == Tail) && Enabled(r, s, a)
    ensures Happened(Step(r, s, a).value) > Happened(s)
  {
    assert LastPc(Step(r, s, a).value) == LastPc(s);
  }

  lemma StepHappens(r: Request, s: State, a: Action)
    requires Inv(r, s) && Enabled(r, s, a)
    ensures Happened(Step(r, s, a).value) > Happened(s)
  {
    match a
    case Issue(ok) =>
      NextIssued(r, s.issued, s.phase);
      IssueHappens(r, s, ok);
    case LoopEnd => IssuerHappens(r, s, a);
    case Tail => IssuerHappens(r, s, a);
    case Arrive(j) => ArriveHappens(r, s, j);
    case Work(j) => WorkHappens(r, s, j);
  }

  /** How many jobs the first n fetches have. */
  function JobTotal(r: Request, n: nat): nat
    requires n <= |r.batches|
  {
    if n == 0 then 0 else JobTotal(r, n - 1) + JobCount(r, n - 1)
  }

  lemma JobsOfOne(r: Request, js: set<Job>, f: nat)
    requires f < |r.batches| && forall j :: j in js ==> j.0 == f && IsJob(r, j)
    ensures |js| <= JobCount(r, f)
  {
    Countdown.SubsetSize(js, FirstOf(f, JobCount(r, f)));
  }

  lemma {:induction false} JobsBounded(r: Request, js: set<Job>, n: nat)
    requires n <= |r.batches| && forall j :: j in js ==> j.0 < n && IsJob(r, j)
    ensures |js| <= JobTotal(r, n)
  {
    if n == 0 {
      assert js == {};
    } else {
      var earlier := set j | j in js && j.0 < n - 1;
      JobsBounded(r, earlier, n - 1);
      JobsOfOne(r, js - earlier, n - 1);
      assert js == earlier + (js - earlier);
    }
  }

  lemma TokensBounded(r: Request, s: State)
    requires IssueInv(r, s)
    ensures |s.issued| + |s.workers.Keys| + |s.itemSpent| <= 3 * JobTotal(r, |r.batches|)
  {
    JobsBounded(r, s.issued, |r.batches|);
    Countdown.SubsetSize(s.workers.Keys, s.issued);
    Countdown.SubsetSize(s.itemSpent, s.workers.Keys);
  }

  lemma FetchesBounded(r: Request, s: State)
    requires s.condSpent <= Fetches(r)
    ensures |s.condSpent| <= |r.batches|
  {
    Countdown.SubsetSize(s.condSpent, Fetches(r));
  }

  lemma RanksBounded(s: State)
    ensures LastRank(s) + PhaseRank(s.phase) <= 10
  {
  }

  lemma HappenedIsBounded(r: Request, s: State)
    requires IssueInv(r, s) && s.condSpent <= Fetches(r)
    ensures Happened(s) <= 3 * JobTotal(r, |r.batches|) + |r.batches| + 11
  {
    TokensBounded(r, s);
    FetchesBounded(r, s);
    RanksBounded(s);
  }

  lemma {:induction false} RunHappens(r: Request, acts: seq<Action>)
    requires |r.batches| >= 1 && Exec(r, acts).Some?
    ensures |acts| <= Happened(Exec(r, acts).value)
  {
    if acts != [] {
      var before := acts[..|acts| - 1];
      RunHappens(r, before);
      Safety(r, before);
      StepHappens(r, Exec(r, before).value, acts[|acts| - 1]);
    }
  }

  /** Every run ends: a request with J jobs and F fetches takes at most 3J + F + 11 steps. */
  lemma RunsAreShort(r: Request, acts: seq<Action>)
    requires |r.batches| >= 1 && Exec(r, acts).Some?
    ensures |acts| <= 3 * JobTotal(r, |r.batches|) + |r.batches| + 11
  {
    RunHappens(r, acts);
    Safety(r, acts);
    HappenedIsBounded(r, Exec(r, acts).value);
  }

  /** Every run, continued in any way for as long as something can happen, is over at some point. */
  lemma {:induction false} RunToEnd(r: Request, acts: seq<Action>) returns (all: seq<Action>)
    requires |r.batches| >= 1 && Exec(r, acts).Some?
    ensures acts <= all && Exec(r, all).Some? && Over(Exec(r, all).value)
    ensures Terminal(Exec(r, all).value) <==> !FirstSendFailed(r, Exec(r, all).value)
    decreases 3 * JobTotal(r, |r.batches|) + |r.batches| + 11 - |acts|
  {
    RunsAreShort(r, acts);
    Safety(r, acts);
    var s := Exec(r, acts).value;
    if Over(s) {
      all := acts;
      OverIsDecided(r, s);
    } else {
      var a := Progress(r, s);
      assert (acts + [a])[..|acts|] == acts;
      RunsAreShort(r, acts + [a]);
      all := RunToEnd(r, acts + [a]);
    }
  }

  // ------------------------------------------------------------------ completion

  /** At the end every job has a completion, and it has spent its token. */
  lemma JobSpent(r: Request, s: State, j: Job)
    requires IssueInv(r, s) && WorkerInv(r, s) && Terminal(s) && IsJob(r, j)
    ensures j in s.workers && (r.batches[j.0] > 0 ==> j in s.itemSpent)
  {
    assert Before(j, s.phase);
    assert j in s.issued;
    assert WorkerOk(r, s, j);
  }

  lemma AllSpent(r: Request, s: State, f: nat)
    requires IssueInv(r, s) && WorkerInv(r, s) && Terminal(s) && f < |r.batches| && FetchOk(r, s, f)
    ensures Done(r, s, f)
  {
    forall b: nat | b < r.batches[f] ensures (f, b) in s.itemSpent {
      JobSpent(r, s, (f, b));
    }
    JobSpent(r, s, (f, 0));
    assert Batches(r, f) <= s.itemSpent;
  }

  /** With nothing left to do, everything has happened that the request is for, once. */
  lemma TerminalIsComplete(r: Request, s: State)
    requires Inv(r, s) && Terminal(s)
    ensures s.done.merged == 1 && s.done.processed == 1 && s.done.notified == 1 && s.cond == 0
    ensures s.done.parsed == s.done.sets == if r.cached then 1 else 0
    ensures forall f: nat :: f < |r.batches| ==> Done(r, s, f)
  {
    AllDone(r, s);
    Countdown.Zero(Fetches(r), s.condSpent);
    LastHasFinished(r, s);
  }

  // ------------------------------------------------------------------ the merge that crashes

  /** The first send of fetch f failed: its completion ran on the issuing thread. */
  predicate FailedFirst(r: Request, s: State, f: nat) {
    f < |r.batches| && r.batches[f] > 0 && (f, 0) in s.workers && !s.workers[(f, 0)].rpc
  }

  predicate FirstSendFailed(r: Request, s: State) {
    exists f: nat :: f < |r.batches| && FailedFirst(r, s, f)
  }

  /** At the merge, a first cell is empty exactly if a first send failed. */
  lemma MergeFindsNullIff(r: Request, s: State)
    requires Inv(r, s) && s.last.Some?
    ensures CellsFilled(r, s) <==> !FirstSendFailed(r, s)
  {
    forall f: nat | f < |r.batches| && r.batches[f] > 0 ensures (f, 0) in s.filled <==> !FailedFirst(r, s, f) {
      assert f in Fetches(r);
      assert FetchOk(r, s, f);
      assert (f, 0) in Batches(r, f);
    }
    if FirstSendFailed(r, s) {
      var f: nat :| f < |r.batches| && FailedFirst(r, s, f);
      assert (f, 0) !in s.filled;
    }
  }

  /** A run that is over was completed or crashed according to the first sends. */
  lemma OverIsDecided(r: Request, s: State)
    requires Inv(r, s) && Over(s)
    ensures Terminal(s) <==> !FirstSendFailed(r, s)
    ensures s.crashed <==> FirstSendFailed(r, s)
  {
    if s.crashed {
      MergeFindsNullIff(r, s);
    } else {
      TerminalIsComplete(r, s);
      MergeFindsNullIff(r, s);
    }
  }

  /** A run in which nothing more can happen is over. */
  lemma StuckIsOver(r: Request, acts: seq<Action>)
    requires |r.batches| >= 1 && Exec(r, acts).Some? && forall a :: Exec(r, acts + [a]).None?
    ensures Over(Exec(r, acts).value)
  {
    Safety(r, acts);
    if !Over(Exec(r, acts).value) {
      var a := Progress(r, Exec(r, acts).value);
      var _ := Then(r, acts, Exec(r, acts).value, a, Step(r, Exec(r, acts).value, a).value);
      assert false;
    }
  }

  /** The process crashes exactly when the first send of some fetch fails: a run that can go no further has crashed if
      and only if one did, and then nothing was merged, processed or notified. */
  lemma CrashesIff(r: Request, acts: seq<Action>)
    requires |r.batches| >= 1 && Exec(r, acts).Some? && forall a :: Exec(r, acts + [a]).None?
    ensures var s := Exec(r, acts).value;
            && (s.crashed <==> FirstSendFailed(r, s))
            && (s.crashed ==> s.done.merged == 0 && s.done.processed == 0 && s.done.notified == 0)
  {
    Safety(r, acts);
    StuckIsOver(r, acts);
    OverIsDecided(r, Exec(r, acts).value);
  }

  /** No run crashes, at any moment, before a first send has failed. */
  lemma NoCrashWithoutFailure(r: Request, acts: seq<Action>)
    requires |r.batches| >= 1 && Exec(r, acts).Some? && Exec(r, acts).value.crashed
    ensures FirstSendFailed(r, Exec(r, acts).value)
  {
    Safety(r, acts);
    MergeFindsNullIff(r, Exec(r, acts).value);
  }

  /** One step of a run is the failure of a first send. */
  predicate IsFirstFailure(r: Request, s: State, a: Action) {
    a == Issue(false) && s.phase.Issuing? && s.phase.batch == 0 && s.phase.fetch < |r.batches| && r.batches[s.phase.fetch] > 0
  }

  predicate HadFirstFailure(r: Request, acts: seq<Action>)
    requires Exec(r, acts).Some?
  {
    if acts == [] then false
    else
      var before := acts[..|acts| - 1];
      HadFirstFailure(r, before) || IsFirstFailure(r, Exec(r, before).value, acts[|acts| - 1])
  }

  lemma StepFirstFailure(r: Request, s: State, a: Action)
    requires Inv(r, s) && Enabled(r, s, a)
    ensures FirstSendFailed(r, Step(r, s, a).value) <==> FirstSendFailed(r, s) || IsFirstFailure(r, s, a)
  {
    var s2 := Step(r, s, a).value;
    forall f: nat | f < |r.batches|
      ensures FailedFirst(r, s2, f) <==> FailedFirst(r, s, f) || (IsFirstFailure(r, s, a) && s.phase.fetch == f)
    {
      StepFailedFirst(r, s, a, f);
    }
    if IsFirstFailure(r, s, a) {
      assert FailedFirst(r, s2, s.phase.fetch);
    }
    if FirstSendFailed(r, s) {
      var f: nat :| f < |r.batches| && FailedFirst(r, s, f);
      assert FailedFirst(r, s2, f);
    }
  }

  lemma StepFailedFirst(r: Request, s: State, a: Action, f: nat)
    requires Inv(r, s) && Enabled(r, s, a) && f < |r.batches|
    ensures FailedFirst(r, Step(r, s, a).value, f) <==> FailedFirst(r, s, f) || (IsFirstFailure(r, s, a) && s.phase.fetch == f)
  {
    match a
    case Issue(ok) =>
      NextIssued(r, s.issued, s.phase);
      IssueFailedFirst(r, s, ok, f);
    case LoopEnd =>
    case Tail =>
    case Arrive(j) => ArriveFailedFirst(r, s, j, f);
    case Work(j) =>
      WorkersKeepKind(r, s, j);
      SameFailedFirst(r, s, Advance(r, s, j), j, f);
  }

  lemma IssueFailedFirst(r: Request, s: State, ok: bool, f: nat)
    requires CanIssue(r, s) && (s.phase.fetch, s.phase.batch) !in s.workers && f < |r.batches|
    ensures FailedFirst(r, IssueNext(r, s, ok), f) <==>
            FailedFirst(r, s, f) || (IsFirstFailure(r, s, Issue(ok)) && s.phase.fetch == f)
  {
    IssueFrame(r, s, ok);
  }

  lemma ArriveFailedFirst(r: Request, s: State, j: Job, f: nat)
    requires j !in s.workers && f < |r.batches|
    ensures FailedFirst(r, CallBack(s, j), f) <==> FailedFirst(r, s, f)
  {
  }

  lemma SameFailedFirst(r: Request, s: State, s2: State, j: Job, f: nat)
    requires j in s.workers && j in s2.workers && s2.workers == s.workers[j := s2.workers[j]] && s2.workers[j].rpc == s.workers[j].rpc
    ensures FailedFirst(r, s2, f) <==> FailedFirst(r, s, f)
  {
  }

  /** In terms of the actions of the run: a first send has failed exactly if one of its steps was that failure. */
  lemma {:induction false} FirstSendFailedMeaning(r: Request, acts: seq<Action>)
    requires |r.batches| >= 1 && Exec(r, acts).Some?
    ensures FirstSendFailed(r, Exec(r, acts).value) <==> HadFirstFailure(r, acts)
  {
    if acts != [] {
      var before := acts[..|acts| - 1];
      FirstSendFailedMeaning(r, before);
      Safety(r, before);
      StepFirstFailure(r, Exec(r, before).value, acts[|acts| - 1]);
    }
  }

  lemma Then(r: Request, acts: seq<Action>, s: State, a: Action, s2: State) returns (all: seq<Action>)
    requires Exec(r, acts) == Some(s) && Step(r, s, a) == Some(s2)
    ensures all == acts + [a] && Exec(r, all) == Some(s2)
  {
    all := acts + [a];
    assert all[..|acts|] == acts;
  }

  /** The shortest such run: the only send of a request fails, as it does when the pool has no node to send to. */
  lemma OneFailedSendCrashes() returns (acts: seq<Action>)
    ensures var r := Request([1], false);
            && acts == [Issue(false), Work((0, 0)), Work((0, 0)), Work((0, 0))]
            && Exec(r, acts).Some? && Exec(r, acts).value.crashed && Exec(r, acts).value.done.notified == 0
  {
    var r := Request([1], false);
    var j: Job := (0, 0);
    var s1 := IssueNext(r, Init(r), false);
    assert s1.workers[j] == Worker(AtItem, false) && s1.item == [1] && s1.cond == 1 && s1.filled == {};
    acts := Then(r, [], Init(r), Issue(false), s1);
    var s3 := CountedOff(r, s1, j);
    acts := Then(r, acts, s1, Work(j), SpendItem(s1, j));
    acts := Then(r, acts, SpendItem(s1, j), Work(j), s3);
    assert r.batches[0] == 1 && !CellsFilled(r, s3);
    acts := Then(r, acts, s3, Work(j), s3.(crashed := true));
  }

  /** The only token of the only fetch goes straight to the merge. */
  lemma CountedOff(r: Request, s: State, j: Job) returns (s2: State)
    requires j in s.workers && s.workers[j] == Worker(AtItem, false) && j.0 < |s.item| && s.item[j.0] == 1 && s.cond == 1 && !s.crashed
    ensures Step(r, s, Work(j)) == Some(SpendItem(s, j))
    ensures Step(r, SpendItem(s, j), Work(j)) == Some(s2)
    ensures j in s2.workers && s2.workers[j] == Worker(AtMerge, false) && |s2.item| == |s.item|
    ensures s2.filled == s.filled && !s2.crashed && s2.done == s.done
  {
    var s1 := SpendItem(s, j);
    assert s1.workers[j] == Worker(AtCond, false) && s1.cond == 1 && !s1.crashed;
    s2 := SpendCond(s1, j);
  }

  /** Exactly once: when no first send failed, a run that can go no further has merged the results once, processed the
      response once and notified the out-nodes once; cached data was parsed once, and every batch of every fetch was
      done. */
  lemma ExactlyOnce(r: Request, acts: seq<Action>)
    requires |r.batches| >= 1 && Exec(r, acts).Some? && forall a :: Exec(r, acts + [a]).None?
    requires !HadFirstFailure(r, acts)
    ensures var s := Exec(r, acts).value;
            && s.done.merged == 1 && s.done.processed == 1 && s.done.notified == 1 && s.cond == 0
            && s.done.parsed == s.done.sets == (if r.cached then 1 else 0)
            && forall f: nat :: f < |r.batches| ==> Done(r, s, f)
  {
    Safety(r, acts);
    FirstSendFailedMeaning(r, acts);
    CrashesIff(r, acts);
    StuckIsOver(r, acts);
    TerminalIsComplete(r, Exec(r, acts).value);
  }

  lemma AllDone(r: Request, s: State)
    requires CountInv(r, s) && IssueInv(r, s) && WorkerInv(r, s) && FetchInv(r, s) && Terminal(s)
    ensures s.condSpent == Fetches(r)
    ensures forall f: nat :: f < |r.batches| ==> Done(r, s, f)
  {
    forall f: nat | f < |r.batches| ensures Done(r, s, f) {
      FetchDone(r, s, f);
    }
    assert forall f :: f in Fetches(r) ==> Done(r, s, f);
  }

  lemma FetchDone(r: Request, s: State, f: nat)
    requires IssueInv(r, s) && WorkerInv(r, s) && FetchInv(r, s) && Terminal(s) && f < |r.batches|
    ensures Done(r, s, f)
  {
    assert FetchOk(r, s, f);
    AllSpent(r, s, f);
  }

  lemma LastHasFinished(r: Request, s: State)
    requires LastInv(r, s) && CacheInv(r, s) && Terminal(s) && s.condSpent == Fetches(r)
    ensures s.done.merged == 1 && s.done.processed == 1 && s.done.notified == 1
    ensures s.done.parsed == s.done.sets == if r.cached then 1 else 0
  {
  }
}
