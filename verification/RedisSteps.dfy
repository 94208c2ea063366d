/** Each step of the Redis request keeps each part of the invariant. */
module RedisSteps {
  import Countdown
  import opened Options
  import opened RedisRequest

  // ------------------------------------------------------------------ the two countdowns

  lemma SpendItemKeepsCount(r: Request, s: State, j: Job)
    requires CountInv(r, s) && CanWork(s, j) && s.workers[j].pc == AtItem && j !in s.itemSpent
    requires j in Batches(r, j.0)
    ensures CountInv(r, SpendItem(s, j))
    ensures s.item[j.0] >= 1
    ensures s.item[j.0] == 1 <==> Batches(r, j.0) <= s.itemSpent + {j}
  {
    var s2 := SpendItem(s, j);
    assert ItemOk(r, s, j.0);
    Countdown.Spend(Batches(r, j.0), s.itemSpent, j);
    forall f: nat | f < |r.batches| ensures ItemOk(r, s2, f) {
      assert ItemOk(r, s, f);
      if f != j.0 {
        Countdown.Other(Batches(r, f), s.itemSpent, j);
      }
    }
  }

  lemma SpendCondKeepsCount(r: Request, s: State, j: Job)
    requires CountInv(r, s) && CanWork(s, j) && j.0 !in s.condSpent
    ensures CountInv(r, SpendCond(s, j))
    ensures s.cond >= 1
    ensures s.cond == 1 <==> s.condSpent + {j.0} == Fetches(r)
  {
    var s2 := SpendCond(s, j);
    Countdown.Spend(Fetches(r), s.condSpent, j.0);
    forall f: nat | f < |r.batches| ensures ItemOk(r, s2, f) {
      assert ItemOk(r, s, f);
    }
  }

  /** Steps that leave the countdowns alone. */
  lemma SameCount(r: Request, s: State, s2: State)
    requires CountInv(r, s)
    requires s2.item == s.item && s2.itemSpent == s.itemSpent && s2.cond == s.cond && s2.condSpent == s.condSpent
    ensures CountInv(r, s2)
  {
    forall f: nat | f < |r.batches| ensures ItemOk(r, s2, f) {
      assert ItemOk(r, s, f);
    }
  }

  // ------------------------------------------------------------------ issuing and arriving

  lemma NextIssued(r: Request, issued: set<Job>, phase: Phase)
    requires IssuedUpTo(r, issued, phase) && phase.Issuing? && phase.fetch < |r.batches|
    requires phase.batch == 0 || phase.batch < r.batches[phase.fetch]
    ensures var j := (phase.fetch, phase.batch); IsJob(r, j) && j !in issued && IssuedUpTo(r, issued + {j}, Next(r, phase))
  {
    var j := (phase.fetch, phase.batch);
    assert !Before(j, phase);
    forall k ensures k in issued + {j} <==> IsJob(r, k) && Before(k, Next(r, phase)) {
      assert k in issued <==> IsJob(r, k) && Before(k, phase);
    }
  }

  /** A job that is sent is in flight. */
  lemma SentKeepsIssue(r: Request, s: State, s2: State, j: Job)
    requires IssueInv(r, s) && s.phase.Issuing? && s2.phase.Issuing? && j == (s.phase.fetch, s.phase.batch) && j !in s.issued
    requires j.0 < |r.batches| && r.batches[j.0] > 0 && s2.phase == Next(r, s.phase)
    requires s2.issued == s.issued + {j} && IssuedUpTo(r, s2.issued, s2.phase)
    requires s2.flight == s.flight + {j} && s2.workers == s.workers && s2.inline == s.inline && s2.itemSpent == s.itemSpent
    ensures IssueInv(r, s2)
  {
    assert s2.issued == s2.flight + s2.workers.Keys;
  }

  /** A job that is not sent is completed on the issuing thread. */
  lemma InlineKeepsIssue(r: Request, s: State, s2: State, j: Job, w: Worker)
    requires IssueInv(r, s) && s.phase.Issuing? && s2.phase.Issuing? && j == (s.phase.fetch, s.phase.batch) && j !in s.issued
    requires j.0 < |r.batches| && s2.phase == Next(r, s.phase) && !w.rpc
    requires s2.issued == s.issued + {j} && IssuedUpTo(r, s2.issued, s2.phase)
    requires s2.flight == s.flight && s2.workers == s.workers[j := w] && s2.inline == Some(j) && s2.itemSpent == s.itemSpent
    ensures IssueInv(r, s2)
  {
    assert s2.workers.Keys == s.workers.Keys + {j};
    assert s2.issued == s2.flight + s2.workers.Keys;
  }

  lemma IssueKeepsIssue(r: Request, s: State, ok: bool)
    requires IssueInv(r, s) && CanIssue(r, s)
    ensures IssueInv(r, IssueNext(r, s, ok))
    ensures var j := (s.phase.fetch, s.phase.batch); IsJob(r, j) && j !in s.issued
  {
    var j := (s.phase.fetch, s.phase.batch);
    var s2 := IssueNext(r, s, ok);
    IssueFrame(r, s, ok);
    NextIssued(r, s.issued, s.phase);
    if r.batches[j.0] > 0 && ok {
      SentKeepsIssue(r, s, s2, j);
    } else {
      InlineKeepsIssue(r, s, s2, j, s2.workers[j]);
    }
  }

  lemma ArriveKeepsIssue(r: Request, s: State, j: Job)
    requires IssueInv(r, s) && j in s.flight
    ensures IssueInv(r, CallBack(s, j))
  {
    var s2 := CallBack(s, j);
    assert s2.issued == s2.flight + s2.workers.Keys;
    assert s2.workers.Keys == s.workers.Keys + {j};
  }

  /** A completion that moves on changes nothing about what has been issued. */
  lemma WorkKeepsIssue(r: Request, s: State, s2: State, j: Job, pc: Pc)
    requires IssueInv(r, s) && j in s.workers && s.workers[j].pc != Finished
    requires s2.workers == s.workers[j := Worker(pc, s.workers[j].rpc)]
    requires s2.issued == s.issued && s2.phase == s.phase && s2.inline == s.inline && s2.flight == s.flight
    requires s2.itemSpent == s.itemSpent || s2.itemSpent == s.itemSpent + {j}
    ensures IssueInv(r, s2)
  {
    assert s2.workers.Keys == s.workers.Keys;
  }

  // ------------------------------------------------------------------ the completions

  /** A new completion of a job that had none. */
  lemma NewWorker(r: Request, s: State, s2: State, j: Job, w: Worker)
    requires IssueInv(r, s) && WorkerInv(r, s) && FetchInv(r, s)
    requires IsJob(r, j) && j !in s.workers
    requires s2.workers == s.workers[j := w] && s2.itemSpent == s.itemSpent && s2.condSpent == s.condSpent
    requires s2.closer == s.closer && s2.last == s.last
    requires w.rpc ==> r.batches[j.0] > 0 && s2.inline == s.inline
    requires !w.rpc ==> s2.inline == Some(j) && Free(s)
    requires w.pc == if r.batches[j.0] > 0 then AtItem else AtCond
    ensures WorkerInv(r, s2)
  {
    if r.batches[j.0] == 0 {
      assert FetchOk(r, s, j.0);
      assert j == (j.0, 0);
    }
    forall k | k in s2.workers ensures IsJob(r, k) && WorkerOk(r, s2, k) {
      if k != j {
        assert WorkerOk(r, s, k);
      }
    }
  }

  /** Frame: a completion that another one's step does not concern. */
  lemma OtherWorker(r: Request, s: State, s2: State, k: Job)
    requires k in s.workers && IsJob(r, k) && WorkerOk(r, s, k)
    requires k in s2.workers && s2.workers[k] == s.workers[k] && s2.inline == s.inline
    requires s.itemSpent <= s2.itemSpent && (k in s2.itemSpent ==> k in s.itemSpent)
    requires s.workers[k].pc == AtCond && k.0 in s2.condSpent ==> k.0 in s.condSpent
    requires s.workers[k].pc == AtCond && k.0 in s.closer ==> k.0 in s2.closer && s2.closer[k.0] == s.closer[k.0]
    requires s2.last == s.last || s.last.None?
    ensures WorkerOk(r, s2, k)
  {
  }

  /** What a decrement of an inner countdown does, apart from the counter. */
  predicate ItemMove(s: State, s2: State, j: Job) {
    && j in s.workers && j in s2.workers && s2.workers == s.workers[j := s2.workers[j]]
    && s2.workers[j].rpc == s.workers[j].rpc
    && s2.itemSpent == s.itemSpent + {j} && s2.condSpent == s.condSpent && s2.last == s.last
    && s2.issued == s.issued && s2.inline == s.inline && j.0 < |s.item|
    && if s.item[j.0] == 1 then s2.workers[j].pc == AtCond && s2.closer == s.closer[j.0 := j]
       else s2.workers[j].pc == Finished && s2.closer == s.closer
  }

  lemma SpendItemMoves(s: State, j: Job)
    requires j in s.workers && j.0 < |s.item|
    ensures ItemMove(s, SpendItem(s, j), j)
  {
  }

  lemma SpentItemWorker(r: Request, s: State, s2: State, j: Job)
    requires ItemMove(s, s2, j) && IsJob(r, j)
    requires WorkerOk(r, s, j) && FetchOk(r, s, j.0) && s.workers[j].pc == AtItem
    requires s.item[j.0] == 1 <==> Batches(r, j.0) <= s.itemSpent + {j}
    ensures WorkerOk(r, s2, j)
  {
    assert j in Batches(r, j.0);
    assert j.0 !in s.condSpent;
  }

  lemma SpentItemOther(r: Request, s: State, s2: State, j: Job, k: Job)
    requires ItemMove(s, s2, j) && k in s.workers && IsJob(r, j) && IsJob(r, k) && k != j
    requires WorkerOk(r, s, j) && WorkerOk(r, s, k) && s.workers[j].pc == AtItem
    ensures WorkerOk(r, s2, k)
  {
    assert k.0 == j.0 ==> j in Batches(r, k.0);
    OtherWorker(r, s, s2, k);
  }

  lemma SpendItemKeepsWorkers(r: Request, s: State, j: Job)
    requires CountInv(r, s) && WorkerInv(r, s) && FetchInv(r, s) && CanWork(s, j) && s.workers[j].pc == AtItem
    ensures WorkerInv(r, SpendItem(s, j))
  {
    assert WorkerOk(r, s, j) && FetchOk(r, s, j.0) && IsJob(r, j);
    SpendItemKeepsCount(r, s, j);
    SpendItemMoves(s, j);
    forall k | k in s.workers ensures WorkerOk(r, SpendItem(s, j), k) {
      assert WorkerOk(r, s, k) && IsJob(r, k);
      if k == j {
        SpentItemWorker(r, s, SpendItem(s, j), j);
      } else {
        SpentItemOther(r, s, SpendItem(s, j), j, k);
      }
    }
  }

  /** What a decrement of the outer countdown does, apart from the counter. */
  predicate CondMove(s: State, s2: State, j: Job) {
    && j in s.workers && j in s2.workers && s2.workers == s.workers[j := s2.workers[j]]
    && s2.workers[j].rpc == s.workers[j].rpc
    && s2.condSpent == s.condSpent + {j.0} && s2.itemSpent == s.itemSpent && s2.closer == s.closer
    && s2.issued == s.issued && s2.inline == s.inline
    && if s.cond == 1 then s2.workers[j].pc == AtMerge && s2.last == Some(j) else s2.workers[j].pc == Finished && s2.last == s.last
  }

  lemma SpendCondMoves(s: State, j: Job)
    requires j in s.workers
    ensures CondMove(s, SpendCond(s, j), j)
  {
  }

  lemma SpentCondWorker(r: Request, s: State, s2: State, j: Job)
    requires CondMove(s, s2, j) && IsJob(r, j) && WorkerOk(r, s, j) && s.workers[j].pc == AtCond
    ensures WorkerOk(r, s2, j)
  {
  }

  lemma SpentCondOther(r: Request, s: State, s2: State, j: Job, k: Job)
    requires CondMove(s, s2, j) && k in s.workers && IsJob(r, j) && IsJob(r, k) && k != j
    requires WorkerOk(r, s, j) && WorkerOk(r, s, k)
    requires s.workers[j].pc == AtCond && (s.cond == 1 ==> s.last.None?)
    ensures WorkerOk(r, s2, k)
  {
    OtherWorker(r, s, s2, k);
  }

  lemma SpendCondKeepsWorkers(r: Request, s: State, j: Job)
    requires CountInv(r, s) && WorkerInv(r, s) && LastInv(r, s) && CanWork(s, j) && s.workers[j].pc == AtCond
    ensures WorkerInv(r, SpendCond(s, j))
  {
    assert WorkerOk(r, s, j) && IsJob(r, j);
    assert j.0 in Fetches(r);
    SpendCondMoves(s, j);
    forall k | k in s.workers ensures WorkerOk(r, SpendCond(s, j), k) {
      assert WorkerOk(r, s, k) && IsJob(r, k);
      if k == j {
        SpentCondWorker(r, s, SpendCond(s, j), j);
      } else {
        SpentCondOther(r, s, SpendCond(s, j), j, k);
      }
    }
  }

  /** A completion that moves on past its two decrements. */
  lemma FinishingKeepsWorkers(r: Request, s: State, s2: State, j: Job, pc: Pc)
    requires WorkerInv(r, s) && j in s.workers && Finishing(s.workers[j].pc)
    requires Finishing(pc) || pc == Finished
    requires s2.workers == s.workers[j := Worker(pc, s.workers[j].rpc)]
    requires s2.inline == s.inline && s2.itemSpent == s.itemSpent && s2.condSpent == s.condSpent
    requires s2.closer == s.closer && s2.last == s.last
    ensures WorkerInv(r, s2)
  {
    assert IsJob(r, j) && WorkerOk(r, s, j);
    forall k | k in s2.workers ensures WorkerOk(r, s2, k) {
      assert WorkerOk(r, s, k);
      if k != j {
        OtherWorker(r, s, s2, k);
      }
    }
  }

  // ------------------------------------------------------------------ the fetches

  ghost predicate StaysAtCond(s: State, s2: State, k: Job) {
    k in s.workers ==> k in s2.workers && (s.workers[k].pc == AtCond ==> s2.workers[k].pc == AtCond)
  }

  /** Frame: a fetch that another one's step does not concern. */
  lemma OtherFetch(r: Request, s: State, s2: State, f: nat)
    requires f < |r.batches| && FetchOk(r, s, f)
    requires f in s2.condSpent <==> f in s.condSpent
    requires f in s2.closer <==> f in s.closer
    requires f in s.closer ==> s2.closer[f] == s.closer[f] && (s.closer[f].0 == f ==> StaysAtCond(s, s2, s.closer[f]))
    requires s.itemSpent <= s2.itemSpent && (Batches(r, f) <= s2.itemSpent ==> Batches(r, f) <= s.itemSpent)
    requires StaysAtCond(s, s2, (f, 0))
    requires (f, 0) in s2.issued && r.batches[f] == 0 && (f, 0) !in s.issued ==> (f, 0) in s2.workers && s2.workers[(f, 0)].pc == AtCond
    ensures FetchOk(r, s2, f)
  {
  }

  /** Steps that spend nothing keep every fetch: the issue of a job, the arrival of a callback, and the end of a
      request. */
  lemma SameFetches(r: Request, s: State, s2: State, j: Job)
    requires FetchInv(r, s)
    requires s2.condSpent == s.condSpent && s2.closer == s.closer && s2.itemSpent == s.itemSpent
    requires s2.issued == s.issued || s2.issued == s.issued + {j}
    requires s2.workers == s.workers || (j in s2.workers && s2.workers == s.workers[j := s2.workers[j]])
    requires j in s.workers && s2.workers != s.workers ==> s.workers[j].pc != AtCond
    requires j !in s.issued && j in s2.issued && j.0 < |r.batches| && r.batches[j.0] == 0 ==> j in s2.workers && s2.workers[j].pc == AtCond
    ensures FetchInv(r, s2)
  {
    forall f: nat | f < |r.batches| ensures FetchOk(r, s2, f) {
      assert FetchOk(r, s, f);
      OtherFetch(r, s, s2, f);
    }
  }

  lemma SpentItemFetch(r: Request, s: State, s2: State, j: Job)
    requires ItemMove(s, s2, j) && IsJob(r, j)
    requires WorkerOk(r, s, j) && FetchOk(r, s, j.0) && s.workers[j].pc == AtItem
    requires s.item[j.0] == 1 <==> Batches(r, j.0) <= s.itemSpent + {j}
    ensures FetchOk(r, s2, j.0)
  {
    assert j in Batches(r, j.0);
  }

  lemma SpentItemOtherFetch(r: Request, s: State, s2: State, j: Job, f: nat)
    requires ItemMove(s, s2, j) && IsJob(r, j) && s.workers[j].pc == AtItem
    requires f < |r.batches| && f != j.0 && FetchOk(r, s, f)
    ensures FetchOk(r, s2, f)
  {
    OtherFetch(r, s, s2, f);
  }

  lemma SpendItemKeepsFetches(r: Request, s: State, j: Job)
    requires CountInv(r, s) && WorkerInv(r, s) && FetchInv(r, s) && CanWork(s, j) && s.workers[j].pc == AtItem
    ensures FetchInv(r, SpendItem(s, j))
  {
    assert WorkerOk(r, s, j) && IsJob(r, j);
    SpendItemKeepsCount(r, s, j);
    SpendItemMoves(s, j);
    forall f: nat | f < |r.batches| ensures FetchOk(r, SpendItem(s, j), f) {
      assert FetchOk(r, s, f);
      if f == j.0 {
        SpentItemFetch(r, s, SpendItem(s, j), j);
      } else {
        SpentItemOtherFetch(r, s, SpendItem(s, j), j, f);
      }
    }
  }

  lemma SpentCondFetch(r: Request, s: State, s2: State, j: Job)
    requires CondMove(s, s2, j) && IsJob(r, j) && WorkerOk(r, s, j) && FetchOk(r, s, j.0) && s.workers[j].pc == AtCond
    ensures FetchOk(r, s2, j.0)
  {
  }

  lemma SpentCondOtherFetch(r: Request, s: State, s2: State, j: Job, f: nat)
    requires CondMove(s, s2, j) && f < |r.batches| && f != j.0 && FetchOk(r, s, f)
    ensures FetchOk(r, s2, f)
  {
    OtherFetch(r, s, s2, f);
  }

  lemma SpendCondKeepsFetches(r: Request, s: State, j: Job)
    requires WorkerInv(r, s) && FetchInv(r, s) && j in s.workers && s.workers[j].pc == AtCond
    ensures FetchInv(r, SpendCond(s, j))
  {
    assert WorkerOk(r, s, j) && IsJob(r, j);
    SpendCondMoves(s, j);
    forall f: nat | f < |r.batches| ensures FetchOk(r, SpendCond(s, j), f) {
      assert FetchOk(r, s, f);
      if f == j.0 {
        SpentCondFetch(r, s, SpendCond(s, j), j);
      } else {
        SpentCondOtherFetch(r, s, SpendCond(s, j), j, f);
      }
    }
  }

  // ------------------------------------------------------------------ the completion of the request

  /** Steps before the last decrement, and those of the issuing thread. */
  lemma SameLast(r: Request, s: State, s2: State)
    requires LastInv(r, s)
    requires s2.condSpent == s.condSpent && s2.last == s.last
    requires s2.done.merged == s.done.merged && s2.done.processed == s.done.processed && s2.done.notified == s.done.notified
    requires s.promiseSet ==> s2.promiseSet
    requires s.last.Some? ==> s.last.value in s2.workers && s2.workers[s.last.value] == s.workers[s.last.value]
    ensures LastInv(r, s2) && LastPc(s2) == LastPc(s)
  {
  }

  lemma SpendCondKeepsLast(r: Request, s: State, j: Job)
    requires CountInv(r, s) && WorkerInv(r, s) && LastInv(r, s) && CanWork(s, j) && s.workers[j].pc == AtCond
    ensures LastInv(r, SpendCond(s, j))
    ensures s.last.None?
  {
    assert WorkerOk(r, s, j) && IsJob(r, j);
    assert j.0 in Fetches(r);
    SpendCondKeepsCount(r, s, j);
  }

  lemma FinishingKeepsLast(r: Request, s: State, j: Job)
    requires LastInv(r, s) && CanWork(s, j) && Finishing(s.workers[j].pc) && s.last == Some(j)
    ensures LastInv(r, Finish(r, s, j))
  {
  }

  // ------------------------------------------------------------------ the promise

  /** Steps that touch neither the cached data nor the last completion, and do not end the loop. */
  lemma SameCache(r: Request, s: State, s2: State)
    requires CacheInv(r, s) && LastPc(s2) == LastPc(s)
    requires s2.cacheFull == s.cacheFull && s2.promiseSet == s.promiseSet && s2.done.parsed == s.done.parsed && s2.done.sets == s.done.sets
    requires s2.phase == s.phase || (s.phase.Issuing? && s2.phase.Issuing?)
    ensures CacheInv(r, s2)
  {
  }

  lemma LoopEndKeepsCache(r: Request, s: State)
    requires CacheInv(r, s) && Step(r, s, LoopEnd).Some?
    requires s.last.Some? ==> IsJob(r, s.last.value) && s.last.value in s.workers && WorkerOk(r, s, s.last.value)
    ensures CacheInv(r, Step(r, s, LoopEnd).value)
  {
  }

  lemma TailKeepsCache(r: Request, s: State)
    requires CacheInv(r, s) && Step(r, s, Tail).Some?
    ensures CacheInv(r, Step(r, s, Tail).value)
  {
  }

  lemma SpendCondKeepsCache(r: Request, s: State, j: Job)
    requires CacheInv(r, s) && j in s.workers && s.workers[j].pc == AtCond && s.last.None?
    ensures CacheInv(r, SpendCond(s, j))
  {
  }

  lemma FinishingKeepsCache(r: Request, s: State, j: Job)
    requires CacheInv(r, s) && CanWork(s, j) && Finishing(s.workers[j].pc) && s.last == Some(j)
    requires !s.workers[j].rpc ==> s.phase.Issuing?
    ensures CacheInv(r, Finish(r, s, j))
  {
  }

  // ------------------------------------------------------------------ every step

  /** What issuing a job leaves alone. */
  lemma IssueFrame(r: Request, s: State, ok: bool)
    requires CanIssue(r, s)
    ensures var s2 := IssueNext(r, s, ok);
            var j := (s.phase.fetch, s.phase.batch);
      && s2.item == s.item && s2.itemSpent == s.itemSpent && s2.cond == s.cond && s2.condSpent == s.condSpent
      && s2.closer == s.closer && s2.last == s.last && s2.issued == s.issued + {j} && s2.phase.Issuing?
      && s2.cacheFull == s.cacheFull && s2.promiseSet == s.promiseSet && s2.done == s.done
      && s2.filled == s.filled && s2.crashed == s.crashed && s2.phase == Next(r, s.phase)
      && if r.batches[j.0] > 0 && ok then s2.workers == s.workers && s2.inline == s.inline && s2.flight == s.flight + {j}
         else s2.inline == Some(j) && s2.flight == s.flight && s2.workers == s.workers[j := Worker(if r.batches[j.0] > 0 then AtItem else AtCond, false)]
  {
  }

  lemma IssueKeepsWorkers(r: Request, s: State, ok: bool)
    requires IssueInv(r, s) && WorkerInv(r, s) && FetchInv(r, s) && CanIssue(r, s)
    ensures WorkerInv(r, IssueNext(r, s, ok)) && FetchInv(r, IssueNext(r, s, ok))
  {
    var s2 := IssueNext(r, s, ok);
    var j := (s.phase.fetch, s.phase.batch);
    NextIssued(r, s.issued, s.phase);
    IssueFrame(r, s, ok);
    if r.batches[j.0] > 0 && ok {
      SameWorkers(r, s, s2);
    } else {
      NewWorker(r, s, s2, j, s2.workers[j]);
    }
    SameFetches(r, s, s2, j);
  }

  lemma IssueKeepsRest(r: Request, s: State, ok: bool)
    requires CountInv(r, s) && LastInv(r, s) && CacheInv(r, s) && CanIssue(r, s)
    requires (s.phase.fetch, s.phase.batch) !in s.workers
    ensures CountInv(r, IssueNext(r, s, ok)) && LastInv(r, IssueNext(r, s, ok)) && CacheInv(r, IssueNext(r, s, ok))
  {
    var s2 := IssueNext(r, s, ok);
    IssueFrame(r, s, ok);
    SameCount(r, s, s2);
    SameLast(r, s, s2);
    SameCache(r, s, s2);
  }

  lemma IssueKeepsInv(r: Request, s: State, ok: bool)
    requires ProtocolInv(r, s) && CanIssue(r, s)
    ensures ProtocolInv(r, IssueNext(r, s, ok))
  {
    IssueKeepsIssue(r, s, ok);
    IssueKeepsWorkers(r, s, ok);
    IssueKeepsRest(r, s, ok);
  }

  lemma SameWorkers(r: Request, s: State, s2: State)
    requires WorkerInv(r, s) && s2.workers == s.workers && s2.inline == s.inline
    requires s2.itemSpent == s.itemSpent && s2.condSpent == s.condSpent && s2.closer == s.closer && s2.last == s.last
    ensures WorkerInv(r, s2)
  {
    forall k | k in s2.workers ensures WorkerOk(r, s2, k) {
      assert WorkerOk(r, s, k);
    }
  }

  lemma ArriveKeepsInv(r: Request, s: State, j: Job)
    requires ProtocolInv(r, s) && !s.crashed && j in s.flight
    ensures ProtocolInv(r, CallBack(s, j))
  {
    var s2 := CallBack(s, j);
    assert j in s.issued;
    ArriveKeepsIssue(r, s, j);
    SameCount(r, s, s2);
    NewWorker(r, s, s2, j, Worker(AtItem, true));
    SameFetches(r, s, s2, j);
    SameLast(r, s, s2);
    SameCache(r, s, s2);
  }

  /** The end of the loop and the handling of the cached data. */
  lemma IssuerKeepsInv(r: Request, s: State, a: Action)
    requires ProtocolInv(r, s) && (a == LoopEnd || a == Tail) && Step(r, s, a).Some?
    ensures ProtocolInv(r, Step(r, s, a).value)
  {
    var s2 := Step(r, s, a).value;
    SameCount(r, s, s2);
    SameWorkers(r, s, s2);
    SameFetches(r, s, s2, (0, 0));
    SameLast(r, s, s2);
    if s.last.Some? {
      assert IsJob(r, s.last.value) && WorkerOk(r, s, s.last.value);
    }
    if a == LoopEnd {
      LoopEndKeepsCache(r, s);
      LoopEndKeepsIssue(r, s);
    } else {
      TailKeepsCache(r, s);
    }
  }

  lemma LoopEndKeepsIssue(r: Request, s: State)
    requires IssueInv(r, s) && Step(r, s, LoopEnd).Some?
    ensures IssueInv(r, Step(r, s, LoopEnd).value)
  {
    var s2 := Step(r, s, LoopEnd).value;
    forall k ensures k in s2.issued <==> IsJob(r, k) && Before(k, s2.phase) {
      assert k in s.issued <==> IsJob(r, k) && Before(k, s.phase);
    }
  }

  /** What a decrement of the inner countdown leaves alone. */
  lemma SpendItemFrame(s: State, j: Job)
    requires j in s.workers && j.0 < |s.item|
    ensures var s2 := SpendItem(s, j);
      && s2.condSpent == s.condSpent && s2.last == s.last && s2.done == s.done && s2.phase == s.phase
      && s2.cacheFull == s.cacheFull && s2.promiseSet == s.promiseSet && j in s2.workers
      && s2.workers == s.workers[j := s2.workers[j]]
  {
  }

  lemma SpendItemKeepsRest(r: Request, s: State, j: Job)
    requires LastInv(r, s) && CacheInv(r, s) && j in s.workers && j.0 < |s.item| && s.last != Some(j)
    ensures LastInv(r, SpendItem(s, j)) && CacheInv(r, SpendItem(s, j))
  {
    var s2 := SpendItem(s, j);
    SpendItemFrame(s, j);
    SameLast(r, s, s2);
    SameCache(r, s, s2);
  }

  lemma SpendItemKeepsInv(r: Request, s: State, j: Job)
    requires ProtocolInv(r, s) && CanWork(s, j) && s.workers[j].pc == AtItem
    ensures ProtocolInv(r, SpendItem(s, j))
  {
    var s2 := SpendItem(s, j);
    assert WorkerOk(r, s, j) && IsJob(r, j);
    SpendItemKeepsCount(r, s, j);
    SpendItemKeepsWorkers(r, s, j);
    SpendItemKeepsFetches(r, s, j);
    WorkKeepsIssue(r, s, s2, j, s2.workers[j].pc);
    SpendItemKeepsRest(r, s, j);
  }

  lemma SpendCondKeepsInv(r: Request, s: State, j: Job)
    requires ProtocolInv(r, s) && CanWork(s, j) && s.workers[j].pc == AtCond
    ensures ProtocolInv(r, SpendCond(s, j))
  {
    var s2 := SpendCond(s, j);
    assert WorkerOk(r, s, j) && IsJob(r, j);
    SpendCondKeepsCount(r, s, j);
    SpendCondKeepsWorkers(r, s, j);
    SpendCondKeepsFetches(r, s, j);
    SpendCondKeepsLast(r, s, j);
    SpendCondKeepsCache(r, s, j);
    WorkKeepsIssue(r, s, s2, j, s2.workers[j].pc);
  }

  lemma FinishingKeepsTokens(r: Request, s: State, j: Job)
    requires ProtocolInv(r, s) && CanWork(s, j) && Finishing(s.workers[j].pc)
    ensures var s2 := Finish(r, s, j);
            CountInv(r, s2) && IssueInv(r, s2) && WorkerInv(r, s2) && FetchInv(r, s2)
  {
    var s2 := Finish(r, s, j);
    assert WorkerOk(r, s, j);
    FinishingFrame(r, s, j);
    SameCount(r, s, s2);
    FinishingKeepsWorkers(r, s, s2, j, s2.workers[j].pc);
    WorkKeepsIssue(r, s, s2, j, s2.workers[j].pc);
    SameFetches(r, s, s2, j);
  }

  lemma FinishingKeepsInv(r: Request, s: State, j: Job)
    requires ProtocolInv(r, s) && CanWork(s, j) && Finishing(s.workers[j].pc)
    ensures ProtocolInv(r, Finish(r, s, j))
  {
    assert WorkerOk(r, s, j);
    FinishingKeepsTokens(r, s, j);
    FinishingKeepsLast(r, s, j);
    FinishingKeepsCache(r, s, j);
  }

  lemma EffectFrame(s: State, pc: Pc)
    ensures var s2 := Effect(s, pc);
      && s2.workers == s.workers
      && s2.item == s.item && s2.itemSpent == s.itemSpent && s2.cond == s.cond && s2.condSpent == s.condSpent
      && s2.issued == s.issued && s2.phase == s.phase && s2.inline == s.inline && s2.flight == s.flight
      && s2.closer == s.closer && s2.last == s.last
  {
  }

  /** What the end of a request leaves alone. */
  lemma FinishingFrame(r: Request, s: State, j: Job)
    requires CanWork(s, j) && Finishing(s.workers[j].pc)
    ensures var s2 := Finish(r, s, j);
      && j in s2.workers && (Finishing(s2.workers[j].pc) || s2.workers[j].pc == Finished)
      && s2.workers == s.workers[j := Worker(s2.workers[j].pc, s.workers[j].rpc)]
      && s2.item == s.item && s2.itemSpent == s.itemSpent && s2.cond == s.cond && s2.condSpent == s.condSpent
      && s2.issued == s.issued && s2.phase == s.phase && s2.inline == s.inline && s2.flight == s.flight
      && s2.closer == s.closer && s2.last == s.last
  {
    EffectFrame(SetPc(s, j, NextPc(r, s.workers[j])), s.workers[j].pc);
  }

  /** A crash changes nothing else. */
  lemma CrashKeepsInv(r: Request, s: State)
    requires ProtocolInv(r, s)
    ensures ProtocolInv(r, s.(crashed := true))
  {
    var s2 := s.(crashed := true);
    SameCount(r, s, s2);
    SameWorkers(r, s, s2);
    SameFetches(r, s, s2, (0, 0));
    SameLast(r, s, s2);
    SameCache(r, s, s2);
  }

  lemma StepKeepsProtocol(r: Request, s: State, a: Action)
    requires ProtocolInv(r, s) && Step(r, s, a).Some?
    ensures ProtocolInv(r, Step(r, s, a).value)
  {
    match a
    case Issue(ok) => IssueKeepsInv(r, s, ok);
    case LoopEnd => IssuerKeepsInv(r, s, a);
    case Tail => IssuerKeepsInv(r, s, a);
    case Arrive(j) => ArriveKeepsInv(r, s, j);
    case Work(j) =>
      if s.workers[j].pc == AtItem {
        SpendItemKeepsInv(r, s, j);
      } else if s.workers[j].pc == AtCond {
        SpendCondKeepsInv(r, s, j);
      } else if s.workers[j].pc == AtMerge && !CellsFilled(r, s) {
        CrashKeepsInv(r, s);
      } else {
        FinishingKeepsInv(r, s, j);
      }
  }

  // ------------------------------------------------------------------ the result cells

  /** Steps that neither call back nor merge: no worker changes its kind, and new ones are not callbacks. */
  lemma SameCells(r: Request, s: State, s2: State)
    requires CellInv(r, s) && !s.crashed && !s2.crashed && s2.filled == s.filled
    requires s2.done.merged == s.done.merged || CellsFilled(r, s)
    requires forall k {:trigger k in s2.workers} :: (k in s2.workers && s2.workers[k].rpc) <==> (k in s.workers && s.workers[k].rpc)
    ensures CellInv(r, s2)
  {
  }

  lemma ArriveKeepsCells(r: Request, s: State, j: Job)
    requires CellInv(r, s) && !s.crashed && j !in s.workers
    ensures CellInv(r, CallBack(s, j))
  {
  }

  /** A completion that goes on stays on the issuing thread or in its callback. */
  lemma WorkersKeepKind(r: Request, s: State, j: Job)
    requires CanWork(s, j)
    ensures var s2 := Advance(r, s, j);
            j in s2.workers && s2.workers == s.workers[j := s2.workers[j]] && s2.workers[j].rpc == s.workers[j].rpc
  {
    match s.workers[j].pc
    case AtItem => SpendItemMoves(s, j);
    case AtCond => SpendCondMoves(s, j);
    case _ => FinishingFrame(r, s, j);
  }

  lemma SpendItemCells(s: State, j: Job)
    requires j in s.workers && j.0 < |s.item|
    ensures SpendItem(s, j).filled == s.filled && SpendItem(s, j).crashed == s.crashed && SpendItem(s, j).done == s.done
  {
  }

  lemma SpendCondCells(s: State, j: Job)
    requires j in s.workers
    ensures SpendCond(s, j).filled == s.filled && SpendCond(s, j).crashed == s.crashed && SpendCond(s, j).done == s.done
  {
  }

  lemma WorkKeepsCells(r: Request, s: State, j: Job)
    requires CellInv(r, s) && !s.crashed && CanWork(s, j)
    requires Finishing(s.workers[j].pc) ==> s.last == Some(j)
    ensures CellInv(r, Advance(r, s, j))
  {
    if s.workers[j].pc != AtMerge || CellsFilled(r, s) {
      WorkersKeepKind(r, s, j);
      match s.workers[j].pc {
        case AtItem => SpendItemCells(s, j);
        case AtCond => SpendCondCells(s, j);
        case _ => FinishingCells(r, s, j);
      }
      SameCells(r, s, Advance(r, s, j));
    }
  }

  lemma FinishingCells(r: Request, s: State, j: Job)
    requires CanWork(s, j) && Finishing(s.workers[j].pc)
    ensures var s2 := Finish(r, s, j);
            s2.filled == s.filled && s2.crashed == s.crashed && (s2.done.merged == s.done.merged || s.workers[j].pc == AtMerge)
  {
  }

  lemma StepKeepsCells(r: Request, s: State, a: Action)
    requires ProtocolInv(r, s) && CellInv(r, s) && Step(r, s, a).Some?
    ensures CellInv(r, Step(r, s, a).value)
  {
    match a
    case Issue(ok) =>
      NextIssued(r, s.issued, s.phase);
      IssueKeepsCells(r, s, ok);
    case LoopEnd => SameCells(r, s, Step(r, s, a).value);
    case Tail => SameCells(r, s, Step(r, s, a).value);
    case Arrive(j) => ArriveKeepsCells(r, s, j);
    case Work(j) =>
      assert WorkerOk(r, s, j);
      WorkKeepsCells(r, s, j);
  }

  lemma IssueKeepsCells(r: Request, s: State, ok: bool)
    requires CellInv(r, s) && !s.crashed && CanIssue(r, s) && (s.phase.fetch, s.phase.batch) !in s.workers
    ensures CellInv(r, IssueNext(r, s, ok))
  {
    SameCells(r, s, IssueNext(r, s, ok));
  }

  lemma StepKeepsInv(r: Request, s: State, a: Action)
    requires Inv(r, s) && Step(r, s, a).Some?
    ensures Inv(r, Step(r, s, a).value)
  {
    StepKeepsProtocol(r, s, a);
    StepKeepsCells(r, s, a);
  }

  /** Every reachable state satisfies the invariant. */
  lemma {:induction false} Safety(r: Request, acts: seq<Action>)
    requires |r.batches| >= 1 && Exec(r, acts).Some?
    ensures Inv(r, Exec(r, acts).value)
  {
    if acts == [] {
      InitInv(r);
    } else {
      var before := acts[..|acts| - 1];
      Safety(r, before);
      StepKeepsInv(r, Exec(r, before).value, acts[|acts| - 1]);
    }
  }
}
