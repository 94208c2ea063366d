/** One call of `RedisService::do_service` as a step machine: the issuing thread, the callbacks, the two nested
    countdowns and the promise that orders the cached data before the response. */
module RedisRequest {
  import Countdown
  import opened Options

  /** `batches[f]` is how many sends fetch f makes, none when its client is unknown or it has no keys; `cached` says
      whether the cache had data for the request. */
  datatype Request = Request(batches: seq<nat>, cached: bool)

  /** A batch of a fetch; (f, 0) also stands for the completion of a fetch that sends nothing. */
  type Job = (nat, nat)

  /** Where the execution of a completion lambda stands. */
  datatype Pc = AtItem | AtCond | AtMerge | AtParse | AtSet | AtWait | AtProcess | AtNotify | Finished

  /** A running completion: `rpc` is the lambda's argument `send_rpc`, true in a callback and false on the issuing
      thread. */
  datatype Worker = Worker(pc: Pc, rpc: bool)

  /** The issuing thread: about to deal with a batch of a fetch, or handling the cached data after its loop. */
  datatype Phase = Issuing(fetch: nat, batch: nat) | TailParse | TailSet | Returned

  /** How often the results were merged, the cached data parsed, the promise set, the response processed and the
      out-nodes notified. */
  datatype Effects = Effects(merged: nat, parsed: nat, sets: nat, processed: nat, notified: nat)

  /** `cond` and `item` are the two countdowns, `inline` the completion that the issuing thread ran last, `flight`
      the batches sent and not yet called back, `cacheFull` whether `cache_data_vec` holds data, `filled` the result
      cells whose `fetch_info_ptr` a callback has set, and `crashed` whether the process is gone.  The rest is history:
      jobs issued, tokens spent, the job that closed each fetch and the one that closed the request, and how often each
      effect has happened. */
  datatype State = State(
    cond: int,
    item: seq<int>,
    phase: Phase,
    inline: Option<Job>,
    workers: map<Job, Worker>,
    flight: set<Job>,
    cacheFull: bool,
    promiseSet: bool,
    filled: set<Job>,
    crashed: bool,
    issued: set<Job>,
    itemSpent: set<Job>,
    condSpent: set<nat>,
    closer: map<nat, Job>,
    last: Option<Job>,
    done: Effects)

  datatype Action = Issue(ok: bool) | LoopEnd | Tail | Arrive(job: Job) | Work(job: Job)

  function Init(r: Request): State {
    State(|r.batches|, r.batches, Issuing(0, 0), None, map[], {}, r.cached, false, {}, false, {}, {}, {}, map[], None, Effects(0, 0, 0, 0, 0))
  }

  /** The issuing thread is not inside a completion lambda. */
  predicate Free(s: State) {
    s.inline.Some? && s.inline.value in s.workers ==> s.workers[s.inline.value].pc == Finished
  }

  /** Nothing happens after a crash. */
  function Step(r: Request, s: State, a: Action): Option<State> {
    if s.crashed then None
    else
      match a
      case Issue(ok) => if CanIssue(r, s) then Some(IssueNext(r, s, ok)) else None
      case LoopEnd =>
        if s.phase.Issuing? && s.phase.fetch >= |r.batches| && Free(s) then
          Some(s.(phase := if s.cacheFull then TailParse else Returned))
        else None
      case Tail =>
        if s.phase == TailParse then Some(Parse(s).(phase := TailSet))
        else if s.phase == TailSet then Some(SetPromise(s).(phase := Returned))
        else None
      case Arrive(j) => if j in s.flight then Some(CallBack(s, j)) else None
      case Work(j) => if CanWork(s, j) then Some(Advance(r, s, j)) else None
  }

  /** A callback fills its result cell and then starts on its completion. */
  function CallBack(s: State, j: Job): State {
    s.(flight := s.flight - {j}, filled := s.filled + {j}, workers := s.workers[j := Worker(AtItem, true)])
  }

  predicate CanIssue(r: Request, s: State) {
    s.phase.Issuing? && s.phase.fetch < |r.batches| && Free(s)
  }

  /** Lines 177-325: a fetch that sends nothing completes at once; a send that fails completes its batch at once; any
      other send will be called back. */
  function IssueNext(r: Request, s: State, ok: bool): State
    requires CanIssue(r, s)
  {
    var f, b := s.phase.fetch, s.phase.batch;
    var s1 := s.(issued := s.issued + {(f, b)}, phase := Next(r, s.phase));
    if r.batches[f] == 0 then s1.(inline := Some((f, b)), workers := s.workers[(f, b) := Worker(AtCond, false)])
    else if ok then s1.(flight := s.flight + {(f, b)})
    else s1.(inline := Some((f, b)), workers := s.workers[(f, b) := Worker(AtItem, false)])
  }

  /** `parse_cached_data` up to the clearing of the vector. */
  function Parse(s: State): State {
    s.(done := s.done.(parsed := s.done.parsed + 1), cacheFull := false)
  }

  /** A call of `set_value`; a second one would throw, and the exception be swallowed. */
  function SetPromise(s: State): State {
    s.(done := s.done.(sets := s.done.sets + 1), promiseSet := true)
  }

  /** A completion can go on unless it has finished or waits for a promise that is not set. */
  predicate CanWork(s: State, j: Job) {
    && j in s.workers && j.0 < |s.item|
    && s.workers[j].pc != Finished
    && (s.workers[j].pc == AtWait ==> s.promiseSet)
  }

  function SetPc(s: State, j: Job, pc: Pc): State
    requires j in s.workers
  {
    s.(workers := s.workers[j := s.workers[j].(pc := pc)])
  }

  /** The next atomic action of a completion lambda, lines 148-176 and 224-257. */
  function Advance(r: Request, s: State, j: Job): State
    requires CanWork(s, j)
  {
    match s.workers[j].pc
    case AtItem => SpendItem(s, j)
    case AtCond => SpendCond(s, j)
    case AtMerge => if CellsFilled(r, s) then Finish(r, s, j) else s.(crashed := true)
    case _ => Finish(r, s, j)
  }

  /** `merge_cache_data` reads `redis_item_vec[0].fetch_info_ptr->use_cache` for every fetch that has result cells: the
      pointer is null unless the callback of the fetch's first batch has set it. */
  predicate CellsFilled(r: Request, s: State) {
    forall f: nat {:trigger (f, 0) in s.filled} :: f < |r.batches| && r.batches[f] > 0 ==> (f, 0) in s.filled
  }

  function Finish(r: Request, s: State, j: Job): State
    requires CanWork(s, j)
  {
    Effect(SetPc(s, j, NextPc(r, s.workers[j])), s.workers[j].pc)
  }

  /** The order of the effects: on the issuing thread the cached data is parsed first; a callback only waits. */
  function NextPc(r: Request, w: Worker): Pc {
    match w.pc
    case AtMerge => if !r.cached then AtProcess else if w.rpc then AtWait else AtParse
    case AtParse => AtSet
    case AtSet => AtWait
    case AtWait => AtProcess
    case AtProcess => AtNotify
    case _ => Finished
  }

  function Effect(s: State, pc: Pc): State {
    match pc
    case AtMerge => s.(done := s.done.(merged := s.done.merged + 1))
    case AtParse => Parse(s)
    case AtSet => SetPromise(s)
    case AtProcess => s.(done := s.done.(processed := s.done.processed + 1))
    case AtNotify => s.(done := s.done.(notified := s.done.notified + 1))
    case _ => s
  }

  /** `item_size_cond->fetch_sub(1)`: the one that sees 1 goes on to the outer countdown. */
  function SpendItem(s: State, j: Job): State
    requires j in s.workers && j.0 < |s.item|
  {
    var old_item_size := s.item[j.0];
    var s1 := s.(item := s.item[j.0 := old_item_size - 1], itemSpent := s.itemSpent + {j});
    if old_item_size == 1 then SetPc(s1, j, AtCond).(closer := s.closer[j.0 := j]) else SetPc(s1, j, Finished)
  }

  /** `cond->fetch_sub(1)`: the one that sees 1 completes the request. */
  function SpendCond(s: State, j: Job): State
    requires j in s.workers
  {
    var old_fetches := s.cond;
    var s1 := s.(cond := old_fetches - 1, condSpent := s.condSpent + {j.0});
    if old_fetches == 1 then SetPc(s1, j, AtMerge).(last := Some(j)) else SetPc(s1, j, Finished)
  }

  function Exec(r: Request, acts: seq<Action>): Option<State> {
    if acts == [] then Some(Init(r))
    else
      match Exec(r, acts[..|acts| - 1])
      case None => None
      case Some(s) => Step(r, s, acts[|acts| - 1])
  }

  /** The issuing thread has returned, every callback has come and every completion has finished. */
  predicate Terminal(s: State) {
    s.phase == Returned && s.flight == {} && forall j :: j in s.workers ==> s.workers[j].pc == Finished
  }

  // ------------------------------------------------------------------ the invariant

  /** The tokens of the outer countdown. */
  ghost function Fetches(r: Request): set<nat> {
    Countdown.Below(|r.batches|)
  }

  /** The tokens of the inner countdown of fetch f. */
  ghost function FirstOf(f: nat, n: nat): (js: set<Job>)
    ensures |js| == n && forall j :: j in js <==> j.0 == f && j.1 < n
  {
    if n == 0 then {} else FirstOf(f, n - 1) + {(f, n - 1)}
  }

  ghost function Batches(r: Request, f: nat): set<Job>
    requires f < |r.batches|
  {
    FirstOf(f, r.batches[f])
  }

  /** How many jobs a fetch has: its batches, or its one completion when it sends nothing. */
  function JobCount(r: Request, f: nat): nat
    requires f < |r.batches|
  {
    if r.batches[f] == 0 then 1 else r.batches[f]
  }

  predicate IsJob(r: Request, j: Job) {
    j.0 < |r.batches| && j.1 < JobCount(r, j.0)
  }

  predicate Before(j: Job, phase: Phase) {
    phase.Issuing? ==> j.0 < phase.fetch || (j.0 == phase.fetch && j.1 < phase.batch)
  }

  ghost predicate ItemOk(r: Request, s: State, f: nat)
    requires f < |r.batches| == |s.item|
  {
    s.item[f] == Countdown.Left(Batches(r, f), s.itemSpent)
  }

  ghost predicate CountInv(r: Request, s: State) {
    && |s.item| == |r.batches|
    && s.condSpent <= Fetches(r)
    && s.cond == Countdown.Left(Fetches(r), s.condSpent)
    && (forall f: nat {:trigger ItemOk(r, s, f)} :: f < |r.batches| ==> ItemOk(r, s, f))
  }

  /** The jobs issued are those before the position of the issuing thread. */
  ghost predicate IssuedUpTo(r: Request, issued: set<Job>, phase: Phase) {
    forall j {:trigger j in issued} {:trigger Before(j, phase)} :: j in issued <==> IsJob(r, j) && Before(j, phase)
  }

  /** The position after a job. */
  function Next(r: Request, phase: Phase): Phase
    requires phase.Issuing? && phase.fetch < |r.batches|
  {
    if phase.batch + 1 < r.batches[phase.fetch] then Issuing(phase.fetch, phase.batch + 1) else Issuing(phase.fetch + 1, 0)
  }

  ghost predicate IssueInv(r: Request, s: State) {
    && s.issued == s.flight + s.workers.Keys
    && s.flight !! s.workers.Keys
    && s.itemSpent <= s.workers.Keys
    && (s.phase.Issuing? ==>
          && s.phase.fetch <= |r.batches|
          && (s.phase.batch == 0 || (s.phase.fetch < |r.batches| && s.phase.batch < r.batches[s.phase.fetch])))
    && IssuedUpTo(r, s.issued, s.phase)
    && (forall j :: j in s.flight ==> j.0 < |r.batches| && r.batches[j.0] > 0)
    && (s.inline.Some? ==> s.inline.value in s.workers && !s.workers[s.inline.value].rpc)
    && (!s.phase.Issuing? ==> Free(s))
  }

  predicate Finishing(pc: Pc) {
    pc != AtItem && pc != AtCond && pc != Finished
  }

  ghost predicate WorkerOk(r: Request, s: State, j: Job)
    requires j in s.workers && j.0 < |r.batches|
  {
    var w := s.workers[j];
    && (w.pc == AtItem ==> j !in s.itemSpent && r.batches[j.0] > 0)
    && (w.pc != AtItem && r.batches[j.0] > 0 ==> j in s.itemSpent)
    && (w.pc == AtCond ==> j.0 !in s.condSpent && Batches(r, j.0) <= s.itemSpent)
    && (w.pc == AtCond && r.batches[j.0] > 0 ==> j.0 in s.closer && s.closer[j.0] == j)
    && (Finishing(w.pc) ==> s.last == Some(j))
    && (!w.rpc && w.pc != Finished ==> s.inline == Some(j))
    && (w.rpc ==> r.batches[j.0] > 0)
  }

  ghost predicate WorkerInv(r: Request, s: State) {
    && (forall j :: j in s.workers ==> IsJob(r, j))
    && (forall j {:trigger WorkerOk(r, s, j)} :: j in s.workers ==> WorkerOk(r, s, j))
  }

  /** A fetch whose batches are all spent has been counted off, or its closer is about to count it off. */
  ghost predicate FetchOk(r: Request, s: State, f: nat)
    requires f < |r.batches|
  {
    && (f in s.condSpent ==> Batches(r, f) <= s.itemSpent && (r.batches[f] == 0 ==> (f, 0) in s.workers))
    && (f in s.closer ==> Batches(r, f) <= s.itemSpent)
    && (f !in s.condSpent && r.batches[f] > 0 && Batches(r, f) <= s.itemSpent ==>
          f in s.closer && s.closer[f].0 == f && s.closer[f] in s.workers && s.workers[s.closer[f]].pc == AtCond)
    && (f !in s.condSpent && r.batches[f] == 0 && (f, 0) in s.issued ==> (f, 0) in s.workers && s.workers[(f, 0)].pc == AtCond)
  }

  ghost predicate FetchInv(r: Request, s: State) {
    forall f: nat {:trigger FetchOk(r, s, f)} :: f < |r.batches| ==> FetchOk(r, s, f)
  }

  /** The effects so far are those of the one completion that closed the request. */
  ghost predicate LastInv(r: Request, s: State) {
    && (s.last.Some? <==> s.condSpent == Fetches(r))
    && (s.last.None? ==> s.done.merged == s.done.processed == s.done.notified == 0)
    && (s.last.Some? ==>
          && s.last.value in s.workers
          && var pc := s.workers[s.last.value].pc;
             && (Finishing(pc) || pc == Finished)
             && s.done.merged == (if pc == AtMerge then 0 else 1)
             && s.done.processed == (if pc == AtNotify || pc == Finished then 1 else 0)
             && s.done.notified == (if pc == Finished then 1 else 0)
             && ((pc == AtProcess || pc == AtNotify || pc == Finished) && r.cached ==> s.promiseSet))
  }

  /** The pc of the completion that closed the request. */
  function LastPc(s: State): Option<Worker> {
    if s.last.Some? && s.last.value in s.workers then Some(s.workers[s.last.value]) else None
  }

  predicate LastAt(s: State, pc: Pc) {
    LastPc(s).Some? && LastPc(s).value.pc == pc
  }

  /** The cached data is parsed once and the promise set once, by the issuing thread: in the tail of `do_service`, or
      inside its own last completion. */
  ghost predicate CacheInv(r: Request, s: State) {
    if r.cached then
      && s.done.parsed == (if s.cacheFull then 0 else 1)
      && s.done.sets == (if s.promiseSet then 1 else 0)
      && (s.cacheFull ==> !s.promiseSet && s.phase != TailSet && s.phase != Returned && !LastAt(s, AtSet))
      && (!s.cacheFull && !s.promiseSet ==> s.phase == TailSet || LastAt(s, AtSet))
      && (LastAt(s, AtParse) ==> s.cacheFull)
      && (s.phase.Issuing? && !s.cacheFull ==> LastPc(s).Some? && !LastAt(s, AtMerge) && !LastAt(s, AtParse))
      && (LastAt(s, AtParse) || LastAt(s, AtSet) ==> !LastPc(s).value.rpc && s.phase.Issuing?)
      && (LastAt(s, AtSet) ==> !s.promiseSet)
      && (s.phase == TailParse ==> s.cacheFull)
      && (s.phase == TailSet ==> !s.promiseSet)
      && (LastAt(s, AtWait) && !LastPc(s).value.rpc ==> s.promiseSet)
    else
      && !s.cacheFull && s.done.parsed == 0 && s.done.sets == 0
      && s.phase != TailParse && s.phase != TailSet
      && !LastAt(s, AtParse) && !LastAt(s, AtSet) && !LastAt(s, AtWait)
  }

  /** A cell is filled by its callback.  The merge goes through only with all first cells filled, and the process
      crashes only there. */
  ghost predicate CellInv(r: Request, s: State) {
    && (forall j {:trigger j in s.filled} :: j in s.filled <==> j in s.workers && s.workers[j].rpc)
    && (s.done.merged >= 1 ==> CellsFilled(r, s))
    && (s.crashed ==> LastAt(s, AtMerge) && !CellsFilled(r, s))
  }

  ghost predicate ProtocolInv(r: Request, s: State) {
    CountInv(r, s) && IssueInv(r, s) && WorkerInv(r, s) && FetchInv(r, s) && LastInv(r, s) && CacheInv(r, s)
  }

  ghost predicate Inv(r: Request, s: State) {
    ProtocolInv(r, s) && CellInv(r, s)
  }

  lemma InitInv(r: Request)
    requires |r.batches| >= 1
    ensures Inv(r, Init(r))
  {
    var s := Init(r);
    forall f: nat | f < |r.batches| ensures ItemOk(r, s, f) {
      assert Batches(r, f) - {} == Batches(r, f);
    }
    forall f: nat | f < |r.batches| ensures FetchOk(r, s, f) {
      if r.batches[f] > 0 {
        assert (f, 0) in Batches(r, f);
      }
    }
    assert Fetches(r) - {} == Fetches(r);
    assert 0 in Fetches(r);
  }
}
