/** `ConcurrentService::do_service`: a bthread for each slice, and a countdown whose last decrement merges the slices
    and notifies the out-nodes. */
module ConcurrentService {
  import Countdown
  import opened Options

  datatype Pc = AtProcess | AtCount | AtMerge | AtNotify | Finished

  /** `cond` is `count_cnd`, `next` the loop variable, `workers` the slices started.  The rest is history: slices
      processed, tokens spent, the slice that spent the last one, and the effects so far. */
  datatype State = State(
    cond: int,
    next: nat,
    workers: map<nat, Pc>,
    processed: set<nat>,
    spent: set<nat>,
    last: Option<nat>,
    merged: nat,
    notified: nat)

  datatype Action = Spawn | Work(slice: nat)

  function Init(slices: nat): State {
    State(slices, 0, map[], {}, {}, None, 0, 0)
  }

  function Step(slices: nat, s: State, a: Action): Option<State> {
    match a
    case Spawn => if s.next < slices then Some(s.(next := s.next + 1, workers := s.workers[s.next := AtProcess])) else None
    case Work(i) => if i in s.workers && s.workers[i] != Finished then Some(Advance(s, i)) else None
  }

  function SetPc(s: State, i: nat, pc: Pc): State {
    s.(workers := s.workers[i := pc])
  }

  /** Lines 37-42: the decrement that sees 1 goes on to merge. */
  function Advance(s: State, i: nat): State
    requires i in s.workers
  {
    match s.workers[i]
    case AtProcess => SetPc(s, i, AtCount).(processed := s.processed + {i})
    case AtCount =>
      var old_count := s.cond;
      var s1 := s.(cond := old_count - 1, spent := s.spent + {i});
      if old_count == 1 then SetPc(s1, i, AtMerge).(last := Some(i)) else SetPc(s1, i, Finished)
    case AtMerge => SetPc(s, i, AtNotify).(merged := s.merged + 1)
    case AtNotify => SetPc(s, i, Finished).(notified := s.notified + 1)
    case Finished => s
  }

  function Exec(slices: nat, acts: seq<Action>): Option<State> {
    if acts == [] then Some(Init(slices))
    else
      match Exec(slices, acts[..|acts| - 1])
      case None => None
      case Some(s) => Step(slices, s, acts[|acts| - 1])
  }

  predicate Terminal(slices: nat, s: State) {
    s.next >= slices && forall i :: i in s.workers ==> s.workers[i] == Finished
  }

  // ------------------------------------------------------------------ the invariant

  ghost predicate WorkerOk(s: State, i: nat)
    requires i in s.workers
  {
    match s.workers[i]
    case AtProcess => i !in s.processed && i !in s.spent
    case AtCount => i in s.processed && i !in s.spent
    case AtMerge => i in s.processed && i in s.spent && s.last == Some(i)
    case AtNotify => i in s.processed && i in s.spent && s.last == Some(i)
    case Finished => i in s.processed && i in s.spent
  }

  ghost predicate CountInv(slices: nat, s: State) {
    && s.next <= slices && (forall i: nat {:trigger i in s.workers} :: i in s.workers <==> i < s.next)
    && s.spent <= s.processed <= s.workers.Keys
    && s.cond == Countdown.Left(Countdown.Below(slices), s.spent)
    && (forall i {:trigger WorkerOk(s, i)} :: i in s.workers ==> WorkerOk(s, i))
  }

  /** The effects so far are those of the slice that spent the last token. */
  ghost predicate LastInv(slices: nat, s: State) {
    && (s.last.Some? <==> s.spent == Countdown.Below(slices))
    && (s.last.None? ==> s.merged == s.notified == 0)
    && (s.last.Some? ==>
          && s.last.value in s.workers
          && var pc := s.workers[s.last.value];
             && pc != AtProcess && pc != AtCount
             && s.merged == (if pc == AtMerge then 0 else 1)
             && s.notified == (if pc == Finished then 1 else 0))
  }

  ghost predicate Inv(slices: nat, s: State) {
    CountInv(slices, s) && LastInv(slices, s)
  }

  lemma InitInv(slices: nat)
    requires slices >= 1
    ensures Inv(slices, Init(slices))
  {
    assert Countdown.Below(slices) - {} == Countdown.Below(slices);
    assert 0 in Countdown.Below(slices);
  }

  lemma SpawnKeepsCount(slices: nat, s: State)
    requires CountInv(slices, s) && s.next < slices
    ensures CountInv(slices, Step(slices, s, Spawn).value)
  {
    var s2 := Step(slices, s, Spawn).value;
    assert s.next !in s.workers;
    forall i | i in s2.workers ensures WorkerOk(s2, i) {
      if i != s.next {
        assert WorkerOk(s, i);
      }
    }
  }

  lemma SpawnKeepsLast(slices: nat, s: State)
    requires LastInv(slices, s) && s.next < slices && s.next !in s.workers
    ensures LastInv(slices, Step(slices, s, Spawn).value)
  {
  }

  lemma WorkKeepsWorkers(slices: nat, s: State, i: nat, k: nat)
    requires i in s.workers && k in s.workers && WorkerOk(s, i) && WorkerOk(s, k) && s.workers[i] != Finished
    requires s.workers[i] == AtCount && s.cond == 1 ==> s.last.None?
    ensures WorkerOk(Advance(s, i), k)
  {
  }

  lemma WorkKeepsCount(slices: nat, s: State, i: nat)
    requires Inv(slices, s) && i in s.workers && s.workers[i] != Finished
    ensures CountInv(slices, Advance(s, i))
    ensures s.workers[i] == AtCount ==> s.cond >= 1 && s.last.None?
    ensures s.workers[i] == AtCount ==> (s.cond == 1 <==> s.spent + {i} == Countdown.Below(slices))
  {
    var s2 := Advance(s, i);
    assert WorkerOk(s, i);
    assert s2.workers.Keys == s.workers.Keys;
    if s.workers[i] == AtCount {
      Countdown.Spend(Countdown.Below(slices), s.spent, i);
    }
    forall k | k in s2.workers ensures WorkerOk(s2, k) {
      assert WorkerOk(s, k);
      WorkKeepsWorkers(slices, s, i, k);
    }
  }

  lemma StepKeepsInv(slices: nat, s: State, a: Action)
    requires Inv(slices, s) && Step(slices, s, a).Some?
    ensures Inv(slices, Step(slices, s, a).value)
  {
    match a
    case Spawn =>
      SpawnKeepsCount(slices, s);
      assert s.next !in s.workers;
      SpawnKeepsLast(slices, s);
    case Work(i) =>
      WorkKeepsCount(slices, s, i);
      assert WorkerOk(s, i);
  }

  lemma {:induction false} Safety(slices: nat, acts: seq<Action>)
    requires slices >= 1 && Exec(slices, acts).Some?
    ensures Inv(slices, Exec(slices, acts).value)
  {
    if acts == [] {
      InitInv(slices);
    } else {
      var before := acts[..|acts| - 1];
      Safety(slices, before);
      StepKeepsInv(slices, Exec(slices, before).value, acts[|acts| - 1]);
    }
  }

  // ------------------------------------------------------------------ theorems

  /** At every moment of every run: the slices are merged at most once, the out-nodes notified at most once and only
      after the merge, and once the merge has happened every slice has been processed. */
  lemma MergeComesLast(slices: nat, acts: seq<Action>)
    requires slices >= 1 && Exec(slices, acts).Some?
    ensures var s := Exec(slices, acts).value;
            && s.notified <= s.merged <= 1
            && (s.merged == 1 ==> forall i: nat :: i < slices ==> i in s.processed)
  {
    Safety(slices, acts);
    assert forall i: nat :: i < slices ==> i in Countdown.Below(slices);
  }

  /** Something can happen until nothing is left to do. */
  lemma Progress(slices: nat, s: State) returns (a: Action)
    requires Inv(slices, s) && !Terminal(slices, s)
    ensures Step(slices, s, a).Some?
  {
    if s.next < slices {
      a := Spawn;
    } else {
      var i :| i in s.workers && s.workers[i] != Finished;
      a := Work(i);
    }
  }

  function LastRank(s: State): nat {
    if s.last.Some? && s.last.value in s.workers then
      match s.workers[s.last.value]
      case AtNotify => 1
      case Finished => 2
      case _ => 0
    else 0
  }

  /** How much has happened. */
  ghost function Happened(s: State): nat {
    s.next + |s.processed| + |s.spent| + LastRank(s)
  }

  lemma StepHappens(slices: nat, s: State, a: Action)
    requires Inv(slices, s) && Step(slices, s, a).Some?
    ensures Happened(Step(slices, s, a).value) > Happened(s)
  {
    if a.Work? {
      assert WorkerOk(s, a.slice);
      WorkKeepsCount(slices, s, a.slice);
    }
  }

  /** A run over k slices takes at most 3k + 2 steps. */
  lemma HappenedIsBounded(slices: nat, s: State)
    requires Inv(slices, s)
    ensures Happened(s) <= 3 * slices + 2
  {
    Countdown.SubsetSize(s.processed, Countdown.Below(slices));
    Countdown.SubsetSize(s.spent, s.processed);
  }

  lemma TerminalIsComplete(slices: nat, s: State)
    requires slices >= 1 && Inv(slices, s) && Terminal(slices, s)
    ensures s.merged == 1 && s.notified == 1 && s.cond == 0
  {
    forall i | i in Countdown.Below(slices) ensures i in s.spent {
      assert WorkerOk(s, i);
    }
    assert s.spent == Countdown.Below(slices);
    Countdown.Zero(Countdown.Below(slices), s.spent);
  }

  /** Exactly once: in every completed run all slices were processed, and then merged once and the out-nodes notified
      once. */
  lemma ExactlyOnce(slices: nat, acts: seq<Action>)
    requires slices >= 1 && Exec(slices, acts).Some? && Terminal(slices, Exec(slices, acts).value)
    ensures var s := Exec(slices, acts).value;
            && s.merged == 1 && s.notified == 1 && s.cond == 0
            && forall i: nat :: i < slices ==> i in s.processed
  {
    Safety(slices, acts);
    TerminalIsComplete(slices, Exec(slices, acts).value);
    MergeComesLast(slices, acts);
  }
}
