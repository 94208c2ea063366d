/** The services behind the io nodes, seen from the scheduler: a call is started by `do_service` and later notifies the
    node's out-nodes. */
module IoCalls {
  import Redis = RedisRequest
  import RedisSteps
  import RedisTheorems
  import Slices = ConcurrentService
  import opened Options

  /** `Single` stands for a service whose completion is one call: the callback of a brpc or http request, or a Redis
      node without fetches, which completes before `do_service` returns. */
  datatype Service = Redis(request: Redis.Request) | Concurrent(slices: nat) | Single

  datatype Call = RedisCall(r: Redis.State) | SliceCall(c: Slices.State) | SingleCall(done: bool)

  datatype CallAction = RedisAct(ra: Redis.Action) | SliceAct(sa: Slices.Action) | Complete

  predicate ServiceOk(svc: Service) {
    match svc
    case Redis(r) => |r.batches| >= 1
    case Concurrent(k) => k >= 1
    case Single => true
  }

  function Start(svc: Service): Call {
    match svc
    case Redis(r) => RedisCall(Redis.Init(r))
    case Concurrent(k) => SliceCall(Slices.Init(k))
    case Single => SingleCall(false)
  }

  function CallStep(svc: Service, c: Call, a: CallAction): Option<Call> {
    match (svc, c, a)
    case (Redis(r), RedisCall(s), RedisAct(ra)) =>
      (match Redis.Step(r, s, ra) case None => None case Some(s2) => Some(RedisCall(s2)))
    case (Concurrent(k), SliceCall(s), SliceAct(sa)) =>
      (match Slices.Step(k, s, sa) case None => None case Some(s2) => Some(SliceCall(s2)))
    case (Single, SingleCall(done), Complete) => if done then None else Some(SingleCall(true))
    case _ => None
  }

  /** How often the call has run `run_output_nodes_if_ready`. */
  function Notified(c: Call): nat {
    match c
    case RedisCall(s) => s.done.notified
    case SliceCall(s) => s.notified
    case SingleCall(done) => if done then 1 else 0
  }

  predicate CallTerminal(svc: Service, c: Call) {
    match c
    case RedisCall(s) => Redis.Terminal(s)
    case SliceCall(s) => svc.Concurrent? && Slices.Terminal(svc.slices, s)
    case SingleCall(done) => done
  }

  /** The call has taken the process down. */
  predicate CallCrashed(c: Call) {
    c.RedisCall? && c.r.crashed
  }

  /** The call will take the process down when its results are merged: the first send of some fetch has failed. */
  predicate CallDoomed(svc: Service, c: Call) {
    svc.Redis? && c.RedisCall? && RedisTheorems.FirstSendFailed(svc.request, c.r)
  }

  ghost predicate CallInv(svc: Service, c: Call) {
    match (svc, c)
    case (Redis(r), RedisCall(s)) => Redis.Inv(r, s)
    case (Concurrent(k), SliceCall(s)) => Slices.Inv(k, s)
    case (Single, SingleCall(_)) => true
    case _ => false
  }

  lemma StartInv(svc: Service)
    requires ServiceOk(svc)
    ensures CallInv(svc, Start(svc)) && Notified(Start(svc)) == 0
  {
    match svc
    case Redis(r) => Redis.InitInv(r);
    case Concurrent(k) => Slices.InitInv(k);
    case Single =>
  }

  /** A call notifies at most once: the invariant holds on, and a step adds at most one notification to none. */
  lemma CallStepKeepsInv(svc: Service, c: Call, a: CallAction)
    requires CallInv(svc, c) && CallStep(svc, c, a).Some?
    ensures var c2 := CallStep(svc, c, a).value;
            CallInv(svc, c2) && Notified(c) <= Notified(c2) <= 1
  {
    match svc
    case Redis(r) =>
      RedisSteps.StepKeepsInv(r, c.r, a.ra);
      RedisNotifies(r, c.r, a.ra);
    case Concurrent(k) =>
      Slices.StepKeepsInv(k, c.c, a.sa);
    case Single =>
  }

  lemma RedisNotifies(r: Redis.Request, s: Redis.State, a: Redis.Action)
    requires Redis.Step(r, s, a).Some?
    ensures Redis.Step(r, s, a).value.done.notified >= s.done.notified
  {
  }

  lemma CallProgress(svc: Service, c: Call) returns (a: CallAction)
    requires CallInv(svc, c) && !CallTerminal(svc, c) && !CallCrashed(c)
    ensures CallStep(svc, c, a).Some?
  {
    match svc
    case Redis(r) =>
      var ra := RedisTheorems.Progress(r, c.r);
      a := RedisAct(ra);
    case Concurrent(k) =>
      var sa := Slices.Progress(k, c.c);
      a := SliceAct(sa);
    case Single => a := Complete;
  }

  /** A call that has nothing left to do has notified. */
  lemma TerminalHasNotified(svc: Service, c: Call)
    requires ServiceOk(svc) && CallInv(svc, c) && CallTerminal(svc, c)
    ensures Notified(c) == 1
  {
    match svc
    case Redis(r) => RedisTheorems.TerminalIsComplete(r, c.r);
    case Concurrent(k) => Slices.TerminalIsComplete(k, c.c);
    case Single =>
  }

  /** A call that is over has crashed exactly if it was doomed. */
  lemma OverIsDecided(svc: Service, c: Call)
    requires CallInv(svc, c)
    ensures CallTerminal(svc, c) ==> !CallDoomed(svc, c)
    ensures CallCrashed(c) ==> CallDoomed(svc, c)
  {
    match svc
    case Redis(r) =>
      if CallTerminal(svc, c) || CallCrashed(c) {
        RedisTheorems.OverIsDecided(r, c.r);
      }
    case Concurrent(k) =>
    case Single =>
  }

  ghost function CallHappened(c: Call): nat {
    match c
    case RedisCall(s) => RedisTheorems.Happened(s)
    case SliceCall(s) => Slices.Happened(s)
    case SingleCall(done) => if done then 1 else 0
  }

  /** The most steps a call takes. */
  function CallBound(svc: Service): nat {
    match svc
    case Redis(r) => 3 * RedisTheorems.JobTotal(r, |r.batches|) + |r.batches| + 11
    case Concurrent(k) => 3 * k + 2
    case Single => 1
  }

  lemma CallStepHappens(svc: Service, c: Call, a: CallAction)
    requires CallInv(svc, c) && CallStep(svc, c, a).Some?
    ensures CallHappened(CallStep(svc, c, a).value) > CallHappened(c)
  {
    match svc
    case Redis(r) => RedisTheorems.StepHappens(r, c.r, a.ra);
    case Concurrent(k) => Slices.StepHappens(k, c.c, a.sa);
    case Single =>
  }

  lemma CallIsBounded(svc: Service, c: Call)
    requires CallInv(svc, c)
    ensures CallHappened(c) <= CallBound(svc)
  {
    match svc
    case Redis(r) => RedisTheorems.HappenedIsBounded(r, c.r);
    case Concurrent(k) => Slices.HappenedIsBounded(k, c.c);
    case Single =>
  }
}
