/** `Node::notify` and `Node::run_output_nodes_if_ready` as one thread executes them when nothing comes between. */
module OutputNodes {
  import opened Options
  import opened Scheduler

  predicate Below(outs: seq<nat>, n: nat) {
    forall i :: 0 <= i < |outs| ==> outs[i] < n
  }

  /** The counters after notifying the listed nodes in turn. */
  function NotifyAll(ctr: seq<int>, outs: seq<nat>): (r: seq<int>)
    requires Below(outs, |ctr|)
    ensures |r| == |ctr|
  {
    if outs == [] then ctr
    else
      var m := outs[|outs| - 1];
      var before := NotifyAll(ctr, outs[..|outs| - 1]);
      before[m := before[m] - 1]
  }

  /** The nodes whose notification found the value 1, in the order of the notifications. */
  function ReadyNodes(ctr: seq<int>, outs: seq<nat>): seq<nat>
    requires Below(outs, |ctr|)
  {
    if outs == [] then []
    else
      var m := outs[|outs| - 1];
      var before := outs[..|outs| - 1];
      ReadyNodes(ctr, before) + if NotifyAll(ctr, before)[m] == 1 then [m] else []
  }

  lemma {:induction false} CountersDrop(ctr: seq<int>, outs: seq<nat>, m: nat)
    requires Below(outs, |ctr|) && m < |ctr|
    ensures NotifyAll(ctr, outs)[m] == ctr[m] - multiset(outs)[m]
  {
    if outs != [] {
      var before := outs[..|outs| - 1];
      CountersDrop(ctr, before, m);
      assert outs == before + [outs[|outs| - 1]];
    }
  }

  lemma {:induction false} ReadyOnce(ctr: seq<int>, outs: seq<nat>, m: nat)
    requires Below(outs, |ctr|) && m < |ctr|
    ensures multiset(ReadyNodes(ctr, outs))[m] == if 1 <= ctr[m] <= multiset(outs)[m] then 1 else 0
  {
    if outs != [] {
      var before := outs[..|outs| - 1];
      ReadyOnce(ctr, before, m);
      CountersDrop(ctr, before, outs[|outs| - 1]);
      assert outs == before + [outs[|outs| - 1]];
    }
  }

  /** Each counter drops by the number of times its node is listed, and the nodes made ready are those whose counter
      thereby passes from 1 to 0, each once. */
  lemma NotifyAllMeaning(ctr: seq<int>, outs: seq<nat>, m: nat)
    requires Below(outs, |ctr|) && m < |ctr|
    ensures NotifyAll(ctr, outs)[m] == ctr[m] - multiset(outs)[m]
    ensures multiset(ReadyNodes(ctr, outs))[m] == if 1 <= ctr[m] <= multiset(outs)[m] then 1 else 0
  {
    CountersDrop(ctr, outs, m);
    ReadyOnce(ctr, outs, m);
  }

  /** Takes one input off a node's counter and says whether it was the last. */
  method Notify(nodeInputNum: array<int>, id: nat) returns (ready: bool)
    modifies nodeInputNum
    ensures id >= nodeInputNum.Length ==> !ready && nodeInputNum[..] == old(nodeInputNum[..])
    ensures id < nodeInputNum.Length ==> nodeInputNum[..] == old(nodeInputNum[..])[id := old(nodeInputNum[id]) - 1]
    ensures id < nodeInputNum.Length ==> (ready <==> old(nodeInputNum[id]) == 1)
  {
    if id >= nodeInputNum.Length {
      return false;
    }
    var old_value := nodeInputNum[id];
    nodeInputNum[id] := old_value - 1;
    ready := old_value == 1;
  }

  /** Notifies every out-node.  Of those made ready, the last is left for this thread to run and the others get
      bthreads of their own. */
  method RunOutputNodesIfReady(nodeInputNum: array<int>, outNodes: seq<nat>) returns (spawned: seq<nat>, last: Option<nat>)
    requires Below(outNodes, nodeInputNum.Length)
    modifies nodeInputNum
    ensures nodeInputNum[..] == NotifyAll(old(nodeInputNum[..]), outNodes)
    ensures ReadyNodes(old(nodeInputNum[..]), outNodes) == if last.None? then [] else spawned + [last.value]
  {
    spawned, last := [], None;
    ghost var ctr := nodeInputNum[..];
    for i := 0 to |outNodes|
      invariant nodeInputNum[..] == NotifyAll(ctr, outNodes[..i])
      invariant ReadyNodes(ctr, outNodes[..i]) == if last.None? then [] else spawned + [last.value]
      invariant last.None? ==> spawned == []
    {
      assert outNodes[..i + 1][..i] == outNodes[..i];
      var ready := Notify(nodeInputNum, outNodes[i]);
      if ready {
        if last.Some? {
          spawned := spawned + [last.value];
        }
        last := Some(outNodes[i]);
      }
    }
    assert outNodes[..|outNodes|] == outNodes;
  }

  // ------------------------------------------------------------------ the loop is one schedule of the protocol

  /** Carrying out a list of actions from a given state. */
  function ExecFrom(p: Plan, s: State, acts: seq<Action>): Option<State> {
    if acts == [] then Some(s)
    else
      match ExecFrom(p, s, acts[..|acts| - 1])
      case None => None
      case Some(s1) => Step(p, s1, acts[|acts| - 1])
  }

  predicate Started(threads: map<nat, Thread>, id: nat, m: nat) {
    id in threads && threads[id] == Pending(m)
  }

  /** Thread t has visited the first i out-nodes of n: the counters are those of `NotifyAll`, it holds the node made
      ready last, and each of the others has been given a bthread, in order. */
  ghost predicate LoopState(p: Plan, s: State, t: nat, n: nat, i: nat, s1: State)
    requires n < |p.g| && i <= |p.g[n]| && Below(p.g[n], |s.ctr|)
  {
    var ready := ReadyNodes(s.ctr, p.g[n][..i]);
    && s1.ctr == NotifyAll(s.ctr, p.g[n][..i])
    && s1.nextId == s.nextId + (if ready == [] then 0 else |ready| - 1)
    && t in s1.threads
    && s1.threads[t] == Notifying(n, i, if ready == [] then None else Some(ready[|ready| - 1]), None)
    && (forall k: nat :: k < |ready| - 1 ==> Started(s1.threads, s.nextId + k, ready[k]))
    && (forall t0 :: t0 in s.threads && t0 != t ==> t0 in s1.threads && s1.threads[t0] == s.threads[t0])
    && s1.io == s.io
  }

  /** The sequential loop is what the protocol does when thread t alone takes steps: its counters, the node it keeps
      and the bthreads it starts are those of `RunOutputNodesIfReady`. */
  lemma {:induction false} LoopIsSchedule(p: Plan, s: State, t: nat, n: nat, i: nat) returns (acts: seq<Action>)
    requires n < |p.g| && i <= |p.g[n]| && Below(p.g[n], |s.ctr|)
    requires t in s.threads && s.threads[t] == Notifying(n, 0, None, None)
    requires forall t0 :: t0 in s.threads ==> t0 < s.nextId
    ensures forall a :: a in acts ==> a == Action.Notify(t) || a == Place(t)
    ensures ExecFrom(p, s, acts).Some? && LoopState(p, s, t, n, i, ExecFrom(p, s, acts).value)
  {
    if i == 0 {
      acts := [];
    } else {
      var prior := LoopIsSchedule(p, s, t, n, i - 1);
      acts := OneTurn(p, s, t, n, i - 1, prior);
    }
  }

  lemma QuietTurn(p: Plan, s: State, t: nat, n: nat, i: nat, s1: State)
    requires n < |p.g| && i < |p.g[n]| && Below(p.g[n], |s.ctr|) && t < s.nextId
    requires LoopState(p, s, t, n, i, s1) && s1.ctr[p.g[n][i]] != 1
    ensures CanNotify(p, s1, t) && LoopState(p, s, t, n, i + 1, NotifyNext(p, s1, t))
  {
    assert p.g[n][..i + 1][..i] == p.g[n][..i];
  }

  lemma ReadyTurn(p: Plan, s: State, t: nat, n: nat, i: nat, s1: State)
    requires n < |p.g| && i < |p.g[n]| && Below(p.g[n], |s.ctr|) && t < s.nextId
    requires forall t0 :: t0 in s.threads ==> t0 < s.nextId
    requires LoopState(p, s, t, n, i, s1) && s1.ctr[p.g[n][i]] == 1
    ensures CanNotify(p, s1, t)
    ensures var s2 := NotifyNext(p, s1, t);
            && t in s2.threads && s2.threads[t].Notifying? && s2.threads[t].got.Some?
            && LoopState(p, s, t, n, i + 1, PlaceReady(s2, t))
  {
    assert p.g[n][..i + 1][..i] == p.g[n][..i];
    var ready := ReadyNodes(s.ctr, p.g[n][..i]);
    assert ReadyNodes(s.ctr, p.g[n][..i + 1]) == ready + [p.g[n][i]];
  }

  lemma OneTurn(p: Plan, s: State, t: nat, n: nat, i: nat, prior: seq<Action>) returns (acts: seq<Action>)
    requires n < |p.g| && i < |p.g[n]| && Below(p.g[n], |s.ctr|)
    requires t in s.threads && forall t0 :: t0 in s.threads ==> t0 < s.nextId
    requires forall a :: a in prior ==> a == Action.Notify(t) || a == Place(t)
    requires ExecFrom(p, s, prior).Some? && LoopState(p, s, t, n, i, ExecFrom(p, s, prior).value)
    ensures forall a :: a in acts ==> a == Action.Notify(t) || a == Place(t)
    ensures ExecFrom(p, s, acts).Some? && LoopState(p, s, t, n, i + 1, ExecFrom(p, s, acts).value)
  {
    var s1 := ExecFrom(p, s, prior).value;
    acts := prior + [Action.Notify(t)];
    assert acts[..|prior|] == prior;
    if s1.ctr[p.g[n][i]] == 1 {
      ReadyTurn(p, s, t, n, i, s1);
      var shorter := acts;
      acts := shorter + [Place(t)];
      assert acts[..|shorter|] == shorter;
    } else {
      QuietTurn(p, s, t, n, i, s1);
    }
  }
}
