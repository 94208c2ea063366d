/** `RedisService::do_service` from end to end: the fetches are made up, the countdowns planned, and the run of the
    request serves every generated key. */
module DoService {
  import opened Batching
  import Cache
  import opened Composition
  import opened FetchInfos
  import opened IoCalls
  import opened KeyGroups
  import MultiFetch
  import Redis = RedisRequest
  import opened RedisPlan
  import RedisTheorems

  /** A fetch as the issuing loop finds it. */
  function FetchOf(content: Content, clients: set<string>): Fetch {
    Fetch(content.config.redisClientId in clients, |content.keys|)
  }

  function FetchesOf(contents: seq<Content>, clients: set<string>): (r: seq<Fetch>)
    ensures |r| == |contents| && forall k :: 0 <= k < |r| ==> r[k] == FetchOf(contents[k], clients)
  {
    if contents == [] then [] else FetchesOf(contents[..|contents| - 1], clients) + [FetchOf(contents[|contents| - 1], clients)]
  }

  /** The configured fetches with the keys they keep. */
  function KeptContents(contents: seq<Content>, outcomes: seq<Outcome>): (r: seq<Content>)
    requires |contents| == |outcomes|
    ensures |r| == |contents| && forall k :: 0 <= k < |r| ==> r[k] == Content(contents[k].config, outcomes[k].after)
  {
    if contents == [] then []
    else
      var n := |contents| - 1;
      KeptContents(contents[..n], outcomes[..n]) + [Content(contents[n].config, outcomes[n].after)]
  }

  /** `fetch_info_vec` after `make_up_fetch_info_vec`. */
  function MadeVec(contents: seq<Content>, outcomes: seq<Outcome>): seq<Content>
    requires |contents| == |outcomes|
  {
    KeptContents(contents, outcomes) + Added(outcomes)
  }

  /** Both look-ups of a fetch's client, in `make_up_fetch_info_vec` and in the issuing loop, have the same answer. */
  predicate SameClients(contents: seq<Content>, inputs: seq<Input>, clients: set<string>)
    requires |contents| == |inputs|
  {
    forall j :: 0 <= j < |contents| ==> (inputs[j].known <==> contents[j].config.redisClientId in clients)
  }

  /** What goes into the set-up of a request: the configured fetches, their inputs, the known clients and the settings;
      and what comes out of it: the outcome of each fetch, the request, and the ranges and cells of its batches. */
  datatype Prepared = Prepared(
    contents: seq<Content>, inputs: seq<Input>, clients: set<string>, batchSize: nat, multiGet: bool,
    outcomes: seq<Outcome>, r: Redis.Request, ranges: seq<seq<(nat, nat)>>, cells: seq<seq<nat>>)

  /** What `do_service` has set up when its issuing loop begins. */
  ghost predicate IsPrepared(d: Prepared) {
    && |d.contents| == |d.inputs| == |d.outcomes|
    && SameClients(d.contents, d.inputs, d.clients)
    && Rounds(d.contents, d.inputs, d.outcomes)
    && Planned(FetchesOf(MadeVec(d.contents, d.outcomes), d.clients), d.batchSize, d.multiGet, d.r, d.ranges, d.cells)
    && (d.r.cached <==> Items(d.outcomes) != [])
  }

  /** The fetch at position j has a generator and a client. */
  predicate IsAsked(d: Prepared, j: nat) {
    j < |d.contents| && j < |d.inputs| && d.inputs[j].generated.Some? && d.inputs[j].known
  }

  method Lookups(all: seq<FetchInfo>, clients: set<string>) returns (fetches: seq<Fetch>)
    ensures fetches == FetchesOf(ContentsOf(all), clients)
  {
    fetches := [];
    for f := 0 to |all|
      invariant |fetches| == f && forall k :: 0 <= k < f ==> fetches[k] == FetchOf(all[k].Contents(), clients)
    {
      fetches := fetches + [Fetch(all[f].config.redisClientId in clients, |all[f].keys|)];
    }
  }

  lemma MadeAreContents(all: seq<FetchInfo>, contents: seq<Content>, outcomes: seq<Outcome>)
    requires |contents| == |outcomes| && |all| == |contents| + |Added(outcomes)|
    requires forall j :: 0 <= j < |contents| ==> all[j].config == contents[j].config && all[j].keys == outcomes[j].after
    requires forall k :: 0 <= k < |Added(outcomes)| ==> all[|contents| + k].Contents() == Added(outcomes)[k]
    ensures ContentsOf(all) == MadeVec(contents, outcomes)
  {
    var made := MadeVec(contents, outcomes);
    forall f | 0 <= f < |all| ensures ContentsOf(all)[f] == made[f] {
      if f >= |contents| {
        assert all[|contents| + (f - |contents|)].Contents() == Added(outcomes)[f - |contents|];
      }
    }
  }

  method MakeUp(fetchInfoVec: seq<FetchInfo>, inputs: seq<Input>)
    returns (all: seq<FetchInfo>, cacheDataVec: seq<CacheDataItem>, ghost outcomes: seq<Outcome>)
    requires AllNew(fetchInfoVec) && |inputs| == |fetchInfoVec|
    requires forall i :: 0 <= i < |inputs| ==> InputOk(inputs[i])
    modifies fetchInfoVec
    ensures |outcomes| == |fetchInfoVec| && Rounds(old(ContentsOf(fetchInfoVec)), inputs, outcomes)
    ensures ContentsOf(all) == MadeVec(old(ContentsOf(fetchInfoVec)), outcomes) && cacheDataVec == Items(outcomes)
  {
    ghost var contents := ContentsOf(fetchInfoVec);
    all, cacheDataVec, outcomes := MakeUpFetchInfoVec(fetchInfoVec, inputs);
    forall j | 0 <= j < |contents| ensures all[j].config == contents[j].config && all[j].keys == outcomes[j].after {
      assert all[..|fetchInfoVec|][j] == fetchInfoVec[j];
    }
    MadeAreContents(all, contents, outcomes);
  }

  lemma Prepares(d: Prepared, fetches: seq<Fetch>)
    requires |d.contents| == |d.inputs| == |d.outcomes|
    requires SameClients(d.contents, d.inputs, d.clients) && Rounds(d.contents, d.inputs, d.outcomes)
    requires fetches == FetchesOf(MadeVec(d.contents, d.outcomes), d.clients)
    requires Planned(fetches, d.batchSize, d.multiGet, d.r, d.ranges, d.cells) && d.r.cached == (Items(d.outcomes) != [])
    ensures IsPrepared(d)
  {
  }

  lemma IsService(d: Prepared)
    requires IsPrepared(d) && |d.contents| >= 1
    ensures ServiceOk(Service.Redis(d.r))
  {
  }

  method PlanFetches(all: seq<FetchInfo>, clients: set<string>, batchSize: nat, multiGet: bool, cached: bool,
                     ghost contents: seq<Content>, ghost inputs: seq<Input>, ghost outcomes: seq<Outcome>)
    returns (r: Redis.Request, ghost d: Prepared)
    requires |contents| == |inputs| == |outcomes| && batchSize >= 1
    requires SameClients(contents, inputs, clients) && Rounds(contents, inputs, outcomes)
    requires ContentsOf(all) == MadeVec(contents, outcomes) && cached == (Items(outcomes) != [])
    ensures IsPrepared(d) && d == Prepared(contents, inputs, clients, batchSize, multiGet, outcomes, r, d.ranges, d.cells)
  {
    var fetches := Lookups(all, clients);
    var ranges, cells;
    r, ranges, cells := PlanRequest(fetches, batchSize, multiGet, cached);
    d := Prepared(contents, inputs, clients, batchSize, multiGet, outcomes, r, ranges, cells);
    Prepares(d, fetches);
  }

  /** The service behind a Redis node: without fetches it completes at once; otherwise it is the protocol of the request
      that is made of its fetches. */
  method SetUp(fetchInfoVec: seq<FetchInfo>, inputs: seq<Input>, clients: set<string>, batchSize: nat, multiGet: bool)
    returns (svc: Service, cacheDataVec: seq<CacheDataItem>, ghost d: Prepared)
    requires AllNew(fetchInfoVec) && |inputs| == |fetchInfoVec| && batchSize >= 1
    requires forall i :: 0 <= i < |inputs| ==> InputOk(inputs[i])
    requires SameClients(ContentsOf(fetchInfoVec), inputs, clients)
    modifies fetchInfoVec
    ensures IsPrepared(d) && d.contents == old(ContentsOf(fetchInfoVec)) && d.inputs == inputs && d.clients == clients
    ensures d.batchSize == batchSize && d.multiGet == multiGet && cacheDataVec == Items(d.outcomes)
    ensures ServiceOk(svc) && svc == if |fetchInfoVec| == 0 then Single else Service.Redis(d.r)
  {
    ghost var contents := ContentsOf(fetchInfoVec);
    var all, r;
    ghost var outcomes;
    all, cacheDataVec, outcomes := MakeUp(fetchInfoVec, inputs);
    r, d := PlanFetches(all, clients, batchSize, multiGet, |cacheDataVec| > 0, contents, inputs, outcomes);
    svc := Single;
    if |fetchInfoVec| != 0 {
      svc := Service.Redis(r);
      IsService(d);
    }
  }

  // ------------------------------------------------------------------ where the keys of a fetch end up

  /** The position in the vector of the j-th fetch itself, or of the i-th fetch split off it. */
  ghost function Place(outcomes: seq<Outcome>, j: nat, i: nat): nat
    requires j < |outcomes|
  {
    if i == 0 then j else |outcomes| + |Added(outcomes[..j])| + (i - 1)
  }

  lemma {:induction false} AddedAt(outcomes: seq<Outcome>, j: nat, i: nat)
    requires j < |outcomes| && i < |outcomes[j].added|
    ensures var x := |Added(outcomes[..j])| + i; x < |Added(outcomes)| && Added(outcomes)[x] == outcomes[j].added[i]
  {
    var n := |outcomes| - 1;
    if j < n {
      AddedAt(outcomes[..n], j, i);
      assert outcomes[..n][..j] == outcomes[..j];
    }
  }

  lemma PlaceHolds(contents: seq<Content>, outcomes: seq<Outcome>, j: nat, i: nat)
    requires |contents| == |outcomes| && j < |outcomes| && i <= |outcomes[j].added|
    ensures var f := Place(outcomes, j, i);
            && f < |MadeVec(contents, outcomes)|
            && MadeVec(contents, outcomes)[f] ==
               if i == 0 then Content(contents[j].config, outcomes[j].after) else outcomes[j].added[i - 1]
  {
    if i > 0 {
      AddedAt(outcomes, j, i - 1);
      var x := |Added(outcomes[..j])| + (i - 1);
      assert MadeVec(contents, outcomes)[|contents| + x] == Added(outcomes)[x];
    }
  }

  lemma {:induction false} FindAdded(outcomes: seq<Outcome>, x: nat) returns (j: nat, i: nat)
    requires x < |Added(outcomes)|
    ensures j < |outcomes| && i < |outcomes[j].added| && x == |Added(outcomes[..j])| + i
  {
    var n := |outcomes| - 1;
    var before := |Added(outcomes[..n])|;
    if x < before {
      j, i := FindAdded(outcomes[..n], x);
      assert outcomes[..n][..j] == outcomes[..j];
    } else {
      j, i := n, x - before;
    }
  }

  /** Every fetch of the vector is a configured one or was split off one. */
  lemma FindPlace(outcomes: seq<Outcome>, f: nat) returns (j: nat, i: nat)
    requires f < |outcomes| + |Added(outcomes)|
    ensures j < |outcomes| && i <= |outcomes[j].added| && f == Place(outcomes, j, i)
  {
    if f < |outcomes| {
      j, i := f, 0;
    } else {
      j, i := FindAdded(outcomes, f - |outcomes|);
      i := i + 1;
    }
  }

  lemma {:induction false} AddedGrows(outcomes: seq<Outcome>, j: nat, j2: nat)
    requires j < j2 <= |outcomes|
    ensures |Added(outcomes[..j])| + |outcomes[j].added| <= |Added(outcomes[..j2])|
    decreases j2
  {
    assert outcomes[..j2][..j2 - 1] == outcomes[..j2 - 1];
    if j < j2 - 1 {
      AddedGrows(outcomes, j, j2 - 1);
    }
  }

  /** And of only one. */
  lemma PlaceIsUnique(outcomes: seq<Outcome>, j: nat, i: nat, j2: nat, i2: nat)
    requires j < |outcomes| && i <= |outcomes[j].added| && j2 < |outcomes| && i2 <= |outcomes[j2].added|
    requires Place(outcomes, j, i) == Place(outcomes, j2, i2)
    ensures j == j2 && i == i2
  {
    if j < j2 {
      AddedGrows(outcomes, j, j2);
    } else if j2 < j {
      AddedGrows(outcomes, j2, j);
    }
  }

  // ------------------------------------------------------------------ every key is served

  /** The parts of the j-th fetch, and the ranges in which each is sent. */
  function PartsOf(o: Outcome): seq<seq<Key>> {
    [o.after] + KeysOf(o.added)
  }

  ghost function SentRanges(d: Prepared, j: nat): (rs: seq<seq<(nat, nat)>>)
    requires j < |d.outcomes| && forall i: nat :: i <= |d.outcomes[j].added| ==> Place(d.outcomes, j, i) < |d.ranges|
    ensures |rs| == |PartsOf(d.outcomes[j])| && forall i: nat :: i < |rs| ==> rs[i] == d.ranges[Place(d.outcomes, j, i)]
  {
    seq(|d.outcomes[j].added| + 1, (i: nat) requires i <= |d.outcomes[j].added| => d.ranges[Place(d.outcomes, j, i)])
  }

  /** What is sent for the i-th part of a fetch with a client. */
  lemma PartIsSent(d: Prepared, j: nat, i: nat)
    requires IsPrepared(d) && IsAsked(d, j) && i <= |d.outcomes[j].added|
    ensures var f := Place(d.outcomes, j, i);
            && f < |d.ranges| == |d.r.batches| && d.r.batches[f] == |d.ranges[f]|
            && Partition(d.ranges[f], |PartsOf(d.outcomes[j])[i]|)
  {
    var f := Place(d.outcomes, j, i);
    PlaceHolds(d.contents, d.outcomes, j, i);
    assert RoundAt(d.contents, d.inputs, d.outcomes, j);
    var made := MadeVec(d.contents, d.outcomes);
    assert made[f].config == d.contents[j].config && made[f].keys == PartsOf(d.outcomes[j])[i];
    var fetch := FetchesOf(made, d.clients)[f];
    assert fetch == Fetch(true, |made[f].keys|);
    assert SendsOf(fetch, d.batchSize, d.multiGet, d.ranges[f], d.cells[f]);
  }

  lemma AllPartsSent(d: Prepared, j: nat)
    requires IsPrepared(d) && IsAsked(d, j)
    ensures forall i: nat :: i <= |d.outcomes[j].added| ==> Place(d.outcomes, j, i) < |d.ranges| == |d.r.batches|
    ensures forall i: nat :: i <= |d.outcomes[j].added| ==>
              d.r.batches[Place(d.outcomes, j, i)] == |d.ranges[Place(d.outcomes, j, i)]|
    ensures MultiFetch.Batched(PartsOf(d.outcomes[j]), SentRanges(d, j))
  {
    forall i: nat | i <= |d.outcomes[j].added|
      ensures var f := Place(d.outcomes, j, i);
              && f < |d.ranges| == |d.r.batches| && d.r.batches[f] == |d.ranges[f]|
              && Partition(d.ranges[f], |PartsOf(d.outcomes[j])[i]|)
    {
      PartIsSent(d, j, i);
    }
  }

  /** The keys generated for the j-th fetch are, with multiplicity, its cache hits and the keys in the ranges sent for it
      and for the fetches split off it; and all these batches are done. */
  ghost predicate Served(d: Prepared, j: nat, s: Redis.State)
    requires IsPrepared(d) && IsAsked(d, j)
  {
    AllPartsSent(d, j);
    var rs := SentRanges(d, j);
    assert RoundAt(d.contents, d.inputs, d.outcomes, j);
    && multiset(d.inputs[j].generated.value) ==
       multiset(CacheHits(d.contents[j].config, d.inputs[j])) + MultiFetch.Asked(PartsOf(d.outcomes[j]), rs)
    && forall i: nat, b: nat {:trigger Place(d.outcomes, j, i), rs[i][b]} :: i < |rs| && b < |rs[i]| ==>
         (Place(d.outcomes, j, i), b) in s.itemSpent
  }

  lemma ServedWhenDone(d: Prepared, j: nat, s: Redis.State)
    requires IsPrepared(d) && IsAsked(d, j) && forall f: nat :: f < |d.r.batches| ==> RedisTheorems.Done(d.r, s, f)
    ensures Served(d, j, s)
  {
    AllPartsSent(d, j);
    var rs := SentRanges(d, j);
    assert RoundAt(d.contents, d.inputs, d.outcomes, j);
    var o := d.outcomes[j];
    MultiFetch.KeysAreAsked(d.contents[j].config, d.contents[j].keys, d.inputs[j], o.after, o.added, o.data, rs);
    forall i: nat, b: nat | i < |rs| && b < |rs[i]| ensures (Place(d.outcomes, j, i), b) in s.itemSpent {
      assert RedisTheorems.Done(d.r, s, Place(d.outcomes, j, i));
    }
  }

  /** From the generators to the end of the run: in a run that can go no further and in which no first send has failed,
      every fetch that has a generator and a client has been served. */
  lemma EveryKeyIsServed(d: Prepared, acts: seq<Redis.Action>, j: nat)
    requires IsPrepared(d) && IsAsked(d, j)
    requires Redis.Exec(d.r, acts).Some? && forall a :: Redis.Exec(d.r, acts + [a]).None?
    requires !RedisTheorems.HadFirstFailure(d.r, acts)
    ensures Served(d, j, Redis.Exec(d.r, acts).value)
  {
    RedisTheorems.ExactlyOnce(d.r, acts);
    ServedWhenDone(d, j, Redis.Exec(d.r, acts).value);
  }

  /** The same for a call in a run of the whole. */
  lemma EveryKeyIsServedInWhole(y: System, acts: seq<Action>, n: nat, d: Prepared, j: nat)
    requires IsPrepared(d) && IsAsked(d, j)
    requires GoodSystem(y) && Exec(y, acts).Some? && forall a :: Exec(y, acts + [a]).None?
    requires !Doomed(y, Exec(y, acts).value)
    requires n in Exec(y, acts).value.calls && n in y.services && y.services[n] == Service.Redis(d.r)
    ensures var call := Exec(y, acts).value.calls[n]; call.RedisCall? && Served(d, j, call.r)
  {
    CallIsComplete(y, acts, n, d.r);
    ServedWhenDone(d, j, Exec(y, acts).value.calls[n].r);
  }

  lemma CallIsComplete(y: System, acts: seq<Action>, n: nat, r: Redis.Request)
    requires GoodSystem(y) && Exec(y, acts).Some? && forall a :: Exec(y, acts + [a]).None?
    requires !Doomed(y, Exec(y, acts).value)
    requires n in Exec(y, acts).value.calls && n in y.services && y.services[n] == Service.Redis(r)
    ensures var call := Exec(y, acts).value.calls[n];
            call.RedisCall? && forall f: nat :: f < |r.batches| ==> RedisTheorems.Done(r, call.r, f)
  {
    Refinement(y, acts);
    StuckIsOver(y, acts);
    var w := Exec(y, acts).value;
    OverIsDecidedByFirstSends(y, w);
    assert CallOk(y, w, n);
    assert CallTerminal(y.services[n], w.calls[n]);
    RedisTheorems.TerminalIsComplete(r, w.calls[n].r);
  }

  /** Without a client nothing is sent: a generated key that the cache does not have is then asked for nowhere. */
  lemma NothingSentWithoutClient(d: Prepared, j: nat)
    requires IsPrepared(d) && j < |d.contents| && !d.inputs[j].known
    ensures d.outcomes[j].added == [] && j < |d.ranges| && d.ranges[j] == []
  {
    PlaceHolds(d.contents, d.outcomes, j, 0);
    assert RoundAt(d.contents, d.inputs, d.outcomes, j);
    var fetch := FetchesOf(MadeVec(d.contents, d.outcomes), d.clients)[j];
    assert SendsOf(fetch, d.batchSize, d.multiGet, d.ranges[j], d.cells[j]);
  }

  // ------------------------------------------------------------------ the merge

  /** The result vectors that `merge_cache_data` finds: a cell for each batch, filled by the batch's callback. */
  ghost predicate CellsOf(r: Redis.Request, s: Redis.State, results: seq<Cache.FetchResult>) {
    && |results| == |r.batches|
    && (forall f: nat {:trigger results[f]} :: f < |results| ==>
          && |results[f].items| == r.batches[f]
          && forall b: nat {:trigger results[f].items[b]} :: b < |results[f].items| ==>
               (results[f].items[b].filled <==> (f, b) in s.filled))
  }

  /** The merge of the values and the merge step of the protocol crash in the same states. */
  lemma MergesAgree(r: Redis.Request, s: Redis.State, results: seq<Cache.FetchResult>)
    requires CellsOf(r, s, results)
    ensures (exists f :: 0 <= f < |results| && Cache.NullFirst(results[f])) <==> !Redis.CellsFilled(r, s)
  {
    if !Redis.CellsFilled(r, s) {
      var f: nat :| f < |r.batches| && r.batches[f] > 0 && (f, 0) !in s.filled;
      assert !results[f].items[0].filled;
      assert Cache.NullFirst(results[f]);
    }
  }
}
