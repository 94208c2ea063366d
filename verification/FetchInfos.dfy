/** `RedisService::make_up_fetch_info_vec`: the fetches of a request after key generation, cache look-up and division by
    slot. */
module FetchInfos {
  import opened KeyGroups
  import opened Options

  /** The fields that an added fetch copies from the one it is split off. */
  datatype Config = Config(
    prefix: string, postfix: string, compress: string, keyGenFunc: string, redisClientId: string,
    key: string, responseFunc: string, useCache: bool, expireTime: nat)

  /** The value of a fetch. */
  datatype Content = Content(config: Config, keys: seq<Key>)

  /** `id` stands for the decimal string of the position. */
  class FetchInfo {
    const config: Config
    var keys: seq<Key>
    var id: nat

    constructor (content: Content)
      ensures config == content.config && keys == content.keys
    {
      config, keys, id := content.config, content.keys, 0;
    }

    function Contents(): Content
      reads this`keys
    {
      Content(config, keys)
    }
  }

  /** What the surroundings contribute for one fetch: the keys after its generator has run, if it has one; what the
      cache answers for each of them; and whether its client is known. */
  datatype Input = Input(generated: Option<seq<Key>>, answers: seq<Option<Value>>, known: bool)

  predicate InputOk(input: Input) {
    input.generated.Some? ==> |input.answers| == |input.generated.value|
  }

  /** The keys found in the cache, the data they are delivered with, and the keys left to fetch. */
  function CacheHits(c: Config, input: Input): seq<Key>
    requires InputOk(input) && input.generated.Some?
  {
    if c.useCache then Hits(input.generated.value, input.answers) else []
  }

  function CacheData(c: Config, input: Input): map<Key, Value>
    requires InputOk(input) && input.generated.Some?
  {
    if c.useCache then DataMap(input.generated.value, input.answers) else map[]
  }

  function Rest(c: Config, input: Input): seq<Key>
    requires InputOk(input) && input.generated.Some?
  {
    if c.useCache then Misses(input.generated.value, input.answers) else input.generated.value
  }

  /** The outcome for one fetch: its keys afterwards, the contents of the fetches added, and its cached data if any. */
  ghost predicate MadeUp(c: Config, before: seq<Key>, input: Input, after: seq<Key>, added: seq<Content>, data: map<Key, Value>)
    requires InputOk(input)
  {
    match input.generated
    case None => after == before && added == [] && data == map[]
    case Some(_) =>
      && data == CacheData(c, input)
      && (forall k :: 0 <= k < |added| ==> added[k].config == c)
      && if Rest(c, input) == [] || !input.known then after == Rest(c, input) && added == []
         else SplitUp(Rest(c, input), [after] + KeysOf(added))
  }

  function KeysOf(contents: seq<Content>): (r: seq<seq<Key>>)
    ensures |r| == |contents| && forall k :: 0 <= k < |r| ==> r[k] == contents[k].keys
  {
    if contents == [] then [] else KeysOf(contents[..|contents| - 1]) + [contents[|contents| - 1].keys]
  }

  /** No key is lost or made up: the generated keys are the cache hits, the keys the fetch keeps, and the keys of the
      fetches added for it. */
  lemma KeysAreConserved(c: Config, before: seq<Key>, input: Input, after: seq<Key>, added: seq<Content>, data: map<Key, Value>)
    requires InputOk(input) && input.generated.Some? && MadeUp(c, before, input, after, added, data)
    ensures multiset(input.generated.value) == multiset(CacheHits(c, input)) + multiset(after) + Sum(KeysOf(added))
    ensures forall k :: k in data <==> k in CacheHits(c, input)
  {
    HitOrMiss(input.generated.value, input.answers);
    var rest := Rest(c, input);
    if rest != [] && input.known {
      SplitConserves(rest, [after] + KeysOf(added));
      SumConcat([after], KeysOf(added));
      SumOne(after);
    }
  }

  /** What a fetch delivers from the cache: exactly the generated keys that the cache answered for, if the fetch uses it,
      each with the last answer, a single space read as nothing. */
  lemma DeliveredExactly(c: Config, before: seq<Key>, input: Input, after: seq<Key>, added: seq<Content>, data: map<Key, Value>, k: Key)
    requires InputOk(input) && input.generated.Some? && MadeUp(c, before, input, after, added, data)
    ensures k in data <==> c.useCache && exists i :: 0 <= i < |input.answers| && input.generated.value[i] == k && input.answers[i].Some?
    ensures k in data ==> exists i :: 0 <= i < |input.answers| && IsLastAnswer(input, i, k) && data[k] == Read(input.answers[i].value)
  {
    var keys, answers := input.generated.value, input.answers;
    if c.useCache {
      HitOrMiss(keys, answers);
      forall i | 0 <= i < |answers| && answers[i].Some? ensures keys[i] in data {
        AnsweredIsHit(keys, answers, i);
      }
      if k in data {
        var i := DeliveredValue(keys, answers, k);
        assert IsLastAnswer(input, i, k);
      }
    }
  }

  lemma AnsweredIsHit(keys: seq<Key>, answers: seq<Option<Value>>, i: nat)
    requires |keys| == |answers| && i < |keys| && answers[i].Some?
    ensures keys[i] in Hits(keys, answers)
  {
    var at := HitsInOrder(keys, answers);
    assert i in at;
    var j :| 0 <= j < |at| && at[j] == i;
    assert Hits(keys, answers)[j] == keys[i];
  }

  /** The last look-up of the key that the cache answered. */
  ghost predicate IsLastAnswer(input: Input, i: nat, k: Key)
    requires InputOk(input) && input.generated.Some?
  {
    && i < |input.answers| && input.generated.value[i] == k && input.answers[i].Some?
    && forall j :: i < j < |input.answers| && input.generated.value[j] == k ==> input.answers[j].None?
  }

  /** Of a fetch and those added to it: the keys of one share a slot, and those of another have another slot. */
  lemma OneSlotEach(c: Config, before: seq<Key>, input: Input, after: seq<Key>, added: seq<Content>, data: map<Key, Value>,
                    i: nat, j: nat, x: Key, y: Key)
    requires InputOk(input) && input.generated.Some? && input.known && MadeUp(c, before, input, after, added, data)
    requires i <= |added| && j <= |added| && x in Part(after, added, i) && y in Part(after, added, j)
    ensures Slot(x) == Slot(y) <==> i == j
  {
    if Rest(c, input) != [] {
      PartIs(after, added, i);
      PartIs(after, added, j);
      PartsAreSlots(Rest(c, input), [after] + KeysOf(added), i, j, x, y);
    }
  }

  lemma PartIs(after: seq<Key>, added: seq<Content>, i: nat)
    requires i <= |added|
    ensures i < |[after] + KeysOf(added)| && ([after] + KeysOf(added))[i] == Part(after, added, i)
  {
  }

  /** The keys of the fetch itself, or of the i-th added to it. */
  function Part(after: seq<Key>, added: seq<Content>, i: nat): seq<Key>
    requires i <= |added|
  {
    if i == 0 then after else added[i - 1].keys
  }

  // ------------------------------------------------------------------ the code

  function ContentsOf(infos: seq<FetchInfo>): (r: seq<Content>)
    reads set i | 0 <= i < |infos| :: infos[i]
    ensures |r| == |infos| && forall k :: 0 <= k < |r| ==> r[k] == infos[k].Contents()
  {
    if infos == [] then [] else ContentsOf(infos[..|infos| - 1]) + [infos[|infos| - 1].Contents()]
  }

  /** The objects hold these contents. */
  ghost predicate Hold(infos: seq<FetchInfo>, contents: seq<Content>)
    reads infos`keys
  {
    |infos| == |contents| && forall k :: 0 <= k < |infos| ==> infos[k].Contents() == contents[k]
  }

  lemma HoldAppend(a: seq<FetchInfo>, b: seq<FetchInfo>, ca: seq<Content>, cb: seq<Content>)
    requires Hold(a, ca) && Hold(b, cb)
    ensures Hold(a + b, ca + cb)
  {
  }

  ghost predicate AllNew(infos: seq<FetchInfo>) {
    forall k, l :: 0 <= k < l < |infos| ==> infos[k] != infos[l]
  }

  /** A fetch for each further group. */
  method AddFetches(config: Config, parts: seq<seq<Key>>) returns (addFetchInfos: seq<FetchInfo>)
    requires |parts| >= 1
    ensures forall k :: 0 <= k < |addFetchInfos| ==> fresh(addFetchInfos[k]) && addFetchInfos[k].config == config
    ensures AllNew(addFetchInfos)
    ensures KeysOf(ContentsOf(addFetchInfos)) == parts[1..]
  {
    addFetchInfos := [];
    for k := 1 to |parts|
      invariant |addFetchInfos| == k - 1
      invariant forall j :: 0 <= j < k - 1 ==>
        fresh(addFetchInfos[j]) && addFetchInfos[j].config == config && addFetchInfos[j].keys == parts[j + 1]
      invariant AllNew(addFetchInfos)
    {
      var addFetchInfo := new FetchInfo(Content(config, parts[k]));
      addFetchInfos := addFetchInfos + [addFetchInfo];
    }
  }

  /** The keys of the fetch become the first group; each further group gets a fetch of its own. */
  method SplitBySlot(info: FetchInfo) returns (addFetchInfos: seq<FetchInfo>)
    requires info.keys != []
    modifies info`keys
    ensures forall k :: 0 <= k < |addFetchInfos| ==> fresh(addFetchInfos[k]) && addFetchInfos[k].config == info.config
    ensures AllNew(addFetchInfos)
    ensures SplitUp(old(info.keys), [info.keys] + KeysOf(ContentsOf(addFetchInfos)))
  {
    var parts := DivideBySlot(info.keys);
    info.keys := parts[0];
    addFetchInfos := AddFetches(info.config, parts);
    assert [info.keys] + KeysOf(ContentsOf(addFetchInfos)) == parts;
  }

  /** The keys found in the cache are taken out. */
  method TakeHits(info: FetchInfo, input: Input) returns (data: map<Key, Value>)
    requires InputOk(input) && input.generated.Some? && info.keys == input.generated.value
    modifies info`keys
    ensures info.keys == Rest(info.config, input) && data == CacheData(info.config, input)
  {
    data := map[];
    if info.config.useCache {
      var missKeys;
      missKeys, data := GetFromCache(info.keys, input.answers);
      info.keys := missKeys;
    }
  }

  /** One round of the first loop. */
  method MakeUpOne(info: FetchInfo, input: Input) returns (addFetchInfos: seq<FetchInfo>, data: map<Key, Value>)
    requires InputOk(input)
    modifies info`keys
    ensures forall k :: 0 <= k < |addFetchInfos| ==> fresh(addFetchInfos[k])
    ensures AllNew(addFetchInfos)
    ensures MadeUp(info.config, old(info.keys), input, info.keys, ContentsOf(addFetchInfos), data)
  {
    addFetchInfos, data := [], map[];
    if input.generated.None? {
      return;
    }
    info.keys := input.generated.value;
    if |info.keys| == 0 {
      assert input.generated.value == [];
      return;
    }
    data := TakeHits(info, input);
    if |info.keys| == 0 || !input.known {
      return;
    }
    addFetchInfos := SplitBySlot(info);
  }

  /** What one round leaves: the keys of the fetch, the fetches added, and the cached data. */
  datatype Outcome = Outcome(after: seq<Key>, added: seq<Content>, data: map<Key, Value>)

  /** An entry of `cache_data_vec`: the data, and the position of its fetch. */
  datatype CacheDataItem = CacheDataItem(data: map<Key, Value>, fetch: nat)

  function Added(outcomes: seq<Outcome>): seq<Content> {
    if outcomes == [] then [] else Added(outcomes[..|outcomes| - 1]) + outcomes[|outcomes| - 1].added
  }

  function Items(outcomes: seq<Outcome>): seq<CacheDataItem> {
    if outcomes == [] then []
    else
      var n := |outcomes| - 1;
      Items(outcomes[..n]) + if outcomes[n].data != map[] then [CacheDataItem(outcomes[n].data, n)] else []
  }

  /** There is an item for each fetch with cached data, in the order of the fetches. */
  lemma {:induction false} ItemsInOrder(outcomes: seq<Outcome>)
    ensures forall a, b :: 0 <= a < b < |Items(outcomes)| ==> Items(outcomes)[a].fetch < Items(outcomes)[b].fetch
    ensures forall item :: item in Items(outcomes) <==>
              item.fetch < |outcomes| && item.data == outcomes[item.fetch].data && item.data != map[]
  {
    if outcomes != [] {
      ItemsInOrder(outcomes[..|outcomes| - 1]);
    }
  }

  ghost predicate RoundOk(c: Config, before: seq<Key>, input: Input, o: Outcome) {
    InputOk(input) && MadeUp(c, before, input, o.after, o.added, o.data)
  }

  ghost predicate RoundAt(contents: seq<Content>, inputs: seq<Input>, outcomes: seq<Outcome>, j: nat)
    requires j < |outcomes| <= |contents| && |outcomes| <= |inputs|
  {
    RoundOk(contents[j].config, contents[j].keys, inputs[j], outcomes[j])
  }

  /** Each fetch was made up from its own contents and input. */
  ghost predicate Rounds(contents: seq<Content>, inputs: seq<Input>, outcomes: seq<Outcome>)
    requires |outcomes| <= |contents| && |outcomes| <= |inputs|
  {
    forall j: nat {:trigger RoundAt(contents, inputs, outcomes, j)} :: j < |outcomes| ==> RoundAt(contents, inputs, outcomes, j)
  }

  lemma OneMoreRound(contents: seq<Content>, inputs: seq<Input>, outcomes: seq<Outcome>, o: Outcome)
    requires |outcomes| < |contents| && |outcomes| < |inputs| && Rounds(contents, inputs, outcomes)
    requires RoundOk(contents[|outcomes|].config, contents[|outcomes|].keys, inputs[|outcomes|], o)
    ensures Rounds(contents, inputs, outcomes + [o])
    ensures Added(outcomes + [o]) == Added(outcomes) + o.added
    ensures Items(outcomes + [o]) == Items(outcomes) + if o.data != map[] then [CacheDataItem(o.data, |outcomes|)] else []
  {
    assert (outcomes + [o])[..|outcomes|] == outcomes;
    forall j: nat | j <= |outcomes| ensures RoundAt(contents, inputs, outcomes + [o], j) {
      if j < |outcomes| {
        assert RoundAt(contents, inputs, outcomes, j);
      }
    }
  }

  /** `fetch_info.id = std::to_string(i)` */
  method AssignIds(infos: seq<FetchInfo>)
    requires AllNew(infos)
    modifies infos`id
    ensures forall k :: 0 <= k < |infos| ==> infos[k].id == k
  {
    for i := 0 to |infos|
      invariant forall k :: 0 <= k < i ==> infos[k].id == k
    {
      infos[i].id := i;
    }
  }

  /** One round, seen from the vector: only the fetch at position i changes. */
  method Round(fetchInfoVec: seq<FetchInfo>, i: nat, input: Input) returns (added: seq<FetchInfo>, ghost o: Outcome, data: map<Key, Value>)
    requires AllNew(fetchInfoVec) && i < |fetchInfoVec| && InputOk(input)
    modifies {fetchInfoVec[i]}`keys
    ensures RoundOk(fetchInfoVec[i].config, old(fetchInfoVec[i].keys), input, o)
    ensures fetchInfoVec[i].keys == o.after && Hold(added, o.added) && data == o.data
    ensures forall j :: 0 <= j < |fetchInfoVec| && j != i ==> fetchInfoVec[j].keys == old(fetchInfoVec[j].keys)
    ensures AllNew(added) && forall k :: 0 <= k < |added| ==> fresh(added[k])
  {
    forall j | 0 <= j < |fetchInfoVec| && j != i ensures fetchInfoVec[j] != fetchInfoVec[i] {
      assert j < i || i < j;
    }
    added, data := MakeUpOne(fetchInfoVec[i], input);
    o := Outcome(fetchInfoVec[i].keys, ContentsOf(added), data);
  }

  /** The first loop. */
  method MakeUpEach(fetchInfoVec: seq<FetchInfo>, inputs: seq<Input>)
    returns (addFetchInfoVec: seq<FetchInfo>, cacheDataVec: seq<CacheDataItem>, ghost outcomes: seq<Outcome>)
    requires AllNew(fetchInfoVec) && |inputs| == |fetchInfoVec|
    requires forall i :: 0 <= i < |inputs| ==> InputOk(inputs[i])
    modifies fetchInfoVec`keys
    ensures |outcomes| == |fetchInfoVec| && Rounds(old(ContentsOf(fetchInfoVec)), inputs, outcomes)
    ensures forall i :: 0 <= i < |outcomes| ==> fetchInfoVec[i].keys == outcomes[i].after
    ensures forall k :: 0 <= k < |addFetchInfoVec| ==> fresh(addFetchInfoVec[k])
    ensures AllNew(addFetchInfoVec) && Hold(addFetchInfoVec, Added(outcomes))
    ensures cacheDataVec == Items(outcomes)
  {
    ghost var contents := ContentsOf(fetchInfoVec);
    addFetchInfoVec, cacheDataVec, outcomes := [], [], [];
    for i := 0 to |fetchInfoVec|
      invariant |outcomes| == i && cacheDataVec == Items(outcomes) && Rounds(contents, inputs, outcomes)
      invariant forall j :: 0 <= j < i ==> fetchInfoVec[j].keys == outcomes[j].after
      invariant forall j :: i <= j < |fetchInfoVec| ==> fetchInfoVec[j].keys == contents[j].keys
      invariant forall k :: 0 <= k < |addFetchInfoVec| ==> fresh(addFetchInfoVec[k])
      invariant AllNew(addFetchInfoVec)
      invariant Hold(addFetchInfoVec, Added(outcomes))
    {
      var added, o, data := Round(fetchInfoVec, i, inputs[i]);
      if data != map[] {
        cacheDataVec := cacheDataVec + [CacheDataItem(data, i)];
      }
      HoldAppend(addFetchInfoVec, added, Added(outcomes), o.added);
      OneMoreRound(contents, inputs, outcomes, o);
      addFetchInfoVec, outcomes := addFetchInfoVec + added, outcomes + [o];
    }
  }

  /** The whole function.  Every fetch of the request is made up from its own input; the fetches that were added stand
      behind them, in the order in which they were split off; all get their positions as ids; and the cached data is
      listed fetch by fetch. */
  method MakeUpFetchInfoVec(fetchInfoVec: seq<FetchInfo>, inputs: seq<Input>)
    returns (all: seq<FetchInfo>, cacheDataVec: seq<CacheDataItem>, ghost outcomes: seq<Outcome>)
    requires AllNew(fetchInfoVec) && |inputs| == |fetchInfoVec|
    requires forall i :: 0 <= i < |inputs| ==> InputOk(inputs[i])
    modifies fetchInfoVec
    ensures |outcomes| == |fetchInfoVec| && Rounds(old(ContentsOf(fetchInfoVec)), inputs, outcomes)
    ensures forall i :: 0 <= i < |outcomes| ==> fetchInfoVec[i].keys == outcomes[i].after
    ensures |all| == |fetchInfoVec| + |Added(outcomes)| && all[..|fetchInfoVec|] == fetchInfoVec
    ensures forall k :: 0 <= k < |Added(outcomes)| ==> all[|fetchInfoVec| + k].Contents() == Added(outcomes)[k]
    ensures AllNew(all) && forall k :: 0 <= k < |all| ==> all[k].id == k
    ensures cacheDataVec == Items(outcomes)
  {
    var addFetchInfoVec;
    addFetchInfoVec, cacheDataVec, outcomes := MakeUpEach(fetchInfoVec, inputs);
    all := fetchInfoVec + addFetchInfoVec;
    assert forall k :: 0 <= k < |addFetchInfoVec| ==> all[|fetchInfoVec| + k] == addFetchInfoVec[k];
    AssignIds(all);
  }

  // ------------------------------------------------------------------ the request as a whole

  /** The keys asked for by the first n fetches: what the generator made, or what was there when it is missing. */
  function Asked(contents: seq<Content>, inputs: seq<Input>, n: nat): multiset<Key>
    requires n <= |contents| && n <= |inputs|
  {
    if n == 0 then multiset{}
    else Asked(contents, inputs, n - 1) + multiset(inputs[n - 1].generated.GetOr(contents[n - 1].keys))
  }

  /** The keys that the cache had for them. */
  function FromCache(contents: seq<Content>, inputs: seq<Input>, n: nat): multiset<Key>
    requires n <= |contents| && n <= |inputs| && forall i :: 0 <= i < n ==> InputOk(inputs[i])
  {
    if n == 0 then multiset{}
    else
      FromCache(contents, inputs, n - 1) +
      if inputs[n - 1].generated.Some? then multiset(CacheHits(contents[n - 1].config, inputs[n - 1])) else multiset{}
  }

  function Kept(outcomes: seq<Outcome>): multiset<Key> {
    if outcomes == [] then multiset{} else Kept(outcomes[..|outcomes| - 1]) + multiset(outcomes[|outcomes| - 1].after)
  }

  lemma AddedSum(outcomes: seq<Outcome>)
    requires outcomes != []
    ensures var n := |outcomes| - 1;
            Sum(KeysOf(Added(outcomes))) == Sum(KeysOf(Added(outcomes[..n]))) + Sum(KeysOf(outcomes[n].added))
  {
    var n := |outcomes| - 1;
    var earlier, last := Added(outcomes[..n]), outcomes[n].added;
    assert KeysOf(earlier + last) == KeysOf(earlier) + KeysOf(last);
    SumConcat(KeysOf(earlier), KeysOf(last));
  }

  lemma RoundConserves(c: Config, before: seq<Key>, input: Input, o: Outcome)
    requires RoundOk(c, before, input, o)
    ensures multiset(input.generated.GetOr(before)) ==
      (if input.generated.Some? then multiset(CacheHits(c, input)) else multiset{}) + multiset(o.after) + Sum(KeysOf(o.added))
  {
    if input.generated.Some? {
      KeysAreConserved(c, before, input, o.after, o.added, o.data);
    }
  }

  lemma FewerRounds(contents: seq<Content>, inputs: seq<Input>, outcomes: seq<Outcome>, n: nat)
    requires n <= |outcomes| <= |contents| && |outcomes| <= |inputs| && Rounds(contents, inputs, outcomes)
    ensures Rounds(contents, inputs, outcomes[..n])
  {
    forall j: nat | j < n ensures RoundAt(contents, inputs, outcomes[..n], j) {
      assert RoundAt(contents, inputs, outcomes, j);
    }
  }

  /** Over the whole request: the keys asked for are those the cache had, those the fetches keep and those of the
      fetches added. */
  lemma {:induction false} RequestConserves(contents: seq<Content>, inputs: seq<Input>, outcomes: seq<Outcome>)
    requires |outcomes| <= |contents| && |outcomes| <= |inputs| && Rounds(contents, inputs, outcomes)
    requires forall i :: 0 <= i < |outcomes| ==> InputOk(inputs[i])
    ensures Asked(contents, inputs, |outcomes|) ==
            FromCache(contents, inputs, |outcomes|) + Kept(outcomes) + Sum(KeysOf(Added(outcomes)))
  {
    if outcomes != [] {
      var n := |outcomes| - 1;
      FewerRounds(contents, inputs, outcomes, n);
      RequestConserves(contents, inputs, outcomes[..n]);
      assert RoundAt(contents, inputs, outcomes, n);
      RoundConserves(contents[n].config, contents[n].keys, inputs[n], outcomes[n]);
      AddedSum(outcomes);
    }
  }
}
