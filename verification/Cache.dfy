/** What the local cache returns and what Redis had returned: `CacheManager`, `merge_cache_data`, and look-ups. */
module Cache {
  import opened KeyGroups
  import opened Options

  /** The store behind the manager: it may drop any of its entries at any time, and does nothing else by itself. */
  type Store = map<Key, Value>

  /** The implicit conversion of a `uint64_t` expiry to `int`. */
  function ToInt(x: nat): int {
    var low := x % 0x1_0000_0000;
    if low < 0x8000_0000 then low else low - 0x1_0000_0000
  }

  /** Whether `Set` lets a value through; None is a null pointer. */
  predicate Accepts(key: Key, value: Option<Value>, expiredTime: int) {
    key != [] && value.Some? && value.value != [] && expiredTime > 0
  }

  class CacheManager {
    var store: Store

    method Get(key: Key) returns (answer: Option<Value>)
      ensures answer == LookUp(store, key) == if key != [] && key in store then Some(store[key]) else None
    {
      if |key| == 0 {
        return None;
      }
      if key in store {
        return Some(store[key]);
      }
      return None;
    }

    method Set(key: Key, value: Option<Value>, expiredTime: int) returns (ret: int)
      modifies this`store
      ensures ret == 0 <==> key != [] && value.Some? && value.value != [] && expiredTime > 0
      ensures ret == 0 || (ret == -1 && store == old(store))
      ensures ret == 0 ==> store == old(store)[key := value.value]
      ensures ret == 0 <==> Accepts(key, value, expiredTime)
    {
      if |key| == 0 || value.None? || |value.value| == 0 || expiredTime <= 0 {
        return -1;
      }
      store := store[key := value.value];
      return 0;
    }

    /** `merge_cache_data`: the replies of every fetch that uses the cache are stored in order; nil as a space.  It
        dereferences the `fetch_info_ptr` of every first cell, and so does not survive one that no callback has
        filled. */
    method MergeCacheData(results: seq<FetchResult>) returns (crashed: bool)
      requires forall f :: 0 <= f < |results| ==> ResultOk(results[f])
      modifies this`store
      ensures crashed <==> exists f :: 0 <= f < |results| && NullFirst(results[f])
      ensures MergedUpTo(old(store), store, results, BeforeNull(results))
    {
      ghost var n := BeforeNull(results);
      NothingMerged(store, results);
      for f := 0 to |results|
        invariant f <= n
        invariant MergedUpTo(old(store), store, results, f)
      {
        if |results[f].items| != 0 && !results[f].items[0].filled {
          assert f == n;
          return true;
        }
        MergeNext(results, f, old(store));
      }
      return false;
    }

    method MergeNext(results: seq<FetchResult>, f: nat, ghost start: Store)
      requires f < |results| && (forall g :: 0 <= g < |results| ==> ResultOk(results[g])) && MergedUpTo(start, store, results, f)
      modifies this`store
      ensures MergedUpTo(start, store, results, f + 1)
    {
      OneMoreFetch(start, results, f);
      MergeIfCached(results[f]);
    }

    method MergeIfCached(result: FetchResult)
      requires ResultOk(result)
      modifies this`store
      ensures store == AfterAll(old(store), FetchReplies(result))
    {
      if |result.items| != 0 && result.useCache {
        MergeFetch(result);
      }
    }

    method MergeFetch(result: FetchResult)
      requires ResultOk(result) && result.useCache
      modifies this`store
      ensures store == AfterAll(old(store), FetchReplies(result))
    {
      for b := 0 to |result.items|
        invariant store == AfterAll(old(store), ItemReplies(result, b))
      {
        AfterAppend(old(store), ItemReplies(result, b), BatchReplies(result, result.items[b], |result.items[b].values|));
        MergeBatch(result, b);
      }
    }

    method MergeBatch(result: FetchResult, b: nat)
      requires ResultOk(result) && b < |result.items|
      modifies this`store
      ensures store == AfterAll(old(store), BatchReplies(result, result.items[b], |result.items[b].values|))
    {
      var item := result.items[b];
      for i := 0 to |item.values|
        invariant store == AfterAll(old(store), BatchReplies(result, item, i))
      {
        var value := item.values[i];
        if value.None? {
          value := Some([0x20]);
        }
        AfterLast(old(store), BatchReplies(result, item, i), ReplyAt(result, item, i));
        var _ := Set(result.keys[item.start + i], value, ToInt(result.expireTime));
      }
    }
  }

  function LookUp(store: Store, key: Key): Option<Value> {
    if key != [] && key in store then Some(store[key]) else None
  }

  // ------------------------------------------------------------------ replies

  /** A result cell: whether a callback has filled it, where the keys of its batch start, and what Redis returned for
      each, None for nil. */
  datatype BatchResult = BatchResult(filled: bool, start: nat, values: seq<Option<Value>>)

  datatype FetchResult = FetchResult(useCache: bool, expireTime: nat, keys: seq<Key>, items: seq<BatchResult>)

  /** No reply is longer than its command asked for, and a cell that was not filled has none. */
  predicate ResultOk(result: FetchResult) {
    forall b :: 0 <= b < |result.items| ==>
      && result.items[b].start + |result.items[b].values| <= |result.keys|
      && (!result.items[b].filled ==> result.items[b].values == [])
  }

  /** The fetch has result cells, and the first has no `fetch_info_ptr`. */
  predicate NullFirst(result: FetchResult) {
    |result.items| != 0 && !result.items[0].filled
  }

  /** How many results precede the first such fetch. */
  function BeforeNull(results: seq<FetchResult>): (n: nat)
    ensures n <= |results| && (n < |results| ==> NullFirst(results[n]))
    ensures forall f :: 0 <= f < n ==> !NullFirst(results[f])
  {
    if results == [] || NullFirst(results[0]) then 0 else 1 + BeforeNull(results[1..])
  }

  /** One value that Redis returned for a key, and the expiry it is to be cached with. */
  datatype Reply = Reply(key: Key, value: Option<Value>, expire: int)

  function ReplyAt(result: FetchResult, item: BatchResult, i: nat): Reply
    requires i < |item.values| && item.start + |item.values| <= |result.keys|
  {
    Reply(result.keys[item.start + i], item.values[i], ToInt(result.expireTime))
  }

  function BatchReplies(result: FetchResult, item: BatchResult, n: nat): seq<Reply>
    requires n <= |item.values| && item.start + |item.values| <= |result.keys|
  {
    if n == 0 then [] else BatchReplies(result, item, n - 1) + [ReplyAt(result, item, n - 1)]
  }

  function ItemReplies(result: FetchResult, n: nat): seq<Reply>
    requires ResultOk(result) && n <= |result.items|
  {
    if n == 0 then []
    else ItemReplies(result, n - 1) + BatchReplies(result, result.items[n - 1], |result.items[n - 1].values|)
  }

  /** What is merged of a fetch: every reply, when the fetch uses the cache. */
  function FetchReplies(result: FetchResult): seq<Reply>
    requires ResultOk(result)
  {
    if result.useCache then ItemReplies(result, |result.items|) else []
  }

  function AllReplies(results: seq<FetchResult>): seq<Reply>
    requires forall f :: 0 <= f < |results| ==> ResultOk(results[f])
  {
    if results == [] then [] else AllReplies(results[..|results| - 1]) + FetchReplies(results[|results| - 1])
  }

  /** The first n results have been merged. */
  ghost predicate MergedUpTo(start: Store, now: Store, results: seq<FetchResult>, n: nat)
    requires n <= |results| && forall g :: 0 <= g < |results| ==> ResultOk(results[g])
  {
    now == AfterAll(start, AllReplies(results[..n]))
  }

  lemma NothingMerged(store: Store, results: seq<FetchResult>)
    requires forall g :: 0 <= g < |results| ==> ResultOk(results[g])
    ensures MergedUpTo(store, store, results, 0)
  {
    assert results[..0] == [];
  }

  lemma OneMoreFetch(store: Store, results: seq<FetchResult>, f: nat)
    requires f < |results| && forall g :: 0 <= g < |results| ==> ResultOk(results[g])
    ensures AfterAll(store, AllReplies(results[..f + 1])) ==
            AfterAll(AfterAll(store, AllReplies(results[..f])), FetchReplies(results[f]))
  {
    assert results[..f + 1][..f] == results[..f];
    AfterAppend(store, AllReplies(results[..f]), FetchReplies(results[f]));
  }

  /** nil is stored as a space. */
  function Stored(value: Option<Value>): Value {
    if value.None? then [0x20] else value.value
  }

  predicate IsStored(r: Reply) {
    Accepts(r.key, Some(Stored(r.value)), r.expire)
  }

  function After(store: Store, r: Reply): Store {
    if IsStored(r) then store[r.key := Stored(r.value)] else store
  }

  function AfterAll(store: Store, rs: seq<Reply>): Store {
    if rs == [] then store else After(AfterAll(store, rs[..|rs| - 1]), rs[|rs| - 1])
  }

  lemma AfterLast(store: Store, rs: seq<Reply>, r: Reply)
    ensures AfterAll(store, rs + [r]) == After(AfterAll(store, rs), r)
  {
    assert (rs + [r])[..|rs|] == rs;
  }

  lemma {:induction false} AfterAppend(store: Store, a: seq<Reply>, b: seq<Reply>)
    ensures AfterAll(store, a + b) == AfterAll(AfterAll(store, a), b)
  {
    if b == [] {
      assert a + b == a;
    } else {
      assert (a + b)[..|a + b| - 1] == a + b[..|b| - 1];
      AfterAppend(store, a, b[..|b| - 1]);
    }
  }

  // ------------------------------------------------------------------ agreement

  /** What happens to the cache: a reply is merged, or the store drops some of its entries. */
  datatype Event = Merged(reply: Reply) | Dropped(keys: set<Key>)

  function Run(events: seq<Event>): Store {
    if events == [] then map[]
    else
      var before := Run(events[..|events| - 1]);
      match events[|events| - 1]
      case Merged(r) => After(before, r)
      case Dropped(keys) => before - keys
  }

  /** The last reply for the key that was stored. */
  function LastStored(events: seq<Event>, key: Key): Option<Reply> {
    if events == [] then None
    else
      match events[|events| - 1]
      case Merged(r) => if r.key == key && IsStored(r) then Some(r) else LastStored(events[..|events| - 1], key)
      case Dropped(_) => LastStored(events[..|events| - 1], key)
  }

  /** What a reply means to the reader: nil is an empty value. */
  function Meaning(value: Option<Value>): Value {
    value.GetOr([])
  }

  /** Agreement: whatever was merged and dropped before, a hit is read as the value that Redis last returned and stored
      for the key, nil as empty; only a value of a single space is read as empty too. */
  lemma {:induction false} HitIsLastStored(events: seq<Event>, key: Key)
    requires LookUp(Run(events), key).Some?
    ensures var r := LastStored(events, key);
            && r.Some? && r.value.key == key
            && Read(LookUp(Run(events), key).value) == if r.value.value == Some([0x20]) then [] else Meaning(r.value.value)
  {
    var before := events[..|events| - 1];
    match events[|events| - 1]
    case Merged(r) =>
      if r.key == key && IsStored(r) {
      } else {
        HitIsLastStored(before, key);
      }
    case Dropped(_) => HitIsLastStored(before, key);
  }

  /** The i-th event stored a value for the key, and no later one dropped it. */
  ghost predicate StoredAndKept(events: seq<Event>, key: Key, i: nat) {
    && i < |events| && events[i].Merged? && events[i].reply.key == key && IsStored(events[i].reply)
    && forall j :: i < j < |events| && events[j].Dropped? ==> key !in events[j].keys
  }

  /** And nothing is forgotten: the cache answers for a key exactly when a value was stored for it and not dropped
      since. */
  lemma {:induction false} HitIff(events: seq<Event>, key: Key)
    requires key != []
    ensures LookUp(Run(events), key).Some? <==> exists i: nat :: StoredAndKept(events, key, i)
  {
    if events != [] {
      var n := |events| - 1;
      var before := events[..n];
      HitIff(before, key);
      forall i: nat | i < n ensures
        StoredAndKept(events, key, i) <==> StoredAndKept(before, key, i) && (events[n].Dropped? ==> key !in events[n].keys)
      {
        assert forall j :: i < j < n ==> events[j] == before[j];
      }
      if StoredAndKept(events, key, n) {
      } else if i: nat :| StoredAndKept(events, key, i) {
        assert i < n;
      } else if i: nat :| StoredAndKept(before, key, i) {
        assert !StoredAndKept(events, key, i);
      }
    }
  }

  /** Through the look-ups of a fetch, each made at its own moment: what is delivered for a key is the value that Redis
      last returned and stored for it before one of its look-ups. */
  lemma DeliveredIsLastStored(keys: seq<Key>, answers: seq<Option<Value>>, moments: seq<seq<Event>>, k: Key) returns (i: nat)
    requires |keys| == |answers| == |moments|
    requires forall j :: 0 <= j < |keys| ==> answers[j] == LookUp(Run(moments[j]), keys[j])
    requires k in DataMap(keys, answers)
    ensures i < |keys| && keys[i] == k
    ensures var r := LastStored(moments[i], k);
            && r.Some? && r.value.key == k
            && DataMap(keys, answers)[k] == if r.value.value == Some([0x20]) then [] else Meaning(r.value.value)
  {
    i := DeliveredValue(keys, answers, k);
    HitIsLastStored(moments[i], k);
  }

  /** After the merge of a reply, a hit on its key is read as that reply. */
  ghost predicate ReadsBack(r: Reply, before: Store) {
    LookUp(After(before, r), r.key).Some? ==> Read(LookUp(After(before, r), r.key).value) == Meaning(r.value)
  }

  /** A merged reply is what later hits return, whatever the cache held before, exactly when it is stored and is not a
      single space.  (The empty key is never looked up.) */
  lemma ReadsBackIff(r: Reply)
    ensures (forall before :: ReadsBack(r, before)) <==> r.key == [] || (IsStored(r) && r.value != Some([0x20]))
  {
    if r.key != [] && !(IsStored(r) && r.value != Some([0x20])) {
      var other: Value := if Meaning(r.value) == [0x31] then [0x32] else [0x31];
      assert !ReadsBack(r, map[r.key := other]);
    }
  }

  /** An empty value is not stored, so an older one is returned instead: after "x" and then "" for a key, the cache
      answers "x". */
  lemma EmptyReplyLeavesOldValue(key: Key)
    requires key != []
    ensures var events := [Merged(Reply(key, Some([0x78]), 1)), Merged(Reply(key, Some([]), 1))];
            LookUp(Run(events), key) == Some([0x78])
  {
    var events := [Merged(Reply(key, Some([0x78]), 1)), Merged(Reply(key, Some([]), 1))];
    assert events[..1] == [Merged(Reply(key, Some([0x78]), 1))];
    assert events[..1][..0] == [];
  }
}
