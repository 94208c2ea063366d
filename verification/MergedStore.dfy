/** What `merge_cache_data` leaves in the store, position by position of the results. */
module MergedStore {
  import opened Cache
  import opened KeyGroups
  import opened Options

  /** The i-th value of the b-th batch of a fetch. */
  predicate IsValue(result: FetchResult, b: nat, i: nat) {
    ResultOk(result) && b < |result.items| && i < |result.items[b].values|
  }

  /** The key it was asked for with. */
  function KeyOf(result: FetchResult, b: nat, i: nat): Key
    requires IsValue(result, b, i)
  {
    result.keys[result.items[b].start + i]
  }

  /** What is stored for it; nil as a space. */
  function ValueOf(result: FetchResult, b: nat, i: nat): Value
    requires IsValue(result, b, i)
  {
    match result.items[b].values[i]
    case None => [0x20]
    case Some(value) => value
  }

  /** The expiry as the cache sees it, in a signed word of 32 bits, is positive. */
  predicate Expires(expireTime: nat) {
    0 < expireTime % 0x1_0000_0000 < 0x8000_0000
  }

  /** Whether the cache takes it. */
  predicate Taken(result: FetchResult, b: nat, i: nat)
    requires IsValue(result, b, i)
  {
    KeyOf(result, b, i) != [] && ValueOf(result, b, i) != [] && Expires(result.expireTime)
  }

  /** The value is taken for key k. */
  predicate TakenFor(result: FetchResult, b: nat, i: nat, k: Key) {
    IsValue(result, b, i) && Taken(result, b, i) && KeyOf(result, b, i) == k
  }

  predicate Holds(store: Store, k: Key, value: Value) {
    k in store && store[k] == value
  }

  predicate SameAt(before: Store, after: Store, k: Key) {
    (k in before <==> k in after) && (k in before ==> k in after && before[k] == after[k])
  }

  // ------------------------------------------------------------------ one batch, one fetch, all fetches

  lemma OneReply(result: FetchResult, b: nat, i: nat, store: Store, k: Key)
    requires IsValue(result, b, i)
    ensures var after := After(store, ReplyAt(result, result.items[b], i));
            if TakenFor(result, b, i, k) then Holds(after, k, ValueOf(result, b, i)) else SameAt(store, after, k)
  {
  }

  /** Of the first n values of a batch the i-th is the last that is taken for k; or none is. */
  ghost predicate LastInBatch(result: FetchResult, b: nat, n: nat, before: Store, after: Store, k: Key, i: Option<nat>) {
    match i
    case None =>
      && SameAt(before, after, k)
      && forall j: nat {:trigger TakenFor(result, b, j, k)} :: j < n ==> !TakenFor(result, b, j, k)
    case Some(l) =>
      && l < n && TakenFor(result, b, l, k) && Holds(after, k, ValueOf(result, b, l))
      && forall j: nat {:trigger TakenFor(result, b, j, k)} :: l < j < n ==> !TakenFor(result, b, j, k)
  }

  lemma OneMoreValue(result: FetchResult, b: nat, n: nat, store: Store, earlier: Store, after: Store, k: Key, i: Option<nat>)
    requires IsValue(result, b, n) && LastInBatch(result, b, n, store, earlier, k, i)
    requires if TakenFor(result, b, n, k) then Holds(after, k, ValueOf(result, b, n)) else SameAt(earlier, after, k)
    ensures LastInBatch(result, b, n + 1, store, after, k, if TakenFor(result, b, n, k) then Some(n) else i)
  {
  }

  lemma {:induction false} BatchMerged(result: FetchResult, b: nat, n: nat, store: Store, k: Key) returns (i: Option<nat>)
    requires ResultOk(result) && b < |result.items| && n <= |result.items[b].values|
    ensures LastInBatch(result, b, n, store, AfterAll(store, BatchReplies(result, result.items[b], n)), k, i)
  {
    if n == 0 {
      i := None;
    } else {
      i := BatchMerged(result, b, n - 1, store, k);
      var replies, reply := BatchReplies(result, result.items[b], n - 1), ReplyAt(result, result.items[b], n - 1);
      var earlier := AfterAll(store, replies);
      AfterLast(store, replies, reply);
      OneReply(result, b, n - 1, earlier, k);
      OneMoreValue(result, b, n - 1, store, earlier, After(earlier, reply), k, i);
      i := if TakenFor(result, b, n - 1, k) then Some(n - 1) else i;
    }
  }

  predicate LaterIn(b: nat, i: nat, c: nat, j: nat) {
    b < c || (b == c && i < j)
  }

  /** The same for the first n batches of a fetch. */
  ghost predicate LastInFetch(result: FetchResult, n: nat, before: Store, after: Store, k: Key, at: Option<(nat, nat)>) {
    match at
    case None =>
      && SameAt(before, after, k)
      && forall c: nat, j: nat {:trigger TakenFor(result, c, j, k)} :: c < n ==> !TakenFor(result, c, j, k)
    case Some((b, i)) =>
      && b < n && TakenFor(result, b, i, k) && Holds(after, k, ValueOf(result, b, i))
      && forall c: nat, j: nat {:trigger TakenFor(result, c, j, k)} ::
           c < n && LaterIn(b, i, c, j) ==> !TakenFor(result, c, j, k)
  }

  lemma OneMoreBatch(result: FetchResult, n: nat, store: Store, earlier: Store, after: Store, k: Key,
                     at: Option<(nat, nat)>, i: Option<nat>)
    requires n < |result.items|
    requires LastInFetch(result, n, store, earlier, k, at) && LastInBatch(result, n, |result.items[n].values|, earlier, after, k, i)
    ensures LastInFetch(result, n + 1, store, after, k, if i.Some? then Some((n, i.value)) else at)
  {
  }

  lemma {:induction false} FetchMerged(result: FetchResult, n: nat, store: Store, k: Key) returns (at: Option<(nat, nat)>)
    requires ResultOk(result) && n <= |result.items|
    ensures LastInFetch(result, n, store, AfterAll(store, ItemReplies(result, n)), k, at)
  {
    if n == 0 {
      at := None;
    } else {
      at := FetchMerged(result, n - 1, store, k);
      var earlier := AfterAll(store, ItemReplies(result, n - 1));
      var batch := BatchReplies(result, result.items[n - 1], |result.items[n - 1].values|);
      AfterAppend(store, ItemReplies(result, n - 1), batch);
      var i := BatchMerged(result, n - 1, |result.items[n - 1].values|, earlier, k);
      OneMoreBatch(result, n - 1, store, earlier, AfterAll(earlier, batch), k, at, i);
      at := if i.Some? then Some((n - 1, i.value)) else at;
    }
  }

  /** The fetch uses the cache, and the value is taken for k. */
  predicate MergedFor(results: seq<FetchResult>, f: nat, b: nat, i: nat, k: Key) {
    f < |results| && results[f].useCache && TakenFor(results[f], b, i, k)
  }

  predicate Later(f: nat, b: nat, i: nat, g: nat, c: nat, j: nat) {
    f < g || (f == g && LaterIn(b, i, c, j))
  }

  /** The last value that is merged for k. */
  ghost predicate IsLast(results: seq<FetchResult>, f: nat, b: nat, i: nat, k: Key) {
    && MergedFor(results, f, b, i, k)
    && forall g: nat, c: nat, j: nat {:trigger MergedFor(results, g, c, j, k)} ::
         Later(f, b, i, g, c, j) ==> !MergedFor(results, g, c, j, k)
  }

  ghost predicate NotMerged(results: seq<FetchResult>, k: Key) {
    forall g: nat, c: nat, j: nat {:trigger MergedFor(results, g, c, j, k)} :: !MergedFor(results, g, c, j, k)
  }

  ghost predicate LastInAll(results: seq<FetchResult>, before: Store, after: Store, k: Key, at: Option<(nat, nat, nat)>) {
    match at
    case None => SameAt(before, after, k) && NotMerged(results, k)
    case Some((f, b, i)) => IsLast(results, f, b, i, k) && Holds(after, k, ValueOf(results[f], b, i))
  }

  lemma FewerFetches(results: seq<FetchResult>, n: nat, g: nat, c: nat, j: nat, k: Key)
    requires n <= |results|
    ensures g < n ==> (MergedFor(results, g, c, j, k) <==> MergedFor(results[..n], g, c, j, k))
  {
  }

  /** A fetch that does not use the cache changes nothing. */
  lemma UnusedFetch(results: seq<FetchResult>, store: Store, after: Store, k: Key, at: Option<(nat, nat, nat)>)
    requires results != [] && !results[|results| - 1].useCache && LastInAll(results[..|results| - 1], store, after, k, at)
    ensures LastInAll(results, store, after, k, at)
  {
    var n := |results| - 1;
    forall g: nat, c: nat, j: nat | MergedFor(results, g, c, j, k) ensures MergedFor(results[..n], g, c, j, k) {
      FewerFetches(results, n, g, c, j, k);
    }
  }

  lemma OneMoreFetchNone(results: seq<FetchResult>, store: Store, earlier: Store, after: Store, k: Key, at: Option<(nat, nat, nat)>)
    requires results != [] && LastInAll(results[..|results| - 1], store, earlier, k, at)
    requires var last := results[|results| - 1]; LastInFetch(last, |last.items|, earlier, after, k, None)
    ensures LastInAll(results, store, after, k, at)
  {
    var n := |results| - 1;
    forall g: nat, c: nat, j: nat | MergedFor(results, g, c, j, k) ensures MergedFor(results[..n], g, c, j, k) {
      FewerFetches(results, n, g, c, j, k);
    }
  }

  lemma OneMoreFetchSome(results: seq<FetchResult>, store: Store, earlier: Store, after: Store, k: Key, b: nat, i: nat)
    requires results != [] && results[|results| - 1].useCache
    requires var last := results[|results| - 1]; LastInFetch(last, |last.items|, earlier, after, k, Some((b, i)))
    ensures LastInAll(results, store, after, k, Some((|results| - 1, b, i)))
  {
  }

  lemma {:induction false} AllMerged(results: seq<FetchResult>, store: Store, k: Key) returns (at: Option<(nat, nat, nat)>)
    requires forall f :: 0 <= f < |results| ==> ResultOk(results[f])
    ensures LastInAll(results, store, AfterAll(store, AllReplies(results)), k, at)
  {
    if results == [] {
      at := None;
    } else {
      var n := |results| - 1;
      var before, last := results[..n], results[n];
      at := AllMerged(before, store, k);
      var earlier := AfterAll(store, AllReplies(before));
      AfterAppend(store, AllReplies(before), FetchReplies(last));
      var after := AfterAll(earlier, FetchReplies(last));
      if last.useCache {
        var inLast := FetchMerged(last, |last.items|, earlier, k);
        match inLast {
          case None => OneMoreFetchNone(results, store, earlier, after, k, at);
          case Some((b, i)) =>
            OneMoreFetchSome(results, store, earlier, after, k, b, i);
            at := Some((n, b, i));
        }
      } else {
        UnusedFetch(results, store, after, k, at);
      }
    }
  }

  // ------------------------------------------------------------------ the law

  /** Every key has the last value that was merged for it, and a key for which none was merged is as before. */
  ghost predicate MergedInto(results: seq<FetchResult>, before: Store, after: Store) {
    && (forall f: nat, b: nat, i: nat, k: Key {:trigger IsLast(results, f, b, i, k)} ::
          IsLast(results, f, b, i, k) ==> Holds(after, k, ValueOf(results[f], b, i)))
    && (forall k: Key {:trigger NotMerged(results, k)} :: NotMerged(results, k) ==> SameAt(before, after, k))
  }

  lemma RepliesAreMerged(results: seq<FetchResult>, store: Store)
    requires forall f :: 0 <= f < |results| ==> ResultOk(results[f])
    ensures MergedInto(results, store, AfterAll(store, AllReplies(results)))
  {
    var after := AfterAll(store, AllReplies(results));
    forall f: nat, b: nat, i: nat, k: Key | IsLast(results, f, b, i, k) ensures Holds(after, k, ValueOf(results[f], b, i)) {
      var at := AllMerged(results, store, k);
      assert at.Some?;
      var (g, c, j) := at.value;
      assert Later(f, b, i, g, c, j) || Later(g, c, j, f, b, i) || (f == g && b == c && i == j);
    }
    forall k | NotMerged(results, k) ensures SameAt(store, after, k) {
      var at := AllMerged(results, store, k);
    }
  }

  lemma FirstAreMerged(results: seq<FetchResult>, n: nat, before: Store, after: Store)
    requires n <= |results| && (forall f :: 0 <= f < |results| ==> ResultOk(results[f])) && MergedUpTo(before, after, results, n)
    ensures MergedInto(results[..n], before, after)
  {
    RepliesAreMerged(results[..n], before);
  }

  /** What `MergeCacheData` leaves in the store, by its contract. */
  lemma MergeMeaning(results: seq<FetchResult>, before: Store, after: Store)
    requires forall f :: 0 <= f < |results| ==> ResultOk(results[f])
    requires MergedUpTo(before, after, results, BeforeNull(results))
    ensures MergedInto(results[..BeforeNull(results)], before, after)
    ensures (forall f :: 0 <= f < |results| ==> !NullFirst(results[f])) ==> MergedInto(results, before, after)
  {
    var n := BeforeNull(results);
    FirstAreMerged(results, n, before, after);
    if n == |results| {
      assert results[..n] == results;
    }
  }

  /** No key is asked for twice. */
  ghost predicate KeysDiffer(results: seq<FetchResult>) {
    forall f: nat, b: nat, i: nat, g: nat, c: nat, j: nat | SameKey(results, f, b, i, g, c, j) :: f == g && b == c && i == j
  }

  predicate SameKey(results: seq<FetchResult>, f: nat, b: nat, i: nat, g: nat, c: nat, j: nat) {
    && f < |results| && g < |results| && IsValue(results[f], b, i) && IsValue(results[g], c, j)
    && KeyOf(results[f], b, i) == KeyOf(results[g], c, j)
  }

  /** With no key asked for twice, every value of a fetch that uses the cache is stored under its own key, if key and value
      are not empty and the expiry is positive, and every other key is as before. */
  lemma EachUnderItsKey(results: seq<FetchResult>, before: Store, after: Store, f: nat, b: nat, i: nat)
    requires MergedInto(results, before, after) && KeysDiffer(results)
    requires f < |results| && IsValue(results[f], b, i)
    ensures var k := KeyOf(results[f], b, i);
            if results[f].useCache && Taken(results[f], b, i) then Holds(after, k, ValueOf(results[f], b, i))
            else SameAt(before, after, k)
  {
    var k := KeyOf(results[f], b, i);
    forall g: nat, c: nat, j: nat | MergedFor(results, g, c, j, k) ensures g == f && c == b && j == i {
      assert SameKey(results, f, b, i, g, c, j);
    }
    if results[f].useCache && Taken(results[f], b, i) {
      assert IsLast(results, f, b, i, k);
    } else {
      assert NotMerged(results, k);
    }
  }

  /** A fetch of two keys in two batches, and the answers "1" and "2". */
  function TwoBatches(a: Key, b: Key): seq<FetchResult> {
    [FetchResult(true, 60, [a, b], [BatchResult(true, 0, [Some([0x31])]), BatchResult(true, 1, [Some([0x32])])])]
  }

  lemma OtherKeys(a: Key, b: Key, k: Key)
    requires k != a && k != b
    ensures NotMerged(TwoBatches(a, b), k)
  {
  }

  lemma TwoKeysDiffer(a: Key, b: Key)
    requires a != b
    ensures KeysDiffer(TwoBatches(a, b))
  {
  }

  lemma TwoValues(a: Key, b: Key, after: Store)
    requires a != [] && b != [] && a != b && MergedInto(TwoBatches(a, b), map[], after)
    ensures Holds(after, a, [0x31]) && Holds(after, b, [0x32])
  {
    TwoKeysDiffer(a, b);
    EachUnderItsKey(TwoBatches(a, b), map[], after, 0, 0, 0);
    EachUnderItsKey(TwoBatches(a, b), map[], after, 0, 1, 0);
  }

  lemma NoOtherKeys(a: Key, b: Key, after: Store)
    requires MergedInto(TwoBatches(a, b), map[], after)
    ensures forall k :: k in after ==> k == a || k == b
  {
    forall k | k != a && k != b ensures k !in after {
      OtherKeys(a, b, k);
    }
  }

  /** Each value is stored under the key of its own batch. */
  lemma TwoBatchesStored(a: Key, b: Key)
    requires a != [] && b != [] && a != b
    ensures AfterAll(map[], AllReplies(TwoBatches(a, b))) == map[a := [0x31], b := [0x32]]
  {
    var after := AfterAll(map[], AllReplies(TwoBatches(a, b)));
    RepliesAreMerged(TwoBatches(a, b), map[]);
    TwoValues(a, b, after);
    NoOtherKeys(a, b, after);
  }
}
