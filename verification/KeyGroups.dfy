/** Dividing the keys of one fetch: those the cache has, and the others by slot. */
module KeyGroups {
  import opened KeySlot
  import opened Options
  import opened Picks

  type Key = seq<bv8>
  type Value = seq<bv8>

  // ------------------------------------------------------------------ hits and misses

  /** What a cached value is read as: a single space stands for nothing. */
  function Read(stored: Value): Value {
    if stored == [0x20] then [] else stored
  }

  function Hits(keys: seq<Key>, answers: seq<Option<Value>>): seq<Key>
    requires |keys| == |answers|
  {
    if keys == [] then []
    else
      var n := |keys| - 1;
      Hits(keys[..n], answers[..n]) + if answers[n].Some? then [keys[n]] else []
  }

  function Misses(keys: seq<Key>, answers: seq<Option<Value>>): seq<Key>
    requires |keys| == |answers|
  {
    if keys == [] then []
    else
      var n := |keys| - 1;
      Misses(keys[..n], answers[..n]) + if answers[n].Some? then [] else [keys[n]]
  }

  /** The map that the hits are collected in: of several answers for one key the last remains. */
  function DataMap(keys: seq<Key>, answers: seq<Option<Value>>): map<Key, Value>
    requires |keys| == |answers|
  {
    if keys == [] then map[]
    else
      var n := |keys| - 1;
      var before := DataMap(keys[..n], answers[..n]);
      if answers[n].Some? then before[keys[n] := Read(answers[n].value)] else before
  }

  lemma {:induction false} HitsAndMisses(keys: seq<Key>, answers: seq<Option<Value>>)
    requires |keys| == |answers|
    ensures multiset(keys) == multiset(Hits(keys, answers)) + multiset(Misses(keys, answers))
  {
    if keys != [] {
      var n := |keys| - 1;
      HitsAndMisses(keys[..n], answers[..n]);
      assert keys == keys[..n] + [keys[n]];
    }
  }

  lemma {:induction false} MapHasHits(keys: seq<Key>, answers: seq<Option<Value>>)
    requires |keys| == |answers|
    ensures forall k :: k in DataMap(keys, answers) <==> k in Hits(keys, answers)
  {
    if keys != [] {
      var n := |keys| - 1;
      MapHasHits(keys[..n], answers[..n]);
    }
  }

  /** No key is lost: each is a hit or a miss, and the map has exactly the hits as keys. */
  lemma HitOrMiss(keys: seq<Key>, answers: seq<Option<Value>>)
    requires |keys| == |answers|
    ensures multiset(keys) == multiset(Hits(keys, answers)) + multiset(Misses(keys, answers))
    ensures forall k :: k in DataMap(keys, answers) <==> k in Hits(keys, answers)
  {
    HitsAndMisses(keys, answers);
    MapHasHits(keys, answers);
  }

  /** The hits are the keys that the cache answered for, in order. */
  lemma {:induction false} HitsInOrder(keys: seq<Key>, answers: seq<Option<Value>>) returns (at: seq<nat>)
    requires |keys| == |answers|
    ensures PickedAt(keys, Hits(keys, answers), at)
    ensures forall i: nat :: i in at <==> i < |keys| && answers[i].Some?
  {
    if keys == [] {
      at := [];
    } else {
      var n := |keys| - 1;
      var before := HitsInOrder(keys[..n], answers[..n]);
      at := PickMore(keys, Hits(keys[..n], answers[..n]), before, answers[n].Some?);
    }
  }

  /** The misses are the others, in order. */
  lemma {:induction false} MissesInOrder(keys: seq<Key>, answers: seq<Option<Value>>) returns (at: seq<nat>)
    requires |keys| == |answers|
    ensures PickedAt(keys, Misses(keys, answers), at)
    ensures forall i: nat :: i in at <==> i < |keys| && answers[i].None?
  {
    if keys == [] {
      at := [];
    } else {
      var n := |keys| - 1;
      var before := MissesInOrder(keys[..n], answers[..n]);
      at := PickMore(keys, Misses(keys[..n], answers[..n]), before, answers[n].None?);
    }
  }

  /** What is delivered for a key is the last answer for it, a single space read as nothing. */
  lemma {:induction false} DeliveredValue(keys: seq<Key>, answers: seq<Option<Value>>, k: Key) returns (i: nat)
    requires |keys| == |answers| && k in DataMap(keys, answers)
    ensures i < |keys| && keys[i] == k && answers[i].Some? && DataMap(keys, answers)[k] == Read(answers[i].value)
    ensures forall j :: i < j < |keys| && keys[j] == k ==> answers[j].None?
  {
    var n := |keys| - 1;
    if answers[n].Some? && keys[n] == k {
      i := n;
    } else {
      i := DeliveredValue(keys[..n], answers[..n], k);
    }
  }

  predicate Distinct(s: seq<Key>) {
    forall i, j :: 0 <= i < j < |s| ==> s[i] != s[j]
  }

  lemma {:induction false} DistinctCounts(s: seq<Key>)
    ensures Distinct(s) <==> forall k :: multiset(s)[k] <= 1
  {
    if s != [] {
      var n := |s| - 1;
      DistinctCounts(s[..n]);
      assert s == s[..n] + [s[n]];
      if s[n] in s[..n] {
        var i :| 0 <= i < n && s[i] == s[n];
        assert multiset(s)[s[n]] >= 2;
      }
      if forall k :: multiset(s)[k] <= 1 {
        forall k ensures multiset(s[..n])[k] <= 1 {
          assert multiset(s)[k] <= 1;
        }
      }
    }
  }

  /** But a key that is asked for twice and hit twice is delivered once: the parsed cache data and the misses together
      are the keys asked for exactly when no hit is repeated. */
  lemma DeliveredIff(keys: seq<Key>, answers: seq<Option<Value>>)
    requires |keys| == |answers|
    ensures multiset(keys) == multiset(DataMap(keys, answers).Keys) + multiset(Misses(keys, answers)) <==>
            Distinct(Hits(keys, answers))
  {
    var hits := Hits(keys, answers);
    var delivered := DataMap(keys, answers).Keys;
    HitOrMiss(keys, answers);
    DistinctCounts(hits);
    forall k ensures multiset(delivered)[k] == if k in hits then 1 else 0 {
      assert k in delivered <==> k in hits;
    }
    if Distinct(hits) {
      forall k ensures multiset(delivered)[k] == multiset(hits)[k] {
        assert multiset(hits)[k] <= 1;
      }
      assert multiset(delivered) == multiset(hits);
    }
    if multiset(keys) == multiset(delivered) + multiset(Misses(keys, answers)) {
      forall k ensures multiset(hits)[k] <= 1 {
        assert multiset(keys)[k] == multiset(hits)[k] + multiset(Misses(keys, answers))[k];
        assert multiset(keys)[k] == multiset(delivered)[k] + multiset(Misses(keys, answers))[k];
      }
    }
  }

  /** Two requests for one cached key: one delivery. */
  lemma RepeatedHitIsDeliveredOnce()
    ensures var keys: seq<Key> := [[0x61], [0x61]];
            var answers: seq<Option<Value>> := [Some([0x31]), Some([0x31])];
            multiset(keys) != multiset(DataMap(keys, answers).Keys) + multiset(Misses(keys, answers))
  {
    var keys: seq<Key> := [[0x61], [0x61]];
    var answers: seq<Option<Value>> := [Some([0x31]), Some([0x31])];
    assert keys[..1] == [[0x61]] && answers[..1] == [Some([0x31])];
    assert Hits(keys[..1], answers[..1]) == [[0x61]];
    assert Hits(keys, answers)[0] == Hits(keys, answers)[1];
    DeliveredIff(keys, answers);
  }

  /** `get_from_cache`, given what the cache answers for each key. */
  method GetFromCache(keys: seq<Key>, answers: seq<Option<Value>>) returns (missKeys: seq<Key>, dataMap: map<Key, Value>)
    requires |keys| == |answers|
    ensures missKeys == Misses(keys, answers) && dataMap == DataMap(keys, answers)
  {
    missKeys, dataMap := [], map[];
    for i := 0 to |keys|
      invariant missKeys == Misses(keys[..i], answers[..i]) && dataMap == DataMap(keys[..i], answers[..i])
    {
      assert keys[..i + 1][..i] == keys[..i] && answers[..i + 1][..i] == answers[..i];
      if answers[i].Some? {
        var value := answers[i].value;
        if |value| == 1 && value[0] == 0x20 {
          value := [];
        }
        dataMap := dataMap[keys[i] := value];
      } else {
        missKeys := missKeys + [keys[i]];
      }
    }
    assert keys[..|keys|] == keys && answers[..|keys|] == answers;
  }

  // ------------------------------------------------------------------ one group for each slot

  function Slot(key: Key): nat {
    KeySlotOf(Some(key))
  }

  /** The keys of a slot, in order. */
  function OfSlot(keys: seq<Key>, slot: nat): seq<Key> {
    if keys == [] then []
    else
      var n := |keys| - 1;
      OfSlot(keys[..n], slot) + if Slot(keys[n]) == slot then [keys[n]] else []
  }

  lemma {:induction false} OfSlotCounts(keys: seq<Key>, slot: nat, k: Key)
    ensures multiset(OfSlot(keys, slot))[k] == if Slot(k) == slot then multiset(keys)[k] else 0
  {
    if keys != [] {
      var n := |keys| - 1;
      OfSlotCounts(keys[..n], slot, k);
      assert keys == keys[..n] + [keys[n]];
    }
  }

  predicate SlotAt(keys: seq<Key>, i: nat, slot: nat) {
    i < |keys| && Slot(keys[i]) == slot
  }

  lemma SlotAtMore(keys: seq<Key>, i: nat, slot: nat)
    requires keys != []
    ensures SlotAt(keys, i, slot) <==> SlotAt(keys[..|keys| - 1], i, slot) || (i == |keys| - 1 && Slot(keys[i]) == slot)
  {
  }

  lemma {:induction false} OfSlotInOrder(keys: seq<Key>, slot: nat) returns (at: seq<nat>)
    ensures PickedAt(keys, OfSlot(keys, slot), at)
    ensures forall i: nat :: i in at <==> SlotAt(keys, i, slot)
  {
    if keys == [] {
      at := [];
    } else {
      var n := |keys| - 1;
      var before := OfSlotInOrder(keys[..n], slot);
      at := PickMore(keys, OfSlot(keys[..n], slot), before, Slot(keys[n]) == slot);
      forall i: nat ensures i in at <==> SlotAt(keys, i, slot) {
        SlotAtMore(keys, i, slot);
      }
    }
  }

  /** The parts are the keys of the listed slots: each slot that occurs, once, in any order. */
  ghost predicate Grouped(keys: seq<Key>, order: seq<nat>, parts: seq<seq<Key>>) {
    && |parts| == |order|
    && (forall i, j :: 0 <= i < j < |order| ==> order[i] != order[j])
    && (forall i :: 0 <= i < |order| ==> parts[i] == OfSlot(keys, order[i]) && parts[i] != [])
    && (forall k :: k in keys ==> Slot(k) in order)
  }

  ghost predicate SplitUp(keys: seq<Key>, parts: seq<seq<Key>>) {
    exists order :: Grouped(keys, order, parts)
  }

  function Sum(parts: seq<seq<Key>>): multiset<Key> {
    if parts == [] then multiset{} else Sum(parts[..|parts| - 1]) + multiset(parts[|parts| - 1])
  }

  lemma SumMore(parts: seq<seq<Key>>, part: seq<Key>)
    ensures Sum(parts + [part]) == Sum(parts) + multiset(part)
  {
    assert (parts + [part])[..|parts|] == parts;
  }

  lemma {:induction false} SumConcat(a: seq<seq<Key>>, b: seq<seq<Key>>)
    ensures Sum(a + b) == Sum(a) + Sum(b)
  {
    if b == [] {
      assert a + b == a;
    } else {
      var front, last := b[..|b| - 1], b[|b| - 1];
      SumConcat(a, front);
      SumMore(a + front, last);
      assert a + b == a + front + [last];
      PlusAssociates(Sum(a), Sum(front), multiset(last));
    }
  }

  lemma PlusAssociates(a: multiset<Key>, b: multiset<Key>, c: multiset<Key>)
    ensures (a + b) + c == a + (b + c)
  {
  }

  lemma SumOne(part: seq<Key>)
    ensures Sum([part]) == multiset(part)
  {
    assert [part][..0] == [];
  }

  lemma {:induction false} SumCounts(keys: seq<Key>, order: seq<nat>, parts: seq<seq<Key>>, k: Key)
    requires |parts| == |order| && forall i, j :: 0 <= i < j < |order| ==> order[i] != order[j]
    requires forall i :: 0 <= i < |order| ==> parts[i] == OfSlot(keys, order[i])
    ensures Sum(parts)[k] == if Slot(k) in order then multiset(keys)[k] else 0
  {
    if parts != [] {
      var n := |parts| - 1;
      SumCounts(keys, order[..n], parts[..n], k);
      OfSlotCounts(keys, order[n], k);
      assert order == order[..n] + [order[n]];
    }
  }

  /** Grouping by slot loses no key and duplicates none, and the keys of one part share one slot. */
  lemma GroupingConserves(keys: seq<Key>, order: seq<nat>, parts: seq<seq<Key>>)
    requires Grouped(keys, order, parts)
    ensures Sum(parts) == multiset(keys)
    ensures forall i, k :: 0 <= i < |parts| && k in parts[i] ==> Slot(k) == order[i]
  {
    forall k ensures Sum(parts)[k] == multiset(keys)[k] {
      SumCounts(keys, order, parts, k);
    }
    forall i, k | 0 <= i < |parts| && k in parts[i] ensures Slot(k) == order[i] {
      OfSlotCounts(keys, order[i], k);
      assert multiset(parts[i])[k] > 0;
    }
  }

  /** Keys of the same part have the same slot, keys of different parts different slots. */
  lemma PartsAreSlots(keys: seq<Key>, parts: seq<seq<Key>>, i: nat, j: nat, x: Key, y: Key)
    requires SplitUp(keys, parts) && i < |parts| && j < |parts| && x in parts[i] && y in parts[j]
    ensures Slot(x) == Slot(y) <==> i == j
  {
    var order :| Grouped(keys, order, parts);
    GroupingConserves(keys, order, parts);
  }

  lemma SplitConserves(keys: seq<Key>, parts: seq<seq<Key>>)
    requires SplitUp(keys, parts)
    ensures Sum(parts) == multiset(keys)
  {
    var order :| Grouped(keys, order, parts);
    GroupingConserves(keys, order, parts);
  }

  ghost predicate IsGroup(keys: seq<Key>, groups: map<nat, seq<Key>>, slot: nat) {
    (slot in groups <==> OfSlot(keys, slot) != []) && (slot in groups ==> groups[slot] == OfSlot(keys, slot))
  }

  ghost predicate AreGroups(keys: seq<Key>, groups: map<nat, seq<Key>>) {
    forall s: nat :: IsGroup(keys, groups, s)
  }

  /** `slot_keys_map` */
  method GroupBySlot(keys: seq<Key>) returns (groups: map<nat, seq<Key>>)
    ensures AreGroups(keys, groups)
  {
    groups := map[];
    for i := 0 to |keys|
      invariant forall s: nat :: (s in groups <==> OfSlot(keys[..i], s) != []) && (s in groups ==> groups[s] == OfSlot(keys[..i], s))
    {
      assert keys[..i + 1][..i] == keys[..i];
      var slot := GetKeySlot(Some(keys[i]));
      groups := groups[slot := (if slot in groups then groups[slot] else []) + [keys[i]]];
    }
    assert keys[..|keys|] == keys;
  }

  lemma EveryKeyHasGroup(keys: seq<Key>, groups: map<nat, seq<Key>>, k: Key)
    requires AreGroups(keys, groups) && k in keys
    ensures Slot(k) in groups
  {
    var s := Slot(k);
    OfSlotCounts(keys, s, k);
    assert multiset(keys)[k] > 0;
    assert IsGroup(keys, groups, s);
  }

  /** The groups are listed in some order, each once. */
  ghost predicate Listed(groups: map<nat, seq<Key>>, order: seq<nat>, parts: seq<seq<Key>>) {
    && |parts| == |order|
    && (forall i, j :: 0 <= i < j < |order| ==> order[i] != order[j])
    && (forall i :: 0 <= i < |order| ==> order[i] in groups && parts[i] == groups[order[i]])
  }

  /** Going through the map: its groups in whatever order the map has them. */
  method ListGroups(groups: map<nat, seq<Key>>) returns (ghost order: seq<nat>, parts: seq<seq<Key>>)
    ensures Listed(groups, order, parts)
    ensures forall s :: s in groups ==> s in order
  {
    order, parts := [], [];
    var left := groups.Keys;
    while left != {}
      invariant Listed(groups, order, parts) && left <= groups.Keys
      invariant forall s :: s in groups ==> (s in left <==> s !in order)
      decreases |left|
    {
      var s :| s in left;
      left := left - {s};
      order := order + [s];
      parts := parts + [groups[s]];
    }
  }

  lemma ListedIsGrouped(keys: seq<Key>, groups: map<nat, seq<Key>>, order: seq<nat>, parts: seq<seq<Key>>)
    requires AreGroups(keys, groups) && Listed(groups, order, parts) && forall s :: s in groups ==> s in order
    ensures SplitUp(keys, parts) && (keys != [] ==> |parts| >= 1)
  {
    forall k | k in keys ensures Slot(k) in order {
      EveryKeyHasGroup(keys, groups, k);
    }
    forall i | 0 <= i < |order| ensures parts[i] == OfSlot(keys, order[i]) && parts[i] != [] {
      assert IsGroup(keys, groups, order[i]);
    }
    assert Grouped(keys, order, parts);
    if keys != [] {
      assert Slot(keys[0]) in order;
    }
  }

  /** The keys of a fetch, divided by slot. */
  method DivideBySlot(keys: seq<Key>) returns (parts: seq<seq<Key>>)
    ensures SplitUp(keys, parts) && (keys != [] ==> |parts| >= 1)
  {
    var groups := GroupBySlot(keys);
    ghost var order;
    order, parts := ListGroups(groups);
    ListedIsGrouped(keys, groups, order, parts);
  }
}
