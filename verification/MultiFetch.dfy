/** `RedisClient::multi_fetch`: the MGET command of one batch, and where it is sent. */
module MultiFetch {
  import opened Batching
  import opened FetchInfos
  import opened KeyGroups
  import opened Options
  import opened SlotMap

  const MGET: seq<bv8> := [0x4D, 0x47, 0x45, 0x54]

  /** A component of a command is a view, a pointer and a length. A view of bytes that are gone has only its length. */
  datatype Piece = Live(bytes: seq<bv8>) | Dangling(size: nat)

  /** The loop takes each view of its own copy of the key, which is gone at the end of the round. The bytes are still
      there only when a copied string shares them with the original. */
  function ViewOfCopy(key: Key, copiesShare: bool): Piece {
    if copiesShare then Live(key) else Dangling(|key|)
  }

  /** What is read through a view; nothing is known of bytes that are gone, unless there are none. */
  function Read(piece: Piece): Option<seq<bv8>> {
    match piece
    case Live(bytes) => Some(bytes)
    case Dangling(size) => if size == 0 then Some([]) else None
  }

  /** The command that is written from its components, if all of them can be read. */
  function Written(pieces: seq<Piece>): Option<seq<seq<bv8>>> {
    if pieces == [] then Some([])
    else
      var before := Written(pieces[..|pieces| - 1]);
      var last := Read(pieces[|pieces| - 1]);
      if before.Some? && last.Some? then Some(before.value + [last.value]) else None
  }

  ghost predicate AllEmpty(keys: seq<Key>) {
    forall k :: 0 <= k < |keys| ==> keys[k] == []
  }

  lemma {:induction false} WrittenIff(keys: seq<Key>, pieces: seq<Piece>, copiesShare: bool)
    requires |pieces| == |keys| + 1 && pieces[0] == Live(MGET)
    requires forall k :: 0 <= k < |keys| ==> pieces[k + 1] == ViewOfCopy(keys[k], copiesShare)
    ensures Written(pieces) == if copiesShare || AllEmpty(keys) then Some([MGET] + keys) else None
  {
    var before := pieces[..|pieces| - 1];
    if keys == [] {
      assert before == [] && Written(before) == Some([]);
      assert [] + [MGET] == [MGET] + keys;
    } else {
      var front := keys[..|keys| - 1];
      WrittenIff(front, before, copiesShare);
      assert Written(before) == if copiesShare || AllEmpty(front) then Some([MGET] + front) else None;
      assert AllEmpty(keys) <==> AllEmpty(front) && keys[|keys| - 1] == [];
      assert [MGET] + keys == [MGET] + front + [keys[|keys| - 1]];
    }
  }

  /** The command asks for the keys from `start_index` to before `end_index`, as far as there are any, in order, exactly
      when copies of a string share its bytes or all these keys are empty; otherwise it is written from bytes that are
      gone. It goes to the node of the first key. */
  method MakeCommand(pool: ChannelPool, data: seq<Key>, start_index: nat, end_index: nat, copiesShare: bool)
    returns (parts: array<Piece>, index: nat)
    requires start_index < |data| && start_index < end_index
    ensures fresh(parts)
    ensures var keys := data[start_index..Min(end_index, |data|)];
            Written(parts[..]) == if copiesShare || AllEmpty(keys) then Some([MGET] + keys) else None
    ensures index == NodeIndex(pool.slotIndex, Slot(data[start_index]))
  {
    var count := Min(end_index, |data|) - start_index;
    parts := new Piece[count + 1](_ => Live([]));
    parts[0] := Live(MGET);
    var i := start_index;
    while i < |data| && i < end_index
      invariant start_index <= i <= start_index + count
      invariant parts[0] == Live(MGET)
      invariant forall k :: start_index <= k < i ==> parts[k + 1 - start_index] == ViewOfCopy(data[k], copiesShare)
    {
      parts[i + 1 - start_index] := ViewOfCopy(data[i], copiesShare);
      i := i + 1;
    }
    index := pool.GetKeyNodeIndex(Some(data[start_index]));
    ghost var keys := data[start_index..start_index + count];
    assert forall k :: 0 <= k < |keys| ==> parts[..][k + 1] == ViewOfCopy(keys[k], copiesShare) by {
      forall k | 0 <= k < |keys| ensures parts[k + 1] == ViewOfCopy(keys[k], copiesShare) {
        assert parts[(start_index + k) + 1 - start_index] == ViewOfCopy(data[start_index + k], copiesShare);
      }
    }
    WrittenIff(keys, parts[..], copiesShare);
  }

  function AllBatches(keys: seq<Key>, ranges: seq<(nat, nat)>): seq<Key>
    requires forall k :: 0 <= k < |ranges| ==> ranges[k].0 <= ranges[k].1 <= |keys|
  {
    if ranges == [] then []
    else
      var last := ranges[|ranges| - 1];
      AllBatches(keys, ranges[..|ranges| - 1]) + keys[last.0..last.1]
  }

  lemma {:induction false} BatchesUpTo(keys: seq<Key>, ranges: seq<(nat, nat)>, n: nat)
    requires Partition(ranges, |keys|) && 1 <= n <= |ranges|
    ensures forall k :: 0 <= k < n ==> ranges[k].0 <= ranges[k].1 <= |keys|
    ensures AllBatches(keys, ranges[..n]) == keys[..ranges[n - 1].1]
  {
    RangesInside(ranges, |keys|);
    var last := ranges[n - 1];
    assert ranges[..n][..n - 1] == ranges[..n - 1];
    if n == 1 {
      assert keys[0..last.1] == keys[..last.1];
    } else {
      BatchesUpTo(keys, ranges, n - 1);
      assert ranges[n - 2].1 == ranges[n - 1].0;
      assert keys[..last.0] + keys[last.0..last.1] == keys[..last.1];
    }
  }

  lemma RangesInside(ranges: seq<(nat, nat)>, n: nat)
    requires Partition(ranges, n)
    ensures forall k :: 0 <= k < |ranges| ==> ranges[k].0 <= ranges[k].1 <= n
  {
    forall k | 0 <= k < |ranges| ensures ranges[k].1 <= n {
      if k < |ranges| - 1 {
        Ascending(ranges, n, k, |ranges| - 1);
      }
    }
  }

  /** The batches of a fetch, one after the other, are its keys: each is asked for once, in order; and when the keys of
      the fetch share a slot, each key is asked of its own node. */
  lemma BatchesAreTheKeys(keys: seq<Key>, ranges: seq<(nat, nat)>, v: seq<int>)
    requires Partition(ranges, |keys|)
    requires forall a, b :: a in keys && b in keys ==> Slot(a) == Slot(b)
    ensures forall k :: 0 <= k < |ranges| ==> ranges[k].0 < ranges[k].1 <= |keys|
    ensures AllBatches(keys, ranges) == keys
    ensures forall k, x: nat :: 0 <= k < |ranges| && ranges[k].0 <= x < ranges[k].1 ==>
              NodeIndex(v, Slot(keys[ranges[k].0])) == NodeIndex(v, Slot(keys[x]))
  {
    RangesInside(ranges, |keys|);
    WholePart(keys, ranges);
    forall k, x: nat | 0 <= k < |ranges| && ranges[k].0 <= x < ranges[k].1
      ensures NodeIndex(v, Slot(keys[ranges[k].0])) == NodeIndex(v, Slot(keys[x]))
    {
      assert keys[ranges[k].0] in keys && keys[x] in keys;
    }
  }

  // ------------------------------------------------------------------ from a generated key to its node

  /** Batches for each part of a fetch: its own keys, and those of the fetches added to it. */
  ghost predicate Batched(parts: seq<seq<Key>>, ranges: seq<seq<(nat, nat)>>) {
    |ranges| == |parts| && forall i {:trigger ranges[i]} :: 0 <= i < |parts| ==> Partition(ranges[i], |parts[i]|)
  }

  lemma PartitionInside(ranges: seq<(nat, nat)>, keys: seq<Key>)
    requires Partition(ranges, |keys|)
    ensures forall k :: 0 <= k < |ranges| ==> ranges[k].0 <= ranges[k].1 <= |keys|
  {
    RangesInside(ranges, |keys|);
  }

  /** The keys that all the batches ask for. */
  ghost function Asked(parts: seq<seq<Key>>, ranges: seq<seq<(nat, nat)>>): multiset<Key>
    requires Batched(parts, ranges)
  {
    if parts == [] then multiset{}
    else
      var n := |parts| - 1;
      PartitionInside(ranges[n], parts[n]);
      assert Batched(parts[..n], ranges[..n]);
      Asked(parts[..n], ranges[..n]) + multiset(AllBatches(parts[n], ranges[n]))
  }

  lemma {:induction false} AskedIsSum(parts: seq<seq<Key>>, ranges: seq<seq<(nat, nat)>>)
    requires Batched(parts, ranges)
    ensures Asked(parts, ranges) == Sum(parts)
  {
    if parts != [] {
      var n := |parts| - 1;
      assert Batched(parts[..n], ranges[..n]);
      AskedIsSum(parts[..n], ranges[..n]);
      WholePart(parts[n], ranges[n]);
    }
  }

  lemma WholePart(keys: seq<Key>, ranges: seq<(nat, nat)>)
    requires Partition(ranges, |keys|)
    ensures forall k :: 0 <= k < |ranges| ==> ranges[k].0 <= ranges[k].1 <= |keys|
    ensures AllBatches(keys, ranges) == keys
  {
    RangesInside(ranges, |keys|);
    if ranges != [] {
      BatchesUpTo(keys, ranges, |ranges|);
      assert ranges[..|ranges|] == ranges;
    }
  }

  /** From the generator to the batches: every generated key is a cache hit or lies in the range of a batch, with
      multiplicity. Whether the command of that batch holds the key is for `MakeCommand` to say. */
  lemma KeysAreAsked(c: Config, before: seq<Key>, input: Input, after: seq<Key>, added: seq<Content>, data: map<Key, Value>,
                     ranges: seq<seq<(nat, nat)>>)
    requires InputOk(input) && input.generated.Some? && MadeUp(c, before, input, after, added, data)
    requires Batched([after] + KeysOf(added), ranges)
    ensures multiset(input.generated.value) == multiset(CacheHits(c, input)) + Asked([after] + KeysOf(added), ranges)
  {
    KeysAreConserved(c, before, input, after, added, data);
    SumConcat([after], KeysOf(added));
    SumOne(after);
    AskedIsSum([after] + KeysOf(added), ranges);
    PlusAssociates(multiset(CacheHits(c, input)), multiset(after), Sum(KeysOf(added)));
  }

  /** And each batch goes to the node of every key in it. */
  lemma BatchGoesToItsNode(c: Config, before: seq<Key>, input: Input, after: seq<Key>, added: seq<Content>, data: map<Key, Value>,
                           i: nat, ranges: seq<(nat, nat)>, v: seq<int>, k: nat, x: nat)
    requires InputOk(input) && input.generated.Some? && input.known && MadeUp(c, before, input, after, added, data)
    requires i <= |added| && Partition(ranges, |Part(after, added, i)|) && k < |ranges| && ranges[k].0 <= x < ranges[k].1
    ensures var keys := Part(after, added, i);
            x < |keys| && NodeIndex(v, Slot(keys[ranges[k].0])) == NodeIndex(v, Slot(keys[x]))
  {
    var keys := Part(after, added, i);
    RangesInside(ranges, |keys|);
    OneSlotEach(c, before, input, after, added, data, i, i, keys[ranges[k].0], keys[x]);
  }
}
