/** The slot index of a channel pool: which node of the cluster serves which slot, and the routing of keys by it. */
module SlotMap {
  import opened KeySlot
  import opened Options

  const UINT32_MAX := 0xFFFF_FFFF

  /** What is kept of a `NodeInfo`: its id, its address if one could be parsed, and its ranges of slots, ends
      included. */
  datatype NodeInfo = NodeInfo(id: string, address: Option<(string, nat)>, slots: seq<(nat, nat)>)

  ghost predicate InRange(range: (nat, nat), slot: nat) {
    range.0 <= slot <= range.1
  }

  ghost predicate OwnsIn(slots: seq<(nat, nat)>, k: nat, slot: nat)
    requires k <= |slots|
  {
    exists r :: 0 <= r < k && InRange(slots[r], slot)
  }

  /** The node serves the slot. */
  ghost predicate Owns(node: NodeInfo, slot: nat) {
    OwnsIn(node.slots, |node.slots|, slot)
  }

  /** That is, one of its ranges holds the slot, ends included. */
  lemma OwnsIff(node: NodeInfo, slot: nat)
    ensures Owns(node, slot) <==> exists r :: 0 <= r < |node.slots| && node.slots[r].0 <= slot <= node.slots[r].1
  {
    if r :| 0 <= r < |node.slots| && node.slots[r].0 <= slot <= node.slots[r].1 {
      assert InRange(node.slots[r], slot);
    }
  }

  /** The range loop runs over `uint32_t` values and needs an end below the largest one to stop. */
  predicate EndsBelowMax(node: NodeInfo) {
    forall r :: 0 <= r < |node.slots| ==> node.slots[r].1 < UINT32_MAX
  }

  method CheckSlot(node: NodeInfo, slot: nat) returns (found: bool)
    ensures found <==> Owns(node, slot)
    ensures found <==> exists r :: 0 <= r < |node.slots| && node.slots[r].0 <= slot <= node.slots[r].1
  {
    OwnsIff(node, slot);
    for r := 0 to |node.slots|
      invariant !OwnsIn(node.slots, r, slot)
    {
      if slot >= node.slots[r].0 && slot <= node.slots[r].1 {
        assert InRange(node.slots[r], slot);
        return true;
      }
    }
    return false;
  }

  /** The last of the first n nodes that serves the slot, or -1. */
  ghost function LastOwner(nodes: seq<NodeInfo>, n: nat, slot: nat): (i: int)
    requires n <= |nodes|
    ensures -1 <= i < n
    ensures i >= 0 ==> Owns(nodes[i], slot)
    ensures forall k :: i < k < n ==> !Owns(nodes[k], slot)
  {
    if n == 0 then -1 else if Owns(nodes[n - 1], slot) then n - 1 else LastOwner(nodes, n - 1, slot)
  }

  /** The entry for a slot once some owner has been written over what the vector held. */
  function Entry(owner: int, before: seq<int>, slot: nat): int {
    if owner >= 0 then owner else if slot < |before| then before[slot] else -1
  }

  /** `v.resize(n, -1)` */
  function Resized(v: seq<int>, n: nat): seq<int> {
    if n <= |v| then v[..n] else v + seq(n - |v|, (_: nat) => -1)
  }

  /** The owner of a slot among the first n nodes and the first r ranges of the next. */
  ghost function OwnerSoFar(nodes: seq<NodeInfo>, n: nat, r: nat, slot: nat): int
    requires n <= |nodes| && (n == |nodes| ==> r == 0) && (n < |nodes| ==> r <= |nodes[n].slots|)
  {
    if n < |nodes| && OwnsIn(nodes[n].slots, r, slot) then n else LastOwner(nodes, n, slot)
  }

  ghost predicate Covers(v: seq<int>, nodes: seq<NodeInfo>, n: nat, r: nat, before: seq<int>)
    requires n <= |nodes| && (n == |nodes| ==> r == 0) && (n < |nodes| ==> r <= |nodes[n].slots|)
  {
    |v| >= SLOTS && |v| >= |before| && forall slot: nat {:trigger EntryOk(v, slot, OwnerSoFar(nodes, n, r, slot), before)} ::
      EntryOk(v, slot, OwnerSoFar(nodes, n, r, slot), before)
  }

  /** The vector says who owns a slot, and reaches every slot with an owner. */
  ghost predicate EntryOk(v: seq<int>, slot: nat, owner: int, before: seq<int>) {
    if slot < |v| then v[slot] == Entry(owner, before, slot) else owner == -1
  }

  /** The slot index of a pool, and the lines it was built from. */
  class ChannelPool {
    var slotIndex: seq<int>
    var validLines: seq<string>

    constructor ()
      ensures slotIndex == [] && validLines == []
    {
      slotIndex, validLines := [], [];
    }

    /** One range of one node: every slot of the range gets the node, and the vector grows if it is too short. */
    method SetRange(i: nat, start_slot: nat, end_slot: nat)
      requires end_slot < UINT32_MAX
      modifies this`slotIndex
      ensures RangeSet(old(slotIndex), slotIndex, (start_slot, end_slot), i)
    {
      var start := start_slot;
      while start <= end_slot
        invariant start_slot <= end_slot ==> start_slot <= start <= end_slot + 1
        invariant start_slot > end_slot ==> start == start_slot
        invariant |slotIndex| == if start > start_slot && start > |old(slotIndex)| then start else |old(slotIndex)|
        invariant forall slot: nat :: slot < |slotIndex| ==>
          slotIndex[slot] == if start_slot <= slot < start then i else if slot < |old(slotIndex)| then old(slotIndex)[slot] else -1
        decreases end_slot + 1 - start
      {
        if start < |slotIndex| {
          slotIndex := slotIndex[start := i];
        } else {
          slotIndex := Resized(slotIndex, start + 1);
          slotIndex := slotIndex[start := i];
        }
        start := start + 1;
      }
    }

    /** Every slot that some node serves gets the last such node; every other slot keeps what the vector held below
        16384, and -1 where it held nothing. */
    method InitSlotNodeMap(nodes: seq<NodeInfo>)
      requires forall i :: 0 <= i < |nodes| ==> EndsBelowMax(nodes[i])
      modifies this`slotIndex
      ensures Covers(slotIndex, nodes, |nodes|, 0, Resized(old(slotIndex), SLOTS))
    {
      slotIndex := Resized(slotIndex, SLOTS);
      ghost var before := slotIndex;
      for i := 0 to |nodes|
        invariant Covers(slotIndex, nodes, i, 0, before)
      {
        for r := 0 to |nodes[i].slots|
          invariant Covers(slotIndex, nodes, i, r, before)
        {
          var range := nodes[i].slots[r];
          ghost var v := slotIndex;
          SetRange(i, range.0, range.1);
          RangeCovered(v, slotIndex, nodes, i, r, before);
        }
        NodeCovered(slotIndex, nodes, i, before);
      }
    }

    /** The index of the node that a key is sent to; 0 also stands for a slot without a node. */
    method GetKeyNodeIndex(key: Option<seq<bv8>>) returns (index: nat)
      ensures index == NodeIndex(slotIndex, KeySlotOf(key))
    {
      var slot := GetKeySlot(key);
      if slot < |slotIndex| {
        var target_index := slotIndex[slot];
        if target_index == -1 {
          return 0;
        }
        return ToUint32(target_index);
      }
      return 0;
    }
  }

  /** The implicit conversion from `int`. */
  function ToUint32(x: int): nat {
    x % 0x1_0000_0000
  }

  lemma ToUint32Meaning(x: int)
    requires -0x1_0000_0000 <= x < 0x1_0000_0000
    ensures ToUint32(x) == if x >= 0 then x else x + 0x1_0000_0000
  {
  }

  function NodeIndex(v: seq<int>, slot: nat): nat {
    if slot < |v| && v[slot] != -1 then ToUint32(v[slot]) else 0
  }

  /** The vector v2 is v with i written into the slots of a range. */
  ghost predicate RangeSet(v: seq<int>, v2: seq<int>, range: (nat, nat), i: nat) {
    && |v2| == (if range.0 <= range.1 && range.1 >= |v| then range.1 + 1 else |v|)
    && (forall slot: nat :: slot < |v2| ==> v2[slot] == if range.0 <= slot <= range.1 then i else if slot < |v| then v[slot] else -1)
  }

  lemma RangeCovered(v: seq<int>, v2: seq<int>, nodes: seq<NodeInfo>, i: nat, r: nat, before: seq<int>)
    requires i < |nodes| && r < |nodes[i].slots| && Covers(v, nodes, i, r, before)
    requires RangeSet(v, v2, nodes[i].slots[r], i)
    ensures Covers(v2, nodes, i, r + 1, before)
  {
    var r2 := r + 1;
    forall slot: nat ensures EntryOk(v2, slot, OwnerSoFar(nodes, i, r2, slot), before) {
      OneMoreRange(nodes[i].slots, r, slot);
      assert EntryOk(v, slot, OwnerSoFar(nodes, i, r, slot), before);
    }
  }

  lemma OneMoreRange(slots: seq<(nat, nat)>, r: nat, slot: nat)
    requires r < |slots|
    ensures OwnsIn(slots, r + 1, slot) <==> OwnsIn(slots, r, slot) || InRange(slots[r], slot)
  {
  }

  lemma NodeCovered(v: seq<int>, nodes: seq<NodeInfo>, i: nat, before: seq<int>)
    requires i < |nodes| && Covers(v, nodes, i, |nodes[i].slots|, before)
    ensures Covers(v, nodes, i + 1, 0, before)
  {
    var n := i + 1;
    forall slot: nat ensures EntryOk(v, slot, OwnerSoFar(nodes, n, 0, slot), before) {
      assert EntryOk(v, slot, OwnerSoFar(nodes, i, |nodes[i].slots|, slot), before);
      assert LastOwner(nodes, i + 1, slot) == if Owns(nodes[i], slot) then i else LastOwner(nodes, i, slot);
    }
  }

  // ------------------------------------------------------------------ what the index is for

  /** The index that a pool without entries gets from the nodes. */
  ghost predicate Fresh(v: seq<int>, nodes: seq<NodeInfo>) {
    Covers(v, nodes, |nodes|, 0, Resized([], SLOTS))
  }

  /** The entry of a slot is the last node that serves it, or -1 when none does. */
  ghost predicate Agrees(v: seq<int>, nodes: seq<NodeInfo>, slot: nat) {
    (if slot < |v| then v[slot] else -1) == LastOwner(nodes, |nodes|, slot)
  }

  /** The index of an empty pool agrees with the ownership of every slot, so each has one possible index up to its
      length. */
  lemma FreshAgrees(v: seq<int>, nodes: seq<NodeInfo>)
    requires Fresh(v, nodes)
    ensures forall slot: nat :: Agrees(v, nodes, slot)
  {
    forall slot: nat ensures Agrees(v, nodes, slot) {
      assert EntryOk(v, slot, OwnerSoFar(nodes, |nodes|, 0, slot), Resized([], SLOTS));
    }
  }

  /** Rebuilding over an index that is already there agrees with ownership exactly when that index held nothing for
      the slots that no node serves any more: the vector is resized but its entries are not reset. */
  lemma RebuildAgreesIff(old_index: seq<int>, v: seq<int>, nodes: seq<NodeInfo>)
    requires Covers(v, nodes, |nodes|, 0, Resized(old_index, SLOTS))
    ensures (forall slot: nat :: Agrees(v, nodes, slot)) <==>
            (forall slot: nat :: slot < SLOTS && slot < |old_index| && LastOwner(nodes, |nodes|, slot) == -1 ==> old_index[slot] == -1)
  {
    var before := Resized(old_index, SLOTS);
    forall slot: nat
      ensures Agrees(v, nodes, slot) <==>
        (slot < SLOTS && slot < |old_index| && LastOwner(nodes, |nodes|, slot) == -1 ==> old_index[slot] == -1)
    {
      assert EntryOk(v, slot, OwnerSoFar(nodes, |nodes|, 0, slot), before);
    }
  }

  /** Entries do go stale: when the only node of a cluster gives up slot 5, the rebuilt index still names it. */
  lemma StaleEntry(v: seq<int>)
    requires var before := seq(SLOTS, (_: nat) => -1)[5 := 0]; Covers(v, [NodeInfo("n", None, [])], 1, 0, Resized(before, SLOTS))
    ensures v[5] == 0 && !Owns(NodeInfo("n", None, []), 5) && !Agrees(v, [NodeInfo("n", None, [])], 5)
  {
    var nodes := [NodeInfo("n", None, [])];
    var before := seq(SLOTS, (_: nat) => -1)[5 := 0];
    assert EntryOk(v, 5, OwnerSoFar(nodes, 1, 0, 5), Resized(before, SLOTS));
    assert LastOwner(nodes, 1, 5) == -1;
  }

  /** Routing: with an index that agrees with ownership, a key whose slot is served goes to the last node that serves
      it, which is a node of the cluster; a key whose slot nobody serves goes to node 0. */
  lemma Routing(v: seq<int>, nodes: seq<NodeInfo>, key: Option<seq<bv8>>)
    requires |nodes| < 0x8000_0000 && forall slot: nat :: Agrees(v, nodes, slot)
    ensures var slot := KeySlotOf(key);
            var index := NodeIndex(v, slot);
            if exists i :: 0 <= i < |nodes| && Owns(nodes[i], slot)
            then index < |nodes| && Owns(nodes[index], slot) && forall k :: index < k < |nodes| ==> !Owns(nodes[k], slot)
            else index == 0
  {
    var slot := KeySlotOf(key);
    assert Agrees(v, nodes, slot);
  }
}
