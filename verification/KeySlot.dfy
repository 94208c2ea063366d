/** `ChannelPool::GetKeySlot` against the section "Hash tags" of the Redis Cluster specification. */
module KeySlot {
  import opened Crc16
  import opened Options

  const SLOTS := 16384
  const OPEN: bv8 := 0x7B
  const CLOSE: bv8 := 0x7D

  /** The slot of the bytes that are hashed: the low 14 bits of their checksum. */
  function SlotOf(bytes: seq<bv8>): (slot: nat)
    ensures slot < SLOTS
  {
    Low14(Checksum(bytes))
  }

  function Low14(crc: bv16): (slot: nat)
    ensures slot < SLOTS
  {
    var low := crc & 0x3FFF;
    assert low <= 0x3FFF;
    Number(low)
  }

  function Number(crc: bv16): nat {
    crc as nat
  }

  /** The key is p{t}q with no brace opened in p and a non-empty tag t that closes no brace. */
  ghost predicate Tagged(key: seq<bv8>, p: seq<bv8>, t: seq<bv8>, q: seq<bv8>) {
    key == p + [OPEN] + t + [CLOSE] + q && OPEN !in p && t != [] && CLOSE !in t
  }

  ghost predicate HasTag(key: seq<bv8>) {
    exists p, t, q :: Tagged(key, p, t, q)
  }

  /** The position of the first occurrence of c from position i on, or the length. */
  function Find(s: seq<bv8>, c: bv8, i: nat): (k: nat)
    requires i <= |s|
    ensures i <= k <= |s| && c !in s[i..k] && (k < |s| ==> s[k] == c)
    decreases |s| - i
  {
    if i == |s| || s[i] == c then i
    else
      var k := Find(s, c, i + 1);
      assert s[i..k] == [s[i]] + s[i + 1..k];
      k
  }

  /** What of a key is hashed. */
  function HashedPart(key: seq<bv8>): seq<bv8> {
    var s := Find(key, OPEN, 0);
    if s == |key| then key
    else
      var e := Find(key, CLOSE, s + 1);
      if e == |key| || e == s + 1 then key else key[s + 1..e]
  }

  /** Hash tags, both ways: of a key that has a tag exactly the tag is hashed, whatever stands before and after it; any
      other key is hashed whole. */
  lemma HashTags(key: seq<bv8>)
    ensures forall p, t, q :: Tagged(key, p, t, q) ==> HashedPart(key) == t
    ensures !HasTag(key) ==> HashedPart(key) == key
    ensures HasTag(key) <==> exists p, q :: Tagged(key, p, HashedPart(key), q)
  {
    forall p, t, q | Tagged(key, p, t, q) ensures HashedPart(key) == t {
      TagIsHashed(key, p, t, q);
    }
    var s := Find(key, OPEN, 0);
    if s < |key| {
      var e := Find(key, CLOSE, s + 1);
      if e < |key| && e > s + 1 {
        assert key == key[..s] + [OPEN] + key[s + 1..e] + [CLOSE] + key[e + 1..];
        assert Tagged(key, key[..s], key[s + 1..e], key[e + 1..]);
      }
    }
  }

  lemma TagIsHashed(key: seq<bv8>, p: seq<bv8>, t: seq<bv8>, q: seq<bv8>)
    requires Tagged(key, p, t, q)
    ensures HashedPart(key) == t
  {
    var s := |p|;
    var e := |p| + 1 + |t|;
    assert key[s] == OPEN && key[e] == CLOSE;
    assert key[0..s] == p && key[s + 1..e] == t;
    FoundAt(key, OPEN, 0, s);
    FoundAt(key, CLOSE, s + 1, e);
  }

  /** Where a scan that has passed only other bytes stops. */
  lemma FoundAt(s: seq<bv8>, c: bv8, i: nat, k: nat)
    requires i <= k <= |s| && c !in s[i..k] && (k < |s| ==> s[k] == c)
    ensures Find(s, c, i) == k
  {
  }

  /** Keys with the same tag share a slot: the guarantee that multi-key commands rest on. */
  lemma SameTagSameSlot(key1: seq<bv8>, key2: seq<bv8>, p1: seq<bv8>, p2: seq<bv8>, t: seq<bv8>, q1: seq<bv8>, q2: seq<bv8>)
    requires Tagged(key1, p1, t, q1) && Tagged(key2, p2, t, q2)
    ensures SlotOf(HashedPart(key1)) == SlotOf(HashedPart(key2)) == SlotOf(t)
  {
    TagIsHashed(key1, p1, t, q1);
    TagIsHashed(key2, p2, t, q2);
  }

  /** The slot of a key; a null pointer counts as slot 0. */
  function KeySlotOf(key: Option<seq<bv8>>): (slot: nat)
    ensures slot < SLOTS
  {
    match key
    case None => 0
    case Some(bytes) => SlotOf(HashedPart(bytes))
  }

  // ------------------------------------------------------------------ the low 14 bits are a remainder

  lemma Quarter0(crc: bv16)
    requires crc < 0x4000
    ensures crc & 0x3FFF == crc
  {
  }

  lemma Quarter1(crc: bv16)
    requires 0x4000 <= crc < 0x8000
    ensures crc & 0x3FFF == crc - 0x4000
  {
  }

  lemma Quarter2(crc: bv16)
    requires 0x8000 <= crc < 0xC000
    ensures crc & 0x3FFF == crc - 0x8000
  {
  }

  lemma Quarter3(crc: bv16)
    requires 0xC000 <= crc
    ensures crc & 0x3FFF == crc - 0xC000
  {
  }

  lemma Less1(crc: bv16)
    requires 0x4000 <= crc
    ensures Number(crc - 0x4000) == Number(crc) - 0x4000
  {
  }

  lemma Less2(crc: bv16)
    requires 0x8000 <= crc
    ensures Number(crc - 0x8000) == Number(crc) - 0x8000
  {
  }

  lemma Less3(crc: bv16)
    requires 0xC000 <= crc
    ensures Number(crc - 0xC000) == Number(crc) - 0xC000
  {
  }

  lemma Low0(crc: bv16)
    requires crc < 0x4000
    ensures Low14(crc) == Number(crc)
  {
    Quarter0(crc);
  }

  lemma Low1(crc: bv16)
    requires 0x4000 <= crc < 0x8000
    ensures Low14(crc) == Number(crc) - 0x4000
  {
    Quarter1(crc);
    Less1(crc);
  }

  lemma Low2(crc: bv16)
    requires 0x8000 <= crc < 0xC000
    ensures Low14(crc) == Number(crc) - 0x8000
  {
    Quarter2(crc);
    Less2(crc);
  }

  lemma Low3(crc: bv16)
    requires 0xC000 <= crc
    ensures Low14(crc) == Number(crc) - 0xC000
  {
    Quarter3(crc);
    Less3(crc);
  }

  lemma LowAndQuarters(crc: bv16) returns (k: nat)
    ensures Number(crc) == Low14(crc) + k * 16384
  {
    if crc < 0x4000 {
      Low0(crc);
      k := 0;
    } else if crc < 0x8000 {
      Low1(crc);
      k := 1;
    } else if crc < 0xC000 {
      Low2(crc);
      k := 2;
    } else {
      Low3(crc);
      k := 3;
    }
  }

  lemma Remainder(n: nat, low: nat, k: nat)
    requires n == low + k * 16384 && low < 16384
    ensures n % 16384 == low
  {
  }

  /** The slot of a key is the checksum of what is hashed, modulo 16384, as the section "Key distribution model" says. */
  lemma SlotIsRemainder(key: seq<bv8>)
    ensures KeySlotOf(Some(key)) == (Checksum(HashedPart(key)) as nat) % 16384
  {
    var crc := Checksum(HashedPart(key));
    var k := LowAndQuarters(crc);
    Remainder(Number(crc), Low14(crc), k);
  }

  /** The slot of the key "123456789". */
  lemma SlotOfCheckString()
    ensures KeySlotOf(Some([0x31, 0x32, 0x33, 0x34, 0x35, 0x36, 0x37, 0x38, 0x39])) == 12739
  {
    var key: seq<bv8> := [0x31, 0x32, 0x33, 0x34, 0x35, 0x36, 0x37, 0x38, 0x39];
    assert OPEN !in key;
    FoundAt(key, OPEN, 0, |key|);
    CheckValue();
    Low0(0x31C3);
  }

  method GetKeySlot(key: Option<seq<bv8>>) returns (slot: nat)
    ensures slot < SLOTS && slot == KeySlotOf(key)
  {
    slot := 0xFFFF_FFFF;
    var slot_unset := true;
    if slot_unset && key.None? {
      slot := 0;
      slot_unset := false;
    }
    var bytes := if key.None? then [] else key.value;
    var len := |bytes|;
    var s, e := 0, 0;
    if slot_unset {
      while s < len
        invariant 0 <= s <= len && OPEN !in bytes[..s]
      {
        if bytes[s] == OPEN {
          break;
        }
        assert bytes[..s + 1] == bytes[..s] + [bytes[s]];
        s := s + 1;
      }
      FoundAt(bytes, OPEN, 0, s);
      if s == len {
        slot := HashSlot(bytes);
        slot_unset := false;
      }
    }
    if slot_unset {
      e := s + 1;
      while e < len
        invariant s + 1 <= e <= len && CLOSE !in bytes[s + 1..e]
      {
        if bytes[e] == CLOSE {
          break;
        }
        assert bytes[s + 1..e + 1] == bytes[s + 1..e] + [bytes[e]];
        e := e + 1;
      }
      FoundAt(bytes, CLOSE, s + 1, e);
      if e == len || e == s + 1 {
        slot := HashSlot(bytes);
        slot_unset := false;
      }
    }
    if slot_unset {
      slot := HashSlot(bytes[s + 1..e]);
      slot_unset := false;
    }
  }

  /** `crc16(buf, len) & 0x3FFF` */
  method HashSlot(buf: seq<bv8>) returns (slot: nat)
    ensures slot == SlotOf(buf)
  {
    var crc := Crc16.Crc16(buf);
    slot := Low14(crc);
  }
}
