/** Reading the reply to `cluster nodes`, and deciding whether the cluster has changed since the other pool read it. */
module ClusterNodes {
  import opened KeySlot
  import opened Options
  import opened Picks
  import opened SlotMap
  import opened Text

  // ------------------------------------------------------------------ parsing one line

  predicate IsDigit(c: char) {
    '0' <= c <= '9'
  }

  function Digits(s: string, acc: int): int {
    if s == "" || !IsDigit(s[0]) then acc else Digits(s[1..], 10 * acc + (s[0] as int - '0' as int))
  }

  /** `atoi`, for values that an `int` can hold. */
  function Atoi(s: string): int {
    var t := TrimLeft(s);
    if t == "" then 0
    else if t[0] == '-' then -Digits(t[1..], 0)
    else if t[0] == '+' then Digits(t[1..], 0)
    else Digits(t, 0)
  }

  /** The position of the first occurrence of c, or the length. */
  function IndexOf(s: string, c: char): (k: nat)
    ensures k <= |s| && c !in s[..k] && (k < |s| ==> s[k] == c)
  {
    if s == "" || s[0] == c then 0
    else
      var k := 1 + IndexOf(s[1..], c);
      assert s[..k] == [s[0]] + s[1..][..k - 1];
      k
  }

  /** host:port, as much of it as is used; the port is a 16-bit field. */
  function Address(s: string): Option<(string, nat)> {
    var colon := IndexOf(s, ':');
    if colon == |s| then None else Some((s[..colon], Atoi(s[colon + 1..]) % 0x1_0000))
  }

  /** A slot or a range of slots, in 32-bit fields. */
  function SlotRange(s: string): (nat, nat) {
    var bar := IndexOf(s, '-');
    if bar == |s| then (ToUint32(Atoi(s)), ToUint32(Atoi(s)))
    else (ToUint32(Atoi(s[..bar])), ToUint32(Atoi(s[bar + 1..])))
  }

  function SlotRanges(fields: seq<string>): (r: seq<(nat, nat)>)
    ensures |r| == |fields| && forall k :: 0 <= k < |r| ==> r[k] == SlotRange(fields[k])
  {
    if fields == [] then [] else SlotRanges(fields[..|fields| - 1]) + [SlotRange(fields[|fields| - 1])]
  }

  /** A number in decimal. */
  function Decimal(n: nat): string {
    if n < 10 then ['0' + n as char] else Decimal(n / 10) + ['0' + (n % 10) as char]
  }

  lemma {:induction false} DigitsAppend(s: string, t: string, acc: int)
    requires forall i :: 0 <= i < |s| ==> IsDigit(s[i])
    ensures Digits(s + t, acc) == Digits(t, Digits(s, acc))
  {
    if s == "" {
      assert s + t == t;
    } else {
      assert (s + t)[1..] == s[1..] + t;
      DigitsAppend(s[1..], t, 10 * acc + (s[0] as int - '0' as int));
    }
  }

  lemma {:induction false} DigitsOfDecimal(n: nat)
    ensures Decimal(n) != "" && forall i :: 0 <= i < |Decimal(n)| ==> IsDigit(Decimal(n)[i])
    ensures Digits(Decimal(n), 0) == n
  {
    var last := ['0' + (n % 10) as char];
    assert last[1..] == "";
    if n >= 10 {
      DigitsOfDecimal(n / 10);
      DigitsAppend(Decimal(n / 10), last, 0);
    }
  }

  /** `atoi` reads back a decimal number, whatever follows it. */
  lemma AtoiReadsDecimal(n: nat, rest: string)
    requires rest == "" || !IsDigit(rest[0])
    ensures Atoi(Decimal(n) + rest) == n
  {
    DigitsOfDecimal(n);
    DigitsAppend(Decimal(n), rest, 0);
    assert IsDigit((Decimal(n) + rest)[0]);
  }

  /** Spaces and a sign before the number are read too; and without a number the value is 0. */
  lemma AtoiReadsSigned(spaces: string, n: nat, rest: string)
    requires Blank(spaces) && (rest == "" || !IsDigit(rest[0]))
    ensures Atoi(spaces + (Decimal(n) + rest)) == n
    ensures Atoi(spaces + ("-" + (Decimal(n) + rest))) == 0 - n
    ensures Atoi(spaces + ("+" + (Decimal(n) + rest))) == n
  {
    DigitsOfDecimal(n);
    DigitsAppend(Decimal(n), rest, 0);
    assert IsDigit((Decimal(n) + rest)[0]);
    TrimLeftPadded(spaces, Decimal(n) + rest);
    TrimLeftPadded(spaces, "-" + (Decimal(n) + rest));
    TrimLeftPadded(spaces, "+" + (Decimal(n) + rest));
    assert ("-" + (Decimal(n) + rest))[1..] == Decimal(n) + rest;
    assert ("+" + (Decimal(n) + rest))[1..] == Decimal(n) + rest;
  }

  lemma AtoiWithoutNumber(spaces: string, rest: string)
    requires Blank(spaces) && Trimmed(rest) && (rest == "" || (!IsDigit(rest[0]) && rest[0] != '-' && rest[0] != '+'))
    ensures Atoi(spaces + rest) == 0
  {
    TrimLeftPadded(spaces, rest);
  }

  lemma AddressSplit(host: string, tail: string)
    requires ':' !in host
    ensures Address(host + ":" + tail) == Some((host, Atoi(tail) % 0x1_0000))
  {
    var s := host + ":" + tail;
    assert s[..|host|] == host && s[|host| + 1..] == tail;
    FirstAt(s, ':', |host|);
  }

  /** The address of a node is what stands around its first colon; a bus port after the port is passed over, and the port
      is kept modulo 65536. */
  lemma AddressOfText(host: string, port: nat, rest: string)
    requires ':' !in host && (rest == "" || !IsDigit(rest[0]))
    ensures Address(host + ":" + (Decimal(port) + rest)) == Some((host, port % 0x1_0000))
  {
    AddressSplit(host, Decimal(port) + rest);
    AtoiReadsDecimal(port, rest);
  }

  lemma AddressIff(s: string)
    ensures Address(s).None? <==> ':' !in s
  {
    if ':' !in s {
      assert s[..|s|] == s;
      FirstAt(s, ':', |s|);
    }
  }

  lemma RangeSplit(first: string, last: string)
    requires '-' !in first
    ensures SlotRange(first + "-" + last) == (ToUint32(Atoi(first)), ToUint32(Atoi(last)))
    ensures SlotRange(first) == (ToUint32(Atoi(first)), ToUint32(Atoi(first)))
  {
    var s := first + "-" + last;
    assert s[..|first|] == first && s[|first| + 1..] == last;
    FirstAt(s, '-', |first|);
    assert first[..|first|] == first;
    FirstAt(first, '-', |first|);
  }

  lemma AtoiOfDecimal(n: nat)
    requires n < 0x8000_0000
    ensures ToUint32(Atoi(Decimal(n))) == n && '-' !in Decimal(n)
  {
    assert Decimal(n) + "" == Decimal(n);
    AtoiReadsDecimal(n, "");
    DigitsOfDecimal(n);
  }

  /** A range of slots, and a single slot, are read as they are written. */
  lemma RangeOfText(first: nat, last: nat)
    requires first < 0x8000_0000 && last < 0x8000_0000
    ensures SlotRange(Decimal(first) + "-" + Decimal(last)) == (first, last)
    ensures SlotRange(Decimal(first)) == (first, first)
  {
    AtoiOfDecimal(first);
    AtoiOfDecimal(last);
    RangeSplit(Decimal(first), Decimal(last));
  }

  lemma FirstAt(s: string, c: char, k: nat)
    requires k <= |s| && c !in s[..k] && (k < |s| ==> s[k] == c)
    ensures IndexOf(s, c) == k
  {
  }

  class Node {
    var id: string
    var address: Option<(string, nat)>
    var mSlots: seq<(nat, nat)>

    constructor ()
      ensures id == "" && address == None && mSlots == []
    {
      id, address, mSlots := "", None, [];
    }

    /** A string without a colon leaves the address as it was. */
    method ParseNodeString(nodeString: string) returns (ok: bool)
      modifies this`address
      ensures ok <==> Address(nodeString).Some?
      ensures address == if ok then Address(nodeString) else old(address)
    {
      var colonPos := IndexOf(nodeString, ':');
      if colonPos == |nodeString| {
        return false;
      }
      var port_str := nodeString[colonPos + 1..];
      address := Some((nodeString[..colonPos], Atoi(port_str) % 0x1_0000));
      return true;
    }

    method ParseSlotString(slotString: string)
      modifies this`mSlots
      ensures mSlots == old(mSlots) + [SlotRange(slotString)]
    {
      var startSlot, endSlot := 0, 0;
      var barPos := IndexOf(slotString, '-');
      if barPos == |slotString| {
        startSlot := ToUint32(Atoi(slotString));
        endSlot := startSlot;
      } else {
        endSlot := ToUint32(Atoi(slotString[barPos + 1..]));
        startSlot := ToUint32(Atoi(slotString[..barPos]));
      }
      mSlots := mSlots + [(startSlot, endSlot)];
    }
  }

  // ------------------------------------------------------------------ the lines that count

  /** `strstr` finds sub in s. */
  predicate Contains(s: string, sub: string) {
    sub <= s || (s != "" && Contains(s[1..], sub))
  }

  lemma {:induction false} ContainsIff(s: string, sub: string)
    ensures Contains(s, sub) <==> exists i :: 0 <= i <= |s| && sub <= s[i..]
  {
    assert s[0..] == s;
    if s != "" {
      ContainsIff(s[1..], sub);
      assert forall i :: 0 <= i < |s| ==> s[1..][i..] == s[i + 1..];
      if i :| 0 <= i <= |s| && sub <= s[i..] {
        assert i > 0 ==> s[1..][i - 1..] == s[i..];
      }
    }
  }

  function Fields(line: string): (f: seq<string>)
    ensures |f| >= 1
  {
    SplitCompressed(line, ' ')
  }

  /** A connected master. */
  predicate Usable(line: string) {
    var f := Fields(line);
    |f| >= 8 && !Contains(f[7], "disconnected") && Contains(f[2], "master")
  }

  function NodeOf(line: string): NodeInfo
    requires |Fields(line)| >= 8
  {
    var f := Fields(line);
    NodeInfo(f[0], Address(f[1]), SlotRanges(f[8..]))
  }

  function UsableLines(lines: seq<string>): (r: seq<string>)
    ensures Complete(r) && forall k :: 0 <= k < |r| ==> Usable(r[k])
  {
    if lines == [] then []
    else UsableLines(lines[..|lines| - 1]) + if Usable(lines[|lines| - 1]) then [lines[|lines| - 1]] else []
  }

  /** They are all the lines that count, in order. */
  lemma {:induction false} UsableInOrder(lines: seq<string>) returns (at: seq<nat>)
    ensures PickedAt(lines, UsableLines(lines), at)
    ensures forall i: nat :: i in at <==> i < |lines| && Usable(lines[i])
  {
    if lines == [] {
      at := [];
    } else {
      var n := |lines| - 1;
      var before := UsableInOrder(lines[..n]);
      at := PickMore(lines, UsableLines(lines[..n]), before, Usable(lines[n]));
    }
  }

  predicate Complete(lines: seq<string>) {
    forall k :: 0 <= k < |lines| ==> |Fields(lines[k])| >= 8
  }

  function NodesOf(lines: seq<string>): (r: seq<NodeInfo>)
    requires Complete(lines)
    ensures |r| == |lines| && forall k :: 0 <= k < |r| ==> r[k] == NodeOf(lines[k])
  {
    if lines == [] then [] else NodesOf(lines[..|lines| - 1]) + [NodeOf(lines[|lines| - 1])]
  }

  /** One line that counts, as the loop parses it. */
  method ParseLine(line: string) returns (node: NodeInfo)
    requires |Fields(line)| >= 8
    ensures node == NodeOf(line)
  {
    var nodeinfo := Fields(line);
    var n := new Node();
    n.id := nodeinfo[0];
    var _ := n.ParseNodeString(nodeinfo[1]);
    for j := 8 to |nodeinfo|
      invariant n.id == nodeinfo[0] && n.address == Address(nodeinfo[1])
      invariant n.mSlots == SlotRanges(nodeinfo[8..j])
    {
      assert nodeinfo[8..j + 1][..j - 8] == nodeinfo[8..j];
      n.ParseSlotString(nodeinfo[j]);
    }
    assert nodeinfo[8..|nodeinfo|] == nodeinfo[8..];
    node := NodeInfo(n.id, n.address, n.mSlots);
  }

  lemma OneMoreLine(lines: seq<string>, i: nat)
    requires i < |lines|
    ensures UsableLines(lines[..i + 1]) == UsableLines(lines[..i]) + if Usable(lines[i]) then [lines[i]] else []
  {
    assert lines[..i + 1][..i] == lines[..i];
  }

  lemma OneMoreNode(lines: seq<string>, line: string)
    requires Complete(lines) && |Fields(line)| >= 8
    ensures Complete(lines + [line]) && NodesOf(lines + [line]) == NodesOf(lines) + [NodeOf(line)]
  {
    assert (lines + [line])[..|lines|] == lines;
  }

  /** The reply, line by line: the lines that count, in order, and the node of each. */
  method ReadReply(reply: string) returns (validLines: seq<string>, nodes: seq<NodeInfo>)
    ensures validLines == UsableLines(SplitCompressed(Trim(reply), '\n'))
    ensures nodes == NodesOf(validLines)
  {
    var vlines := SplitCompressed(Trim(reply), '\n');
    validLines, nodes := [], [];
    for i := 0 to |vlines|
      invariant validLines == UsableLines(vlines[..i])
      invariant nodes == NodesOf(validLines)
    {
      OneMoreLine(vlines, i);
      var usable := IsUsable(vlines[i]);
      if usable {
        var node := ParseLine(vlines[i]);
        OneMoreNode(validLines, vlines[i]);
        validLines := validLines + [vlines[i]];
        nodes := nodes + [node];
      }
    }
    assert vlines[..|vlines|] == vlines;
  }

  method IsUsable(line: string) returns (usable: bool)
    ensures usable <==> Usable(line)
  {
    var nodeinfo := Fields(line);
    if |nodeinfo| < 8 {
      return false;
    }
    if Contains(nodeinfo[7], "disconnected") {
      return false;
    }
    if !Contains(nodeinfo[2], "master") {
      return false;
    }
    return true;
  }

  // ------------------------------------------------------------------ has anything changed?

  /** Two lines that differ at most in the fields 2 to 7: flags, master, times, epoch and link state. */
  predicate SameNode(line0: string, line1: string) {
    var f0, f1 := Fields(line0), Fields(line1);
    && |f0| >= 8 && |f1| == |f0|
    && f0[0] == f1[0] && f0[1] == f1[1] && f0[8..] == f1[8..]
  }

  /** The comparison answers no exactly when the lines correspond one to one, each to the same node. */
  method IsChannelPoolChanged(lines0: seq<string>, lines1: seq<string>) returns (changed: bool)
    ensures !changed <==> |lines0| == |lines1| && forall i :: 0 <= i < |lines0| ==> SameNode(lines0[i], lines1[i])
  {
    if |lines0| != |lines1| {
      return true;
    }
    for i := 0 to |lines0|
      invariant forall k :: 0 <= k < i ==> SameNode(lines0[k], lines1[k])
    {
      var differs := LinesDiffer(lines0[i], lines1[i]);
      if differs {
        return true;
      }
    }
    return false;
  }

  method LinesDiffer(line0: string, line1: string) returns (differs: bool)
    ensures differs <==> !SameNode(line0, line1)
  {
    var fields_0, fields_1 := Fields(line0), Fields(line1);
    if |fields_0| < 8 || |fields_1| < 8 {
      return true;
    }
    if |fields_0| != |fields_1| {
      return true;
    }
    if fields_0[0] != fields_1[0] || fields_0[1] != fields_1[1] {
      return true;
    }
    for j := 8 to |fields_1|
      invariant fields_0[8..j] == fields_1[8..j]
    {
      if fields_0[j] != fields_1[j] {
        assert fields_0[8..][j - 8] != fields_1[8..][j - 8];
        return true;
      }
      assert fields_0[8..j + 1] == fields_0[8..j] + [fields_0[j]];
      assert fields_1[8..j + 1] == fields_1[8..j] + [fields_1[j]];
    }
    assert fields_0[8..] == fields_0[8..|fields_1|] && fields_1[8..] == fields_1[8..|fields_1|];
    return false;
  }

  ghost predicate SameRouting(v0: seq<int>, v1: seq<int>) {
    forall key :: NodeIndex(v0, KeySlotOf(key)) == NodeIndex(v1, KeySlotOf(key))
  }

  lemma SameNodesSameRouting(v0: seq<int>, v1: seq<int>, nodes: seq<NodeInfo>)
    requires Fresh(v0, nodes) && Fresh(v1, nodes)
    ensures SameRouting(v0, v1)
  {
    FreshAgrees(v0, nodes);
    FreshAgrees(v1, nodes);
    forall key ensures NodeIndex(v0, KeySlotOf(key)) == NodeIndex(v1, KeySlotOf(key)) {
      assert Agrees(v0, nodes, KeySlotOf(key)) && Agrees(v1, nodes, KeySlotOf(key));
    }
  }

  lemma SameLinesSameNodes(lines0: seq<string>, lines1: seq<string>)
    requires |lines0| == |lines1| && forall i :: 0 <= i < |lines0| ==> SameNode(lines0[i], lines1[i])
    ensures Complete(lines0) && Complete(lines1) && NodesOf(lines0) == NodesOf(lines1)
  {
    forall k | 0 <= k < |lines0| ensures |Fields(lines0[k])| >= 8 && |Fields(lines1[k])| >= 8 && NodeOf(lines0[k]) == NodeOf(lines1[k]) {
      assert SameNode(lines0[k], lines1[k]);
    }
  }

  /** Skipping the rebuild is sound: when nothing has changed, the two pools' lines parse to the same nodes, with the
      same ids, addresses and slots in the same order, and an index built from either sends every key to the same
      node. */
  lemma UnchangedMeansSameRouting(lines0: seq<string>, lines1: seq<string>, v0: seq<int>, v1: seq<int>)
    requires |lines0| == |lines1| && forall i :: 0 <= i < |lines0| ==> SameNode(lines0[i], lines1[i])
    requires Complete(lines0) && Complete(lines1)
    requires Fresh(v0, NodesOf(lines0)) && Fresh(v1, NodesOf(lines1))
    ensures NodesOf(lines0) == NodesOf(lines1) && SameRouting(v0, v1)
  {
    SameLinesSameNodes(lines0, lines1);
    SameNodesSameRouting(v0, v1, NodesOf(lines0));
  }

  /** From the text of a reply to the routing of a key: with the index built from its lines, a key whose slot is listed
      in one of them is sent to the node of the last such line. */
  lemma RoutedByLines(lines: seq<string>, v: seq<int>, key: Option<seq<bv8>>, i: nat)
    requires Complete(lines) && |lines| < 0x8000_0000 && Fresh(v, NodesOf(lines))
    requires i < |lines| && Owns(NodeOf(lines[i]), KeySlotOf(key))
    ensures var index := NodeIndex(v, KeySlotOf(key));
            && i <= index < |lines| && Owns(NodeOf(lines[index]), KeySlotOf(key))
            && forall k :: index < k < |lines| ==> !Owns(NodeOf(lines[k]), KeySlotOf(key))
  {
    FreshAgrees(v, NodesOf(lines));
    Routing(v, NodesOf(lines), key);
    assert Owns(NodesOf(lines)[i], KeySlotOf(key));
  }

  // ------------------------------------------------------------------ the client

  /** Every line that counts lists slots that the range loop can finish. */
  ghost predicate Finite(lines: seq<string>) {
    Complete(lines) && forall i :: 0 <= i < |lines| ==> EndsBelowMax(NodeOf(lines[i]))
  }

  ghost predicate Unchanged(lines0: seq<string>, lines1: seq<string>) {
    |lines0| == |lines1| && forall i :: 0 <= i < |lines0| ==> SameNode(lines0[i], lines1[i])
  }

  class RedisClient {
    const pool0: ChannelPool
    const pool1: ChannelPool

    /** Both pools start empty and the first one reads the reply.  Its index then agrees with the reply: when no line
        counts nothing is built, and every key goes to node 0. */
    constructor (reply: string)
      requires Finite(UsableLines(SplitCompressed(Trim(reply), '\n')))
      ensures pool0.validLines == UsableLines(SplitCompressed(Trim(reply), '\n'))
      ensures Complete(pool0.validLines)
      ensures if pool0.validLines == [] then pool0.slotIndex == [] else Fresh(pool0.slotIndex, NodesOf(pool0.validLines))
    {
      pool0 := new ChannelPool();
      pool1 := new ChannelPool();
      new;
      InitChannelPool(pool0, reply);
    }

    /** The pool takes the lines of the reply; its index is rebuilt over the old one unless the two pools' lines now
        correspond. */
    method InitChannelPool(pool: ChannelPool, reply: string)
      requires pool0 != pool1 && (pool == pool0 || pool == pool1)
      requires Finite(UsableLines(SplitCompressed(Trim(reply), '\n')))
      modifies pool
      ensures pool.validLines == UsableLines(SplitCompressed(Trim(reply), '\n'))
      ensures Complete(pool.validLines)
      ensures if Unchanged(pool0.validLines, pool1.validLines) then pool.slotIndex == old(pool.slotIndex)
              else Covers(pool.slotIndex, NodesOf(pool.validLines), |pool.validLines|, 0, Resized(old(pool.slotIndex), SLOTS))
    {
      var nodes;
      pool.validLines, nodes := ReadReply(reply);
      var changed := IsChannelPoolChanged(pool0.validLines, pool1.validLines);
      if !changed {
        return;
      }
      pool.InitSlotNodeMap(nodes);
    }
  }
}
