/** The reply to `cluster nodes` as Redis writes it, and that it is read back. */
module ReplyText {
  import opened ClusterNodes
  import opened Options
  import opened SlotMap
  import opened Text

  /** The fields of a line: the node's id; its address, with whatever follows the port; its flags; the four fields that
      are passed over; the state of its link; and its slots. */
  datatype Line = Line(id: string, host: string, port: nat, rest: string, flags: string, others: seq<string>, link: string,
                       slots: seq<(nat, nat)>)

  function SlotText(range: (nat, nat)): string {
    if range.0 == range.1 then Decimal(range.0) else Decimal(range.0) + "-" + Decimal(range.1)
  }

  function SlotTexts(slots: seq<(nat, nat)>): (r: seq<string>)
    ensures |r| == |slots| && forall k :: 0 <= k < |r| ==> r[k] == SlotText(slots[k])
  {
    if slots == [] then [] else SlotTexts(slots[..|slots| - 1]) + [SlotText(slots[|slots| - 1])]
  }

  function FieldsOf(l: Line): seq<string> {
    [l.id, l.host + ":" + (Decimal(l.port) + l.rest), l.flags] + l.others + [l.link] + SlotTexts(l.slots)
  }

  function Written(l: Line): string {
    Join(FieldsOf(l), ' ')
  }

  predicate IsField(s: string) {
    s != "" && Solid(s)
  }

  /** No field is empty or holds a space, and the numbers are in range. */
  predicate Proper(l: Line) {
    && IsField(l.id) && IsField(l.flags) && IsField(l.link)
    && |l.others| == 4 && (forall i :: 0 <= i < 4 ==> IsField(l.others[i]))
    && Solid(l.host) && ':' !in l.host && l.port < 0x1_0000
    && Solid(l.rest) && (l.rest == "" || !IsDigit(l.rest[0]))
    && (forall k :: 0 <= k < |l.slots| ==> l.slots[k].0 < 0x8000_0000 && l.slots[k].1 < 0x8000_0000)
  }

  predicate ConnectedMaster(l: Line) {
    Contains(l.flags, "master") && !Contains(l.link, "disconnected")
  }

  lemma DecimalIsField(n: nat)
    ensures IsField(Decimal(n))
  {
    DigitsOfDecimal(n);
  }

  lemma SlotTextIsField(range: (nat, nat))
    ensures IsField(SlotText(range))
  {
    DecimalIsField(range.0);
    DecimalIsField(range.1);
  }

  lemma AddressIsField(host: string, port: nat, rest: string)
    requires Solid(host) && Solid(rest)
    ensures IsField(host + ":" + (Decimal(port) + rest))
  {
    DecimalIsField(port);
  }

  lemma FieldsAreFields(l: Line)
    requires Proper(l)
    ensures forall i :: 0 <= i < |FieldsOf(l)| ==> IsField(FieldsOf(l)[i])
  {
    AddressIsField(l.host, l.port, l.rest);
    forall k | 0 <= k < |l.slots| ensures IsField(SlotText(l.slots[k])) {
      SlotTextIsField(l.slots[k]);
    }
    assert FieldsOf(l)[8..] == SlotTexts(l.slots);
    assert FieldsOf(l)[3..7] == l.others;
    forall i | 0 <= i < |FieldsOf(l)| ensures IsField(FieldsOf(l)[i]) {
      if i >= 8 {
        assert FieldsOf(l)[i] == SlotTexts(l.slots)[i - 8];
      } else if 3 <= i < 7 {
        assert FieldsOf(l)[i] == l.others[i - 3];
      }
    }
  }

  lemma NoSpaceNoDelimiter(fields: seq<string>, d: char)
    requires IsSpace(d) && forall i :: 0 <= i < |fields| ==> IsField(fields[i])
    ensures Free(fields, d)
  {
  }

  lemma SlotReadsBack(range: (nat, nat))
    requires range.0 < 0x8000_0000 && range.1 < 0x8000_0000
    ensures SlotRange(SlotText(range)) == range
  {
    RangeOfText(range.0, range.1);
  }

  lemma SlotsReadBack(slots: seq<(nat, nat)>)
    requires forall k :: 0 <= k < |slots| ==> slots[k].0 < 0x8000_0000 && slots[k].1 < 0x8000_0000
    ensures SlotRanges(SlotTexts(slots)) == slots
  {
    var texts := SlotTexts(slots);
    forall k | 0 <= k < |slots| ensures SlotRanges(texts)[k] == slots[k] {
      SlotReadsBack(slots[k]);
    }
  }

  lemma SmallAddress(host: string, port: nat, rest: string)
    requires ':' !in host && port < 0x1_0000 && (rest == "" || !IsDigit(rest[0]))
    ensures Address(host + ":" + (Decimal(port) + rest)) == Some((host, port))
  {
    AddressOfText(host, port, rest);
  }

  lemma FieldsOfWritten(l: Line)
    requires Proper(l)
    ensures Fields(Written(l)) == FieldsOf(l)
  {
    FieldsAreFields(l);
    NoSpaceNoDelimiter(FieldsOf(l), ' ');
    FieldsReadBack(FieldsOf(l), ' ');
  }

  lemma FieldsByPosition(l: Line)
    requires Proper(l)
    ensures var f := FieldsOf(l);
            && |f| >= 8 && f[0] == l.id && f[2] == l.flags && f[7] == l.link
            && f[1] == l.host + ":" + (Decimal(l.port) + l.rest) && f[8..] == SlotTexts(l.slots)
  {
  }

  /** A line is read back: its node is the one described, and it counts exactly if it is a connected master. */
  lemma LineReadsBack(l: Line)
    requires Proper(l)
    ensures |Fields(Written(l))| >= 8 && NodeOf(Written(l)) == NodeInfo(l.id, Some((l.host, l.port)), l.slots)
    ensures Usable(Written(l)) <==> ConnectedMaster(l)
  {
    FieldsOfWritten(l);
    FieldsByPosition(l);
    SmallAddress(l.host, l.port, l.rest);
    SlotsReadBack(l.slots);
  }

  function AllWritten(ls: seq<Line>): (r: seq<string>)
    ensures |r| == |ls| && forall k :: 0 <= k < |r| ==> r[k] == Written(ls[k])
  {
    if ls == [] then [] else AllWritten(ls[..|ls| - 1]) + [Written(ls[|ls| - 1])]
  }

  /** The reply: the lines, and a line feed after the last one. */
  function Reply(ls: seq<Line>): string
    requires |ls| >= 1
  {
    Join(AllWritten(ls), '\n') + "\n"
  }

  /** The nodes of the connected masters, in order. */
  function Masters(ls: seq<Line>): seq<NodeInfo> {
    if ls == [] then []
    else
      var l := ls[|ls| - 1];
      Masters(ls[..|ls| - 1]) + if ConnectedMaster(l) then [NodeInfo(l.id, Some((l.host, l.port)), l.slots)] else []
  }

  predicate IsLine(s: string) {
    s != "" && !IsSpace(s[0]) && !IsSpace(s[|s| - 1]) && '\n' !in s
  }

  lemma WrittenLine(l: Line)
    requires Proper(l)
    ensures IsLine(Written(l))
  {
    FieldsAreFields(l);
    JoinEnds(FieldsOf(l), ' ');
    NoSpaceNoDelimiter(FieldsOf(l), '\n');
    JoinFree(FieldsOf(l), ' ', '\n');
  }

  lemma SplitLines(lines: seq<string>)
    requires |lines| >= 1 && forall k :: 0 <= k < |lines| ==> IsLine(lines[k])
    ensures SplitCompressed(Trim(Join(lines, '\n') + "\n"), '\n') == lines
  {
    JoinEnds(lines, '\n');
    assert IsLine(lines[0]) && IsLine(lines[|lines| - 1]);
    TrimKeeps(Join(lines, '\n'));
    FieldsReadBack(lines, '\n');
  }

  lemma LinesReadBack(ls: seq<Line>)
    requires |ls| >= 1 && forall k :: 0 <= k < |ls| ==> Proper(ls[k])
    ensures SplitCompressed(Trim(Reply(ls)), '\n') == AllWritten(ls)
  {
    var lines := AllWritten(ls);
    forall k | 0 <= k < |lines| ensures IsLine(lines[k]) {
      assert lines[k] == Written(ls[k]);
      WrittenLine(ls[k]);
    }
    SplitLines(lines);
  }

  lemma {:induction false} MastersReadBack(ls: seq<Line>)
    requires forall k :: 0 <= k < |ls| ==> Proper(ls[k])
    ensures NodesOf(UsableLines(AllWritten(ls))) == Masters(ls)
  {
    if ls != [] {
      var front := ls[..|ls| - 1];
      MastersReadBack(front);
      LineReadsBack(ls[|ls| - 1]);
      assert AllWritten(ls)[..|front|] == AllWritten(front);
      var usable := UsableLines(AllWritten(front));
      assert (usable + [Written(ls[|ls| - 1])])[..|usable|] == usable;
    }
  }

  /** The round trip: of a reply with these lines, `ReadReply` makes the nodes of the connected masters, with their ids,
      addresses and slots, in order. */
  lemma ReplyReadsBack(ls: seq<Line>)
    requires |ls| >= 1 && forall k :: 0 <= k < |ls| ==> Proper(ls[k])
    ensures NodesOf(UsableLines(SplitCompressed(Trim(Reply(ls)), '\n'))) == Masters(ls)
  {
    LinesReadBack(ls);
    MastersReadBack(ls);
  }

  // ------------------------------------------------------------------ which lines correspond

  lemma SameAddressText(host0: string, port0: nat, rest0: string, host1: string, port1: nat, rest1: string)
    requires ':' !in host0 && port0 < 0x1_0000 && (rest0 == "" || !IsDigit(rest0[0]))
    requires ':' !in host1 && port1 < 0x1_0000 && (rest1 == "" || !IsDigit(rest1[0]))
    requires host0 + ":" + (Decimal(port0) + rest0) == host1 + ":" + (Decimal(port1) + rest1)
    ensures host0 == host1 && port0 == port1 && rest0 == rest1
  {
    SmallAddress(host0, port0, rest0);
    SmallAddress(host1, port1, rest1);
    SameEnd(host0 + ":", Decimal(port0), rest0, rest1);
  }

  lemma SameEnd(a: string, b: string, c: string, d: string)
    requires a + (b + c) == a + (b + d)
    ensures c == d
  {
    assert c == (a + (b + c))[|a| + |b|..] && d == (a + (b + d))[|a| + |b|..];
  }

  lemma SameSlotTexts(l0: Line, l1: Line)
    requires Proper(l0) && Proper(l1)
    ensures SlotTexts(l0.slots) == SlotTexts(l1.slots) <==> l0.slots == l1.slots
  {
    SlotsReadBack(l0.slots);
    SlotsReadBack(l1.slots);
  }

  /** Two lines are taken for the same node exactly if they agree in id, address and slots, whatever their flags, their
      times and the state of their links. */
  lemma SameNodeIff(l0: Line, l1: Line)
    requires Proper(l0) && Proper(l1)
    ensures SameNode(Written(l0), Written(l1)) <==>
              l0.id == l1.id && l0.host == l1.host && l0.port == l1.port && l0.rest == l1.rest && l0.slots == l1.slots
  {
    FieldsOfWritten(l0);
    FieldsOfWritten(l1);
    FieldsByPosition(l0);
    FieldsByPosition(l1);
    if FieldsOf(l0)[1] == FieldsOf(l1)[1] {
      SameAddressText(l0.host, l0.port, l0.rest, l1.host, l1.port, l1.rest);
    }
    SameSlotTexts(l0, l1);
  }
}
