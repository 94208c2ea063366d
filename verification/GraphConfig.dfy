/** What the configuration of a graph declares: the entries, their lists of names, and the edges and nodes that follow
    from them. */
module GraphConfig {
  import opened Text

  /** One entry of a graph's configuration.  `children` and `parents` are the comma-separated pieces of the two
      attributes, not yet trimmed; a missing or blank attribute has none. */
  datatype Entry = Entry(name: string, children: seq<string>, parents: seq<string>, root: bool)

  /** The pieces of an attribute's text; a blank one has none. */
  function Pieces(attribute: string): seq<string> {
    var text := Trim(attribute);
    if text == "" then [] else Split(text, ',')
  }

  /** An entry as the configuration holds it: the text of its attributes, "" for a missing one. */
  datatype Attributes = Attributes(name: string, children: string, parents: string, root: bool)

  function EntryOf(a: Attributes): Entry {
    Entry(a.name, Pieces(a.children), Pieces(a.parents), a.root)
  }

  function EntriesOf(conf: seq<Attributes>): (r: seq<Entry>)
    ensures |r| == |conf| && forall i :: 0 <= i < |r| ==> r[i] == EntryOf(conf[i])
  {
    if conf == [] then [] else EntriesOf(conf[..|conf| - 1]) + [EntryOf(conf[|conf| - 1])]
  }

  /** The names listed under `children`; pieces that are empty before trimming are passed over. */
  ghost function ChildNames(pieces: seq<string>, known: set<string>): set<string> {
    set i | 0 <= i < |pieces| && pieces[i] != "" && Trim(pieces[i]) in known :: Trim(pieces[i])
  }

  ghost function ParentNames(pieces: seq<string>, known: set<string>): set<string> {
    set i | 0 <= i < |pieces| && Trim(pieces[i]) in known :: Trim(pieces[i])
  }

  // ------------------------------------------------------------------ what a configuration declares

  ghost function EdgesFrom(a: string, heads: set<string>): set<(string, string)> {
    set b | b in heads :: (a, b)
  }

  ghost function EdgesTo(b: string, tails: set<string>): set<(string, string)> {
    set a | a in tails :: (a, b)
  }

  /** Entry e lists b as a child of a, or a as a parent of b, and the listed name has a node class. */
  ghost predicate Declares(e: Entry, known: set<string>, a: string, b: string) {
    || (e.name == a && b in ChildNames(e.children, known))
    || (e.name == b && a in ParentNames(e.parents, known))
  }

  ghost predicate Mentions(e: Entry, known: set<string>, a: string) {
    e.name == a || a in ChildNames(e.children, known) || a in ParentNames(e.parents, known)
  }

  ghost predicate DeclaredEdge(conf: seq<Entry>, known: set<string>, a: string, b: string) {
    exists e :: e in conf && Declares(e, known, a, b)
  }

  ghost predicate DeclaredName(conf: seq<Entry>, known: set<string>, a: string) {
    exists e :: e in conf && Mentions(e, known, a)
  }

  /** What is declared does not depend on the order of the entries. */
  lemma DeclaredAlike(conf1: seq<Entry>, conf2: seq<Entry>, known: set<string>)
    requires multiset(conf1) == multiset(conf2)
    ensures forall a, b :: DeclaredEdge(conf1, known, a, b) <==> DeclaredEdge(conf2, known, a, b)
    ensures forall a :: DeclaredName(conf1, known, a) <==> DeclaredName(conf2, known, a)
  {
    assert forall e :: e in multiset(conf1) <==> e in conf1;
    assert forall e :: e in multiset(conf2) <==> e in conf2;
  }

  // ------------------------------------------------------------------ lists of names as text

  predicate ProperName(name: string) {
    name != "" && ',' !in name && Trimmed(name)
  }

  /** The names with spaces on either side. */
  function Padded(names: seq<string>, lefts: seq<string>, rights: seq<string>): (r: seq<string>)
    requires |names| == |lefts| == |rights|
    ensures |r| == |names| && forall i :: 0 <= i < |r| ==> r[i] == lefts[i] + names[i] + rights[i]
  {
    if names == [] then []
    else
      var n := |names| - 1;
      Padded(names[..n], lefts[..n], rights[..n]) + [lefts[n] + names[n] + rights[n]]
  }

  predicate AllBlank(texts: seq<string>) {
    forall i :: 0 <= i < |texts| ==> Blank(texts[i])
  }

  predicate AllProper(names: seq<string>) {
    forall i :: 0 <= i < |names| ==> ProperName(names[i])
  }

  /** The text lists the names, with commas between them and any spaces around them. */
  ghost predicate Lists(text: string, names: seq<string>) {
    && AllProper(names)
    && if names == [] then Blank(text)
       else exists lefts, rights ::
         |lefts| == |rights| == |names| && AllBlank(lefts) && AllBlank(rights) && text == Join(Padded(names, lefts, rights), ',')
  }

  ghost function Members(names: seq<string>, known: set<string>): set<string> {
    set n | n in names && n in known
  }

  /** These pieces are the names, untrimmed. */
  predicate Hold(pieces: seq<string>, names: seq<string>) {
    |pieces| == |names| && forall i :: 0 <= i < |pieces| ==> pieces[i] != "" && Trim(pieces[i]) == names[i]
  }

  /** Outer spaces are trimmed off the whole text. */
  lemma OuterSpaces(names: seq<string>, lefts: seq<string>, rights: seq<string>)
    requires |names| == |lefts| == |rights| >= 1
    ensures var n := |names| - 1;
            Join(Padded(names, lefts, rights), ',') ==
            lefts[0] + Join(Padded(names, lefts[0 := ""], rights[n := ""]), ',') + rights[n]
  {
    var n := |names| - 1;
    var inner := Padded(names, lefts[0 := ""], rights[n := ""]);
    JoinPaddedLast(inner, rights[n], ',');
    var most := inner[..n] + [inner[n] + rights[n]];
    JoinPaddedFirst(lefts[0], most, ',');
    var whole := [lefts[0] + most[0]] + most[1..];
    forall i | 0 <= i <= n ensures whole[i] == lefts[i] + names[i] + rights[i] {
      OneOuter(lefts[i], names[i], rights[i]);
    }
    assert whole == Padded(names, lefts, rights);
  }

  lemma OneOuter(l: string, s: string, r: string)
    ensures l + ("" + s + r) == l + s + r && (l + s + "") + r == l + s + r && l + (("" + s + "") + r) == l + s + r
  {
    assert "" + s == s && (l + s) + "" == l + s;
  }

  lemma NoCommas(names: seq<string>, lefts: seq<string>, rights: seq<string>)
    requires |names| == |lefts| == |rights| && AllProper(names) && AllBlank(lefts) && AllBlank(rights)
    ensures Free(Padded(names, lefts, rights), ',')
  {
    forall i | 0 <= i < |names| ensures ',' !in lefts[i] + names[i] + rights[i] {
      assert ProperName(names[i]) && Blank(lefts[i]) && Blank(rights[i]);
    }
  }

  lemma PaddedHold(names: seq<string>, lefts: seq<string>, rights: seq<string>)
    requires |names| == |lefts| == |rights| && AllProper(names) && AllBlank(lefts) && AllBlank(rights)
    ensures Hold(Padded(names, lefts, rights), names)
  {
    forall i | 0 <= i < |names| ensures Trim(lefts[i] + names[i] + rights[i]) == names[i] {
      assert ProperName(names[i]);
      TrimPadded(lefts[i], names[i], rights[i]);
    }
  }

  lemma EndsTrimmed(s: string, first: string, rest: string, front: string, last: string)
    requires s != "" && first != "" && last != "" && !IsSpace(first[0]) && !IsSpace(last[|last| - 1])
    requires s[0] == ("" + first + rest)[0] && s[|s| - 1] == (front + last + "")[|front + last| - 1]
    ensures Trimmed(s)
  {
    assert (front + last)[|front + last| - 1] == last[|last| - 1];
  }

  lemma PiecesNotEmpty(names: seq<string>, lefts: seq<string>, rights: seq<string>)
    requires |names| == |lefts| == |rights| && AllProper(names)
    ensures forall i :: 0 <= i < |names| ==> Padded(names, lefts, rights)[i] != ""
  {
    forall i | 0 <= i < |names| ensures lefts[i] + names[i] + rights[i] != "" {
      assert ProperName(names[i]);
    }
  }

  /** The text between the outer spaces neither begins nor ends with a space. */
  lemma InnerTrimmed(names: seq<string>, lefts: seq<string>, rights: seq<string>)
    requires |names| == |lefts| == |rights| >= 1 && AllProper(names) && lefts[0] == "" && rights[|names| - 1] == ""
    ensures Trimmed(Join(Padded(names, lefts, rights), ','))
  {
    var n := |names| - 1;
    PiecesNotEmpty(names, lefts, rights);
    JoinEnds(Padded(names, lefts, rights), ',');
    assert ProperName(names[0]) && ProperName(names[n]);
    EndsTrimmed(Join(Padded(names, lefts, rights), ','), names[0], rights[0], lefts[n], names[n]);
  }

  lemma PiecesHold(text: string, names: seq<string>)
    requires Lists(text, names)
    ensures Hold(Pieces(text), names)
  {
    if names == [] {
      assert text == text + "" + "";
      TrimPadded(text, "", "");
    } else {
      var lefts, rights :|
        |lefts| == |rights| == |names| && AllBlank(lefts) && AllBlank(rights) && text == Join(Padded(names, lefts, rights), ',');
      var n := |names| - 1;
      var l, r := lefts[0 := ""], rights[n := ""];
      var inner := Padded(names, l, r);
      OuterSpaces(names, lefts, rights);
      InnerTrimmed(names, l, r);
      TrimPadded(lefts[0], Join(inner, ','), rights[n]);
      NoCommas(names, l, r);
      JoinSplits(inner, ',');
      PaddedHold(names, l, r);
      NotBlank(inner, names);
    }
  }

  lemma NotBlank(pieces: seq<string>, names: seq<string>)
    requires Hold(pieces, names) && |pieces| >= 1
    ensures Join(pieces, ',') != ""
  {
    JoinEnds(pieces, ',');
  }

  lemma NamesAreMembers(pieces: seq<string>, names: seq<string>, known: set<string>)
    requires Hold(pieces, names)
    ensures ChildNames(pieces, known) == Members(names, known) && ParentNames(pieces, known) == Members(names, known)
  {
    forall n | n in Members(names, known) ensures n in ChildNames(pieces, known) && n in ParentNames(pieces, known) {
      var i :| 0 <= i < |names| && names[i] == n;
      assert Trim(pieces[i]) == n;
    }
  }

  /** Names listed with commas between them, and with any spaces around them, are read as those names: the entry declares
      exactly the edges to its children and from its parents that have a class, and mentions exactly these nodes and
      itself. */
  lemma EntryReadsBack(a: Attributes, children: seq<string>, parents: seq<string>, known: set<string>)
    requires Lists(a.children, children) && Lists(a.parents, parents)
    ensures var e := EntryOf(a);
            && e.name == a.name && e.root == a.root
            && (forall u, v :: Declares(e, known, u, v) <==>
                  (u == a.name && v in children && v in known) || (v == a.name && u in parents && u in known))
            && (forall u :: Mentions(e, known, u) <==> u == a.name || ((u in children || u in parents) && u in known))
  {
    PiecesHold(a.children, children);
    PiecesHold(a.parents, parents);
    NamesAreMembers(Pieces(a.children), children, known);
    NamesAreMembers(Pieces(a.parents), parents, known);
  }

  /** The first entry of the sample configuration: both children are read, although there is a space before the second. */
  lemma SpaceAfterComma()
    ensures var e, known := EntryOf(Attributes("start", "mid1, mid2", "", true)), {"mid1", "mid2"};
            Declares(e, known, "start", "mid1") && Declares(e, known, "start", "mid2")
  {
    var names, lefts, rights := ["mid1", "mid2"], ["", " "], ["", ""];
    assert "" + "mid1" + "" == "mid1" && " " + "mid2" + "" == " mid2";
    assert Padded(names, lefts, rights) == ["mid1", " mid2"];
    assert Join(["mid1", " mid2"], ',') == "mid1, mid2" by {
      assert ["mid1", " mid2"][1..] == [" mid2"];
    }
    assert Lists("mid1, mid2", names);
    EntryReadsBack(Attributes("start", "mid1, mid2", "", true), names, [], {"mid1", "mid2"});
  }
}
