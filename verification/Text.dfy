/** The string operations used on configuration values and on the `cluster nodes` reply. */
module Text {

  predicate IsSpace(c: char): (b: bool)
    ensures b <==> c as int == 32 || 9 <= c as int <= 13
  {
    c in {' ', '\t', '\n', '\r', '\U{000b}', '\U{000c}'}
  }

  function TrimLeft(s: string): string {
    if s != "" && IsSpace(s[0]) then TrimLeft(s[1..]) else s
  }

  function TrimRight(s: string): string {
    if s != "" && IsSpace(s[|s| - 1]) then TrimRight(s[..|s| - 1]) else s
  }

  function Trim(s: string): string {
    TrimRight(TrimLeft(s))
  }

  /** The pieces between the delimiters, one more than there are delimiters. */
  function Split(s: string, d: char): (r: seq<string>)
    ensures |r| >= 1
  {
    if s == "" then [""]
    else
      var rest := Split(s[1..], d);
      if s[0] == d then [""] + rest else [[s[0]] + rest[0]] + rest[1..]
  }

  /** A run of delimiters counts as one. */
  function Compress(s: string, d: char): string {
    if |s| < 2 then s
    else if s[0] == d && s[1] == d then Compress(s[1..], d)
    else [s[0]] + Compress(s[1..], d)
  }

  function SplitCompressed(s: string, d: char): (r: seq<string>)
    ensures |r| >= 1
  {
    Split(Compress(s, d), d)
  }

  /** The pieces with delimiters between them. */
  function Join(pieces: seq<string>, d: char): string
    requires |pieces| >= 1
  {
    if |pieces| == 1 then pieces[0] else pieces[0] + [d] + Join(pieces[1..], d)
  }

  predicate Free(pieces: seq<string>, d: char) {
    forall i :: 0 <= i < |pieces| ==> d !in pieces[i]
  }

  /** Splitting is the inverse of joining: the pieces hold no delimiter and join to the string. */
  lemma {:induction false} SplitJoins(s: string, d: char)
    ensures Free(Split(s, d), d) && Join(Split(s, d), d) == s
  {
    if s != "" {
      var rest := Split(s[1..], d);
      SplitJoins(s[1..], d);
      if s[0] == d {
        assert ([""] + rest)[1..] == rest;
      } else {
        assert ([[s[0]] + rest[0]] + rest[1..])[1..] == rest[1..];
      }
      assert s == [s[0]] + s[1..];
    }
  }

  /** And no other list of pieces without delimiters joins to the string. */
  lemma {:induction false} JoinSplits(pieces: seq<string>, d: char)
    requires |pieces| >= 1 && Free(pieces, d)
    ensures Split(Join(pieces, d), d) == pieces
    decreases |pieces|, |pieces[0]|
  {
    var s := Join(pieces, d);
    if pieces[0] != "" {
      var shorter := [pieces[0][1..]] + pieces[1..];
      assert shorter[1..] == pieces[1..];
      JoinSplits(shorter, d);
      assert s[1..] == Join(shorter, d);
      assert s[0] == pieces[0][0] && pieces[0][0] in pieces[0];
      assert pieces[0] == [s[0]] + shorter[0];
      assert pieces == [pieces[0]] + pieces[1..];
    } else if |pieces| > 1 {
      JoinSplits(pieces[1..], d);
      assert s[1..] == Join(pieces[1..], d);
      assert pieces == [""] + pieces[1..];
    }
  }

  lemma CompressStep(s: string, d: char)
    requires |s| >= 1 && (|s| >= 2 ==> s[0] != d || s[1] != d) && Compress(s[1..], d) == s[1..]
    ensures Compress(s, d) == s
  {
  }

  lemma JoinFirst(pieces: seq<string>, d: char)
    requires |pieces| >= 1 && pieces[0] != ""
    ensures Join(pieces, d) == [pieces[0][0]] + Join([pieces[0][1..]] + pieces[1..], d)
  {
    assert ([pieces[0][1..]] + pieces[1..])[1..] == pieces[1..];
  }

  lemma {:induction false} NothingToCompress(pieces: seq<string>, d: char)
    requires |pieces| >= 1 && Free(pieces, d) && forall i :: 0 < i < |pieces| ==> pieces[i] != ""
    ensures Compress(Join(pieces, d), d) == Join(pieces, d)
    decreases |pieces|, |pieces[0]|
  {
    if pieces[0] != "" {
      NothingToCompress([pieces[0][1..]] + pieces[1..], d);
      JoinFirst(pieces, d);
      assert pieces[0][0] in pieces[0];
      CompressStep(Join(pieces, d), d);
    } else if |pieces| > 1 {
      NothingToCompress(pieces[1..], d);
      JoinFirst(pieces[1..], d);
      assert pieces[1][0] in pieces[1];
      assert Join(pieces, d)[1..] == Join(pieces[1..], d);
      CompressStep(Join(pieces, d), d);
    }
  }

  /** Non-empty fields are read back as they were written. */
  lemma FieldsReadBack(fields: seq<string>, d: char)
    requires |fields| >= 1 && Free(fields, d) && forall i :: 0 < i < |fields| ==> fields[i] != ""
    ensures SplitCompressed(Join(fields, d), d) == fields
  {
    NothingToCompress(fields, d);
    JoinSplits(fields, d);
  }

  predicate Solid(s: string) {
    forall i :: 0 <= i < |s| ==> !IsSpace(s[i])
  }

  predicate Blank(s: string) {
    forall i :: 0 <= i < |s| ==> IsSpace(s[i])
  }

  /** Nothing, or a string that neither begins nor ends with a space. */
  predicate Trimmed(s: string) {
    s == "" || (!IsSpace(s[0]) && !IsSpace(s[|s| - 1]))
  }

  lemma {:induction false} TrimLeftPadded(a: string, t: string)
    requires Blank(a) && (t == "" || !IsSpace(t[0]))
    ensures TrimLeft(a + t) == t
  {
    if a == "" {
      assert a + t == t;
    } else {
      assert (a + t)[1..] == a[1..] + t;
      TrimLeftPadded(a[1..], t);
    }
  }

  lemma {:induction false} TrimRightPadded(t: string, b: string)
    requires Blank(b) && (t == "" || !IsSpace(t[|t| - 1]))
    ensures TrimRight(t + b) == t
  {
    if b == "" {
      assert t + b == t;
    } else {
      assert (t + b)[..|t + b| - 1] == t + b[..|b| - 1];
      TrimRightPadded(t, b[..|b| - 1]);
    }
  }

  /** Trimming takes off the spaces on either side, and nothing else. */
  lemma TrimPadded(a: string, s: string, b: string)
    requires Blank(a) && Blank(b) && Trimmed(s)
    ensures Trim(a + s + b) == s
  {
    if s == "" {
      assert a + s + b == (a + b) + "";
      TrimLeftPadded(a + b, "");
    } else {
      assert a + s + b == a + (s + b);
      TrimLeftPadded(a, s + b);
      TrimRightPadded(s, b);
    }
  }

  lemma TrimKeeps(s: string)
    requires s != "" && Trimmed(s)
    ensures Trim(s) == s && Trim(s + "\n") == s
  {
    TrimPadded("", s, "");
    assert "" + s + "" == s;
    TrimPadded("", s, "\n");
    assert "" + s + "\n" == s + "\n";
  }

  lemma {:induction false} JoinEnds(pieces: seq<string>, d: char)
    requires |pieces| >= 1 && forall i :: 0 <= i < |pieces| ==> pieces[i] != ""
    ensures var s, last := Join(pieces, d), pieces[|pieces| - 1];
            s != "" && s[0] == pieces[0][0] && s[|s| - 1] == last[|last| - 1]
  {
    if |pieces| > 1 {
      JoinEnds(pieces[1..], d);
    }
  }

  /** Every character of the joined pieces is a delimiter or one of a piece's. */
  lemma {:induction false} JoinFree(pieces: seq<string>, d: char, c: char)
    requires |pieces| >= 1 && Free(pieces, c) && c != d
    ensures c !in Join(pieces, d)
  {
    if |pieces| > 1 {
      JoinFree(pieces[1..], d, c);
    }
  }

  lemma JoinPaddedFirst(x: string, pieces: seq<string>, d: char)
    requires |pieces| >= 1
    ensures Join([x + pieces[0]] + pieces[1..], d) == x + Join(pieces, d)
  {
    assert ([x + pieces[0]] + pieces[1..])[1..] == pieces[1..];
  }

  lemma {:induction false} JoinPaddedLast(pieces: seq<string>, y: string, d: char)
    requires |pieces| >= 1
    ensures Join(pieces[..|pieces| - 1] + [pieces[|pieces| - 1] + y], d) == Join(pieces, d) + y
  {
    if |pieces| > 1 {
      JoinPaddedLast(pieces[1..], y, d);
      var padded := pieces[..|pieces| - 1] + [pieces[|pieces| - 1] + y];
      assert padded[1..] == pieces[1..][..|pieces| - 2] + [pieces[|pieces| - 1] + y];
    }
  }

  function Repeat(d: char, n: nat): string {
    seq(n, _ => d)
  }

  /** The pieces with a run of delimiters between any two. */
  function Spread(pieces: seq<string>, gaps: seq<nat>, d: char): string
    requires |pieces| >= 1 && |gaps| == |pieces| - 1
  {
    if |pieces| == 1 then pieces[0] else pieces[0] + Repeat(d, gaps[0]) + Spread(pieces[1..], gaps[1..], d)
  }

  lemma SpreadFirst(pieces: seq<string>, gaps: seq<nat>, d: char)
    requires |pieces| >= 1 && |gaps| == |pieces| - 1 && pieces[0] != ""
    ensures Spread(pieces, gaps, d) == [pieces[0][0]] + Spread([pieces[0][1..]] + pieces[1..], gaps, d)
  {
    assert ([pieces[0][1..]] + pieces[1..])[1..] == pieces[1..];
    assert pieces[0] == [pieces[0][0]] + pieces[0][1..];
  }

  lemma SpreadEmpty(pieces: seq<string>, gaps: seq<nat>, d: char)
    requires |pieces| >= 2 && |gaps| == |pieces| - 1 && pieces[0] == ""
    ensures Spread(pieces, gaps, d) == Repeat(d, gaps[0]) + Spread(pieces[1..], gaps[1..], d)
  {
    assert "" + Repeat(d, gaps[0]) == Repeat(d, gaps[0]);
  }

  lemma RepeatThen(d: char, n: nat, rest: string)
    requires n >= 1
    ensures Repeat(d, n) + rest == [d] + (Repeat(d, n - 1) + rest)
  {
  }

  lemma SpreadGap(pieces: seq<string>, gaps: seq<nat>, d: char)
    requires |pieces| >= 2 && |gaps| == |pieces| - 1 && pieces[0] == "" && gaps[0] >= 1
    ensures Spread(pieces, gaps, d) == [d] + Spread(pieces, [gaps[0] - 1] + gaps[1..], d)
  {
    var fewer := [gaps[0] - 1] + gaps[1..];
    var rest := Spread(pieces[1..], gaps[1..], d);
    assert fewer[1..] == gaps[1..];
    SpreadEmpty(pieces, gaps, d);
    SpreadEmpty(pieces, fewer, d);
    RepeatThen(d, gaps[0], rest);
  }

  lemma SpreadNoGap(pieces: seq<string>, gaps: seq<nat>, d: char)
    requires |pieces| >= 2 && |gaps| == |pieces| - 1 && pieces[0] == "" && gaps[0] == 0
    ensures Spread(pieces, gaps, d) == Spread(pieces[1..], gaps[1..], d)
  {
    SpreadEmpty(pieces, gaps, d);
    assert Repeat(d, 0) + Spread(pieces[1..], gaps[1..], d) == Spread(pieces[1..], gaps[1..], d);
  }

  lemma CompressDifferent(c: char, s: string, d: char)
    requires c != d || s == "" || s[0] != d
    ensures Compress([c] + s, d) == [c] + Compress(s, d)
  {
    assert ([c] + s)[1..] == s;
  }

  /** Compressing leaves one delimiter of each run. */
  lemma {:induction false} CompressSpread(pieces: seq<string>, gaps: seq<nat>, d: char)
    requires |pieces| >= 1 && |gaps| == |pieces| - 1 && Free(pieces, d)
    requires forall i :: 0 < i < |pieces| ==> pieces[i] != ""
    requires forall i :: 0 <= i < |gaps| ==> gaps[i] >= 1
    ensures Compress(Spread(pieces, gaps, d), d) == Join(pieces, d)
    decreases |pieces|, |pieces[0]|, if gaps == [] then 0 else gaps[0]
  {
    if pieces[0] != "" {
      var shorter := [pieces[0][1..]] + pieces[1..];
      CompressSpread(shorter, gaps, d);
      SpreadFirst(pieces, gaps, d);
      JoinFirst(pieces, d);
      assert pieces[0][0] in pieces[0];
      CompressDifferent(pieces[0][0], Spread(shorter, gaps, d), d);
    } else if |pieces| > 1 {
      var fewer := [gaps[0] - 1] + gaps[1..];
      SpreadGap(pieces, gaps, d);
      if gaps[0] > 1 {
        CompressSpread(pieces, fewer, d);
        SpreadGap(pieces, fewer, d);
        var s := Spread(pieces, fewer, d);
        assert ([d] + s)[1..] == s && s[0] == d;
      } else {
        SpreadNoGap(pieces, fewer, d);
        assert fewer[1..] == gaps[1..];
        CompressSpread(pieces[1..], gaps[1..], d);
        SpreadFirst(pieces[1..], gaps[1..], d);
        assert pieces[1][0] in pieces[1];
        CompressDifferent(d, Spread(pieces[1..], gaps[1..], d), d);
        assert Join(pieces, d) == [d] + Join(pieces[1..], d);
      }
    }
  }

  /** Fields separated by any number of delimiters are read back. */
  lemma SpreadReadBack(fields: seq<string>, gaps: seq<nat>, d: char)
    requires |fields| >= 1 && |gaps| == |fields| - 1 && Free(fields, d)
    requires forall i :: 0 < i < |fields| ==> fields[i] != ""
    requires forall i :: 0 <= i < |gaps| ==> gaps[i] >= 1
    ensures SplitCompressed(Spread(fields, gaps, d), d) == fields
  {
    CompressSpread(fields, gaps, d);
    JoinSplits(fields, d);
  }
}
