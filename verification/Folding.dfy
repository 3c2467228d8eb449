/** Where a plain scalar is broken into lines: the one way that keeps to column 80. */
module Folding {
  import opened Wrappers
  import opened Text
  import opened Baseline
  import opened Writer
  import opened PlainTrip

  /** The column at which piece `i` starts: behind the key, or behind the indentation. */
  function Offset(start: nat, i: nat): nat {
    if i == 0 then start else 4
  }

  /** A line is broken only past column 80, and past it at every space. */
  predicate WellFolded(v: string, start: nat, ps: seq<string>) {
    && ps != [] && Joined(ps) == v
    && (forall i: nat :: i + 1 < |ps| ==> Offset(start, i) + |ps[i]| > 80)
    && forall i: nat, c: nat :: i < |ps| && c < |ps[i]| && Offset(start, i) + c > 80 ==> ps[i][c] != ' '
  }

  lemma BreakFolded(v: string, start: nat, r: seq<string>)
    requires v != [] && v[0] == ' ' && start > 80
    ensures WellFolded(v, start, [[]] + r) <==> WellFolded(v[1..], 4, r)
  {
    var ps := [[]] + r;
    assert v == " " + v[1..];
    assert forall i: nat :: i < |r| ==> ps[i + 1] == r[i];
    if r != [] {
      JoinedBreak(r);
      assert Joined(ps) == v <==> Joined(r) == v[1..];
    } else {
      assert ps[1..] == [];
      assert Joined(ps) == [];
    }
    if WellFolded(v[1..], 4, r) {
      forall i: nat | i + 1 < |ps|
        ensures Offset(start, i) + |ps[i]| > 80
      {
        assert i > 0 ==> ps[i] == r[i - 1];
      }
      forall i: nat, c: nat | i < |ps| && c < |ps[i]| && Offset(start, i) + c > 80
        ensures ps[i][c] != ' '
      {
        assert ps[i] == r[i - 1];
      }
    }
    if WellFolded(v, start, ps) {
      forall i: nat | i + 1 < |r|
        ensures Offset(4, i) + |r[i]| > 80
      {
        assert ps[i + 1] == r[i];
      }
      forall i: nat, c: nat | i < |r| && c < |r[i]| && Offset(4, i) + c > 80
        ensures r[i][c] != ' '
      {
        assert ps[i + 1] == r[i];
      }
    }
  }

  lemma CharFolded(v: string, start: nat, r: seq<string>)
    requires v != [] && r != [] && (v[0] != ' ' || start <= 80)
    ensures WellFolded(v, start, [[v[0]] + r[0]] + r[1..]) <==> WellFolded(v[1..], start + 1, r)
  {
    var ps := [[v[0]] + r[0]] + r[1..];
    assert v == [v[0]] + v[1..];
    JoinedChar(v[0], r);
    assert forall i: nat :: 0 < i < |r| ==> ps[i] == r[i];
    if WellFolded(v[1..], start + 1, r) {
      forall i: nat, c: nat | i < |ps| && c < |ps[i]| && Offset(start, i) + c > 80
        ensures ps[i][c] != ' '
      {
        if i == 0 && c > 0 {
          assert ps[0][c] == r[0][c - 1];
        }
      }
    }
    if WellFolded(v, start, ps) {
      forall i: nat, c: nat | i < |r| && c < |r[i]| && Offset(start + 1, i) + c > 80
        ensures r[i][c] != ' '
      {
        if i == 0 {
          assert ps[0][c + 1] == r[0][c];
        }
      }
    }
  }

  /** The text begins with its first piece, or with the space of a break. */
  lemma FirstOfJoined(ps: seq<string>)
    requires ps != []
    ensures ps[0] != [] ==> Joined(ps) != [] && Joined(ps)[0] == ps[0][0]
    ensures ps[0] == [] && |ps| > 1 ==> Joined(ps) != [] && Joined(ps)[0] == ' '
    ensures ps[0] == [] && |ps| == 1 ==> Joined(ps) == []
  {
    if |ps| > 1 {
      assert ps[1..] == [ps[1]] + ps[2..];
      SpacedCons(ps[1], ps[2..]);
    } else {
      assert ps[1..] == [];
    }
  }

  lemma RejoinFirst(ps: seq<string>)
    requires ps != [] && ps[0] != []
    ensures var r := [ps[0][1..]] + ps[1..];
            r[1..] == ps[1..] && ps == [[ps[0][0]] + r[0]] + r[1..]
  {
    assert ps[0] == [ps[0][0]] + ps[0][1..];
  }

  /** There is exactly one way to break a text so. */
  lemma {:induction false} FoldIff(v: string, start: nat, ps: seq<string>)
    ensures WellFolded(v, start, ps) <==> ps == Fold(v, start)
    decreases |v|
  {
    FoldJoins(v, start);
    if ps != [] {
      FirstOfJoined(ps);
    }
    if v == [] {
      assert Fold(v, start) == [[]];
      if WellFolded(v, start, ps) {
        assert ps == [[]];
      }
    } else if v[0] == ' ' && start > 80 {
      FoldIff(v[1..], 4, if ps == [] then [] else ps[1..]);
      if ps != [] && ps[0] == [] {
        assert ps == [[]] + ps[1..];
        BreakFolded(v, start, ps[1..]);
      }
    } else {
      var r := if ps == [] || ps[0] == [] then [] else [ps[0][1..]] + ps[1..];
      FoldIff(v[1..], start + 1, r);
      if r != [] {
        RejoinFirst(ps);
        CharFolded(v, start, r);
      }
    }
  }

  // ---- the lines of a field ------------------------------------------------------------------

  /** The lines of a plain field: the first behind its key, the others behind four spaces. */
  predicate Continued(prefix: string, ps: seq<string>, lines: seq<string>) {
    && |lines| == |ps| && ps != [] && lines[0] == prefix + ps[0]
    && forall i :: 0 < i < |lines| ==> lines[i] == "    " + ps[i]
  }

  /**
   The lines of a plain field: every line that is continued is longer than 80 columns, no space stands past
   column 80, and with their breaks read as spaces they hold the text.
   */
  lemma PlainFieldLines(styler: Styler, prefix: string, v: string) returns (ps: seq<string>)
    requires styler(v) == PlainStyle && |prefix| <= 80
    ensures var lines := FieldLines(styler, prefix, v);
            && Continued(prefix, ps, lines) && Joined(ps) == v
            && (forall i: nat :: i + 1 < |lines| ==> |lines[i]| > 80)
            && (forall i: nat, c: nat :: i < |lines| && 80 < c < |lines[i]| ==> lines[i][c] != ' ')
  {
    hide FieldLines, Fold, Joined;
    ps := Fold(v, |prefix|);
    var lines := FieldLines(styler, prefix, v);
    FoldIff(v, |prefix|, ps);
    LinesOfFold(styler, prefix, v);
    forall i: nat | i + 1 < |lines|
      ensures |lines[i]| > 80
    {
      assert |lines[i]| == Offset(|prefix|, i) + |ps[i]|;
    }
    forall i: nat, c: nat | i < |lines| && 80 < c < |lines[i]|
      ensures lines[i][c] != ' '
    {
      assert lines[i][c] == ps[i][c - Offset(|prefix|, i)];
    }
  }

  lemma FourSpaces()
    ensures Spaces(HANG) == "    "
  {
  }

  lemma LinesOfFold(styler: Styler, prefix: string, v: string)
    requires styler(v) == PlainStyle
    ensures Continued(prefix, Fold(v, |prefix|), FieldLines(styler, prefix, v))
  {
    hide Fold;
    FourSpaces();
  }

  lemma SameLines(prefix: string, ps: seq<string>, a: seq<string>, b: seq<string>)
    requires Continued(prefix, ps, a) && Continued(prefix, ps, b)
    ensures a == b
  {
    forall i | 0 <= i < |a|
      ensures a[i] == b[i]
    {
    }
  }

  /** No other lines will do. */
  lemma OnlyLines(styler: Styler, prefix: string, v: string, ps: seq<string>, lines: seq<string>)
    requires styler(v) == PlainStyle && |prefix| <= 80 && Continued(prefix, ps, lines) && Joined(ps) == v
    requires forall i: nat :: i + 1 < |lines| ==> |lines[i]| > 80
    requires forall i: nat, c: nat :: i < |lines| && 80 < c < |lines[i]| ==> lines[i][c] != ' '
    ensures lines == FieldLines(styler, prefix, v)
  {
    hide FieldLines, Fold, Joined;
    forall i: nat | i + 1 < |ps|
      ensures Offset(|prefix|, i) + |ps[i]| > 80
    {
      assert |lines[i]| == Offset(|prefix|, i) + |ps[i]|;
    }
    forall i: nat, c: nat | i < |ps| && c < |ps[i]| && Offset(|prefix|, i) + c > 80
      ensures ps[i][c] != ' '
    {
      assert lines[i][Offset(|prefix|, i) + c] == ps[i][c];
    }
    FoldIff(v, |prefix|, ps);
    LinesOfFold(styler, prefix, v);
    SameLines(prefix, ps, lines, FieldLines(styler, prefix, v));
  }

  // ---- the text of a document ----------------------------------------------------------------

  /** Written plain, and not past the margin. */
  predicate Fits(style: Styler, prefix: string, v: string) {
    style(v) == PlainStyle && |prefix| + |v| <= 81
  }

  lemma FitsOnOneLine(style: Styler, prefix: string, v: string)
    requires Fits(style, prefix, v)
    ensures FieldLines(style, prefix, v) == [prefix + v]
  {
    assert v + Spaced([]) == v;
    FoldIff(v, |prefix|, [v]);
  }

  predicate SmallRow(style: Styler, b: Bucket) {
    Fits(style, "- file: ", b.file) && Fits(style, "  rule: ", b.rule)
    && (b.message.Some? ==> Fits(style, "  message: ", b.message.value))
  }

  function RowText(b: Bucket): string {
    "- file: " + b.file + "\n" + ("  rule: " + b.rule + "\n")
    + (if b.message.None? then "" else "  message: " + b.message.value + "\n")
    + ("  count: " + Decimal(b.count) + "\n")
  }

  function RowTexts(rows: seq<Bucket>): string {
    if rows == [] then "" else RowTexts(rows[..|rows| - 1]) + RowText(rows[|rows| - 1])
  }

  lemma LinesOfRow(style: Styler, b: Bucket)
    requires SmallRow(style, b)
    ensures var file, rule, count := "- file: " + b.file, "  rule: " + b.rule, "  count: " + Decimal(b.count);
            RowLines(style, b) ==
            if b.message.None? then [file, rule, count] else [file, rule, "  message: " + b.message.value, count]
  {
    hide Fits, Decimal, FieldLines;
    FitsOnOneLine(style, "- file: ", b.file);
    FitsOnOneLine(style, "  rule: ", b.rule);
    if b.message.Some? {
      FitsOnOneLine(style, "  message: ", b.message.value);
    }
  }

  lemma FourLines(a: string, b: string, c: string, d: string)
    ensures Unlines([a, b, d]) == (a + "\n") + (b + "\n") + "" + (d + "\n")
    ensures Unlines([a, b, c, d]) == (a + "\n") + (b + "\n") + (c + "\n") + (d + "\n")
  {
    UnlinesLiteral(a, b, d);
    UnlinesLiteral(a, b, c);
    UnlinesSnoc([a, b, c], d);
    assert [a, b, c] + [d] == [a, b, c, d];
    assert (a + "\n") + (b + "\n") + "" == (a + "\n") + (b + "\n");
  }

  lemma RowIsText(style: Styler, b: Bucket)
    requires SmallRow(style, b)
    ensures Unlines(RowLines(style, b)) == RowText(b)
  {
    hide SmallRow, Decimal, RowLines, Unlines;
    var file, rule, count := "- file: " + b.file, "  rule: " + b.rule, "  count: " + Decimal(b.count);
    LinesOfRow(style, b);
    FourLines(file, rule, if b.message.None? then "" else "  message: " + b.message.value, count);
  }

  lemma {:induction false} RowsAreTexts(style: Styler, rows: seq<Bucket>)
    requires forall b :: b in rows ==> SmallRow(style, b)
    ensures Unlines(AllRowLines(style, rows)) == RowTexts(rows)
  {
    hide SmallRow, RowText, RowLines;
    if rows != [] {
      var front, last := rows[..|rows| - 1], rows[|rows| - 1];
      RowsAreTexts(style, front);
      RowIsText(style, last);
      UnlinesAppend(AllRowLines(style, front), RowLines(style, last));
    }
  }

  /** The bytes of a document whose values are all plain and short. */
  lemma DocumentText(style: Styler, rows: seq<Bucket>)
    requires forall b :: b in rows ==> SmallRow(style, b)
    ensures Unlines(DocumentLines(style, rows)) ==
            if rows == [] then "---\nversion: 1\nignored: []\n" else "---\nversion: 1\nignored:\n" + RowTexts(rows)
  {
    hide SmallRow, RowTexts, AllRowLines, Unlines;
    HeadTexts();
    if rows != [] {
      RowsAreTexts(style, rows);
      UnlinesAppend(["---", "version: 1", "ignored:"], AllRowLines(style, rows));
    }
  }

  lemma HeadTexts()
    ensures Unlines(["---", "version: 1", "ignored: []"]) == "---\nversion: 1\nignored: []\n"
    ensures Unlines(["---", "version: 1", "ignored:"]) == "---\nversion: 1\nignored:\n"
  {
    hide Unlines;
    UnlinesLiteral("---", "version: 1", "ignored: []");
    UnlinesLiteral("---", "version: 1", "ignored:");
    HeadLiterals();
    HeadsJoined();
  }

  lemma HeadsJoined()
    ensures ("---\n" + "version: 1\n") + "ignored: []\n" == "---\nversion: 1\nignored: []\n"
    ensures ("---\n" + "version: 1\n") + "ignored:\n" == "---\nversion: 1\nignored:\n"
  {
    assert "---\n" + "version: 1\n" == "---\nversion: 1\n";
  }
}
