/** Baselines that the writer writes and the reader does not bring back. */
module Losses {
  import opened Wrappers
  import opened Text
  import opened Baseline
  import opened Writer
  import opened Reader
  import opened PlainTrip
  import opened BlockTrip
  import opened RowTrip
  import opened WhiteStart
  import opened RoundTrip
  import opened Survival

  /** A rule row for file `v`. */
  function FileRow(v: string): Bucket {
    Bucket(v, "r", None, 1)
  }

  /** A file whose value does not survive its style does not come back. */
  lemma LostFile(rx: Engine, letters: Letters, v: string)
    requires !ScalarSurvives(StyleBy(letters)(v), 8, v)
    ensures Load(rx, Lines(Unlines(DocumentLines(StyleBy(letters), [FileRow(v)])))) != Ok([FileRow(v)])
  {
    hide ScalarStyle, Load, DocumentLines, ScalarSurvives;
    var rows := [FileRow(v)];
    assert rows[0] in rows;
    BaselineRoundTripIff(rx, letters, rows);
  }

  /** A plain value with white space at either end: the reader trims it. */
  lemma WhiteEndLost(rx: Engine, letters: Letters, v: string)
    requires ScalarStyle(letters, v) == PlainStyle && !Trimmed(v)
    ensures Load(rx, Lines(Unlines(DocumentLines(StyleBy(letters), [FileRow(v)])))) != Ok([FileRow(v)])
  {
    hide ScalarStyle, Load, DocumentLines, PlainSurvives;
    StyleFits(letters, v);
    if Fits(PlainStyle, v) {
      PlainPieces(8, v);
    } else {
      SpoiledDies(PlainStyle, 8, v);
    }
    LostFile(rx, letters, v);
  }

  // ---- lost at a fold ------------------------------------------------------------------------

  /** A run of the letter `a` that fills the line, and a tail. */
  function Filled(n: nat, tail: string): string {
    Replicate('a', n) + tail
  }

  predicate FoldTail(tail: string) {
    tail != [] && tail[|tail| - 1] != ' ' && forall i :: 0 <= i < |tail| ==> tail[i] == ' ' || tail[i] == '-' || tail[i] == 'b'
  }

  lemma FilledChars(n: nat, tail: string, i: nat)
    requires FoldTail(tail) && i < n + |tail|
    ensures |Filled(n, tail)| == n + |tail|
    ensures Filled(n, tail)[i] == if i < n then 'a' else tail[i - n]
  {
  }

  lemma NoPair(s: string, c: char, d: char)
    requires forall i :: 0 <= i < |s| - 1 ==> !(s[i] == c && s[i + 1] == d)
    ensures !Contains(s, [c, d])
  {
    forall i: nat | i <= |s|
      ensures !At(s, [c, d], i)
    {
      PairAt(s, c, d, i);
    }
  }

  lemma PairAt(s: string, c: char, d: char, i: nat)
    ensures At(s, [c, d], i) <==> i + 1 < |s| && s[i] == c && s[i + 1] == d
  {
    if i + 1 < |s| {
      assert s[i..i + 2] == [s[i], s[i + 1]];
    }
  }

  lemma FilledScans(n: nat, tail: string)
    requires n >= 12 && FoldTail(tail)
    ensures !ScansAsNonString(Filled(n, tail))
  {
    hide ParsesAsFloat;
    var s := Filled(n, tail);
    FilledChars(n, tail, 0);
    FilledChars(n, tail, 4);
    assert |Lower(s)| > 12;
    assert AfterSign(s) == s && !IsDigit(s[0]);
    assert !StartsWith(s, ":") by { assert s[0..1][0] == 'a'; }
    assert s[0..2][0] == 'a';
  }

  lemma FilledStyle(letters: Letters, n: nat, tail: string)
    requires n >= 12 && FoldTail(tail)
    ensures StyleBy(letters)(Filled(n, tail)) == PlainStyle
  {
    hide ScansAsNonString;
    var s := Filled(n, tail);
    forall i: nat | i < |s|
      ensures s[i] == 'a' || s[i] == ' ' || s[i] == '-' || s[i] == 'b'
    {
      FilledChars(n, tail, i);
    }
    FilledChars(n, tail, 0);
    FilledChars(n, tail, n + |tail| - 1);
    NoFeedEnd(s);
    NoPair(s, ':', ' ');
    NoPair(s, ' ', '#');
    assert [':', ' '] == ": " && [' ', '#'] == " #";
    FilledScans(n, tail);
  }

  /** Two adjacent spaces where the line is already full: one is lost to the fold and one to trimming. */
  lemma AdjacentSpacesLost(rx: Engine, letters: Letters, n: nat)
    requires n + 8 > MARGIN
    ensures ScalarStyle(letters, Filled(n, "  b")) == PlainStyle
    ensures Load(rx, Lines(Unlines(DocumentLines(StyleBy(letters), [FileRow(Filled(n, "  b"))])))) != Ok([FileRow(Filled(n, "  b"))])
  {
    hide ScalarStyle, Load, DocumentLines;
    FilledStyle(letters, n, "  b");
    FilledChars(n, "  b", 0);
    FoldLosesSpace(n, 8);
    LostFile(rx, letters, Filled(n, "  b"));
  }

  /** A fold right before a final `---`: the reader skips the line that is left for it. */
  lemma MarkerPieceLost(rx: Engine, letters: Letters, n: nat)
    requires n + 8 > MARGIN
    ensures ScalarStyle(letters, Filled(n, " ---")) == PlainStyle
    ensures Load(rx, Lines(Unlines(DocumentLines(StyleBy(letters), [FileRow(Filled(n, " ---"))])))) != Ok([FileRow(Filled(n, " ---"))])
  {
    hide ScalarStyle, Load, DocumentLines;
    FilledStyle(letters, n, " ---");
    FilledChars(n, " ---", 0);
    FoldLosesMarker(n, 8);
    LostFile(rx, letters, Filled(n, " ---"));
  }

  // ---- lost in a block -------------------------------------------------------------------------

  lemma SecondLineStyle(letters: Letters, x: string)
    requires x != [] && '\n' !in x
    ensures StyleBy(letters)("a\n" + x) == Literal && !IsWhite(("a\n" + x)[0])
    ensures BlockTexts("a\n" + x) == ["a", x]
  {
    LineEndOf("a", x);
    assert "a" + "\n" + x == "a\n" + x;
    SplitAfter("a", '\n', x);
    SplitFlat(x, '\n');
    ConcatAssoc("a", "\n", x);
  }

  /**
   A second line that is white space only, starts like a comment, is the document marker, or ends in a
   carriage return: each is lost.
   */
  lemma BlockLineLost(rx: Engine, letters: Letters, x: string)
    requires x != [] && '\n' !in x
    requires AllWhite(x) || Skipped(Trim(x)) || x[|x| - 1] == '\r'
    ensures ScalarStyle(letters, "a\n" + x) == Literal
    ensures Load(rx, Lines(Unlines(DocumentLines(StyleBy(letters), [FileRow("a\n" + x)])))) != Ok([FileRow("a\n" + x)])
  {
    hide ScalarStyle, Load, DocumentLines, BlockTexts;
    SecondLineStyle(letters, x);
    assert ["a", x][..1] == ["a"];
    LostFile(rx, letters, "a\n" + x);
  }

  lemma FinalBlankTexts(letters: Letters)
    ensures StyleBy(letters)("a\n\n") == Literal && BlockTexts("a\n\n") == ["a", ""]
  {
    LineEndOf("a", "\n");
    assert "a" + "\n" + "\n" == "a\n\n";
    SplitAfter("a", '\n', "\n");
    SplitAfter("", '\n', "");
    assert "" + (['\n'] + "") == "\n" && "a" + (['\n'] + "\n") == "a\n\n";
    assert Split("", '\n') == [""];
    var all := ["a"] + ([""] + [""]);
    assert all[..|all| - 1] == ["a", ""];
  }

  /** An empty line at the end is lost. */
  lemma FinalBlankLost(rx: Engine, letters: Letters)
    ensures ScalarStyle(letters, "a\n\n") == Literal
    ensures Load(rx, Lines(Unlines(DocumentLines(StyleBy(letters), [FileRow("a\n\n")])))) != Ok([FileRow("a\n\n")])
  {
    hide ScalarStyle, Load, DocumentLines, BlockTexts;
    FinalBlankTexts(letters);
    LostFile(rx, letters, "a\n\n");
  }

  lemma IndentedStyle(letters: Letters)
    ensures StyleBy(letters)(" a\nb") == Literal
  {
    LineEndOf(" a", "b");
    assert " a" + "\n" + "b" == " a\nb";
  }

  /** A text of several lines whose first starts with a space: the space is taken for indentation. */
  lemma IndentedLinesLost(rx: Engine, letters: Letters)
    ensures ScalarStyle(letters, " a\nb") == Literal
    ensures Load(rx, Lines(Unlines(DocumentLines(StyleBy(letters), [FileRow(" a\nb")])))) != Ok([FileRow(" a\nb")])
  {
    hide ScalarStyle, Load, DocumentLines, BlockTexts;
    IndentedStyle(letters);
    IndentedTexts();
    LostFile(rx, letters, " a\nb");
  }

  // ---- a line feed at the end ------------------------------------------------------------------

  lemma FinalFeedStyle(letters: Letters)
    ensures StyleBy(letters)("a: b\n") == Single
  {
    var v := "a: b\n";
    LineEndOf("a: b", "");
    assert "a: b" + "\n" + "" == v;
    PairAt(v, ':', ' ', 1);
    assert [':', ' '] == ": ";
  }

  /** A quoted text that ends in a line feed: the reader folds the break into a space. */
  lemma FinalFeedLost(rx: Engine, letters: Letters)
    ensures ScalarStyle(letters, "a: b\n") == Single
    ensures Load(rx, Lines(Unlines(DocumentLines(StyleBy(letters), [FileRow("a: b\n")])))) != Ok([FileRow("a: b\n")])
  {
    hide ScalarStyle, Load, DocumentLines, LineEnd;
    FinalFeedStyle(letters);
    assert "a: b\n"[4] == '\n';
    LostFile(rx, letters, "a: b\n");
  }
}
