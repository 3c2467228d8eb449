/** Literal block scalars: what the reader collects, and exactly when that is the text written. */
module BlockTrip {
  import opened Wrappers
  import opened Text
  import opened Scalars
  import opened Writer
  import opened Reader
  import opened FieldTrip
  import opened ScalarTrip

  /**
   A content line comes back: it is empty, or it shows something, is not taken for a
   marker or a comment, does not end in a carriage return, and, being the first
   non-empty line, does not start with white space (which would shift the block).
   */
  predicate TextSurvives(x: string, first: bool) {
    x == [] || (!AllWhite(x) && !Skipped(Trim(x)) && x[|x| - 1] != '\r' && (first ==> !IsWhite(x[0])))
  }

  predicate AllEmpty(texts: seq<string>) {
    forall i :: 0 <= i < |texts| ==> texts[i] == []
  }

  predicate TextsSurvive(texts: seq<string>) {
    texts == [] ||
    (TextsSurvive(texts[..|texts| - 1]) && TextSurvives(texts[|texts| - 1], AllEmpty(texts[..|texts| - 1])))
  }

  /** Every line of the block survives and the text does not end in an empty line. */
  predicate LiteralSurvives(v: string) {
    var texts := BlockTexts(v);
    TextsSurvive(texts) && texts != [] && texts[|texts| - 1] != []
  }

  predicate BlockTail(t: Tail) {
    && t.fv.kind.Block? && !t.open
    && (t.fv.blockIndent.Some? ==> t.fv.blockIndent.value >= HANG)
  }

  function Blanks(n: nat): (r: seq<string>)
    ensures |r| == n && forall i :: 0 <= i < n ==> r[i] == []
  {
    seq(n, _ => [])
  }

  lemma {:induction false} UnlinesBlanks(a: seq<string>, n: nat)
    ensures |Unlines(a + Blanks(n))| == |Unlines(a)| + n
  {
    if n == 0 {
      assert a + Blanks(0) == a;
    } else {
      UnlinesBlanks(a, n - 1);
      assert a + Blanks(n) == (a + Blanks(n - 1)) + [[]];
      UnlinesSnoc(a + Blanks(n - 1), []);
    }
  }

  /** How much text the lines and pending breaks stand for. */
  function Size(t: Tail): nat {
    |Unlines(t.fv.lines)| + t.pending
  }

  // ---- dropping the block's indentation -----------------------------------------------------

  lemma {:induction false} DropSpaces(k: nat, x: string, n: nat)
    requires n >= k
    ensures DropBytes(Spaces(k) + x, n) == DropBytes(x, n - k)
  {
    if k == 0 {
      assert Spaces(0) + x == x;
    } else {
      assert (Spaces(k) + x)[1..] == Spaces(k - 1) + x;
      DropSpaces(k - 1, x, n - 1);
    }
  }

  lemma {:induction false} DropExact(a: string, b: string)
    ensures DropBytes(a + b, ByteLen(a)) == b
  {
    if a == [] {
      assert a + b == b;
    } else {
      assert (a + b)[1..] == a[1..] + b;
      DropExact(a[1..], b);
    }
  }

  /** The block's own first line loses all its leading white space. */
  lemma DropOwnIndent(s: string)
    ensures DropBytes(s, Indent(s)) == TrimStart(s)
  {
    var k := LeadWhite(s, 0);
    assert s == s[..k] + s[k..];
    assert s[..|s| - |TrimStart(s)|] == s[..k];
    DropExact(s[..k], s[k..]);
  }

  // ---- one content line ---------------------------------------------------------------------

  lemma HangStripCr(x: string)
    requires x != []
    ensures StripCr(Spaces(HANG) + x) == Spaces(HANG) + StripCr(x)
  {
    var s := Spaces(HANG) + x;
    assert s[|s| - 1] == x[|x| - 1];
    assert s[..|s| - 1] == Spaces(HANG) + x[..|x| - 1];
  }

  function Indented(t: Tail, raw: string): nat {
    if t.fv.blockIndent.Some? then t.fv.blockIndent.value else Indent(raw)
  }

  lemma HangIndentAtLeast(y: string)
    ensures Indent(Spaces(HANG) + y) >= HANG
  {
    var raw := Spaces(HANG) + y;
    assert raw[..4] == Spaces(4);
    HangIndent(raw);
  }

  /** What is left of a visible content line once the block's indentation is dropped. */
  lemma DropContent(t: Tail, x: string)
    requires BlockTail(t) && x != [] && !AllWhite(x)
    ensures var raw := Spaces(HANG) + StripCr(x);
            && Indented(t, raw) >= HANG
            && |DropBytes(raw, Indented(t, raw))| <= |x|
            && (x[|x| - 1] == '\r' || (t.fv.blockIndent.None? && IsWhite(x[0])) ==>
                  |DropBytes(raw, Indented(t, raw))| < |x|)
            && (x[|x| - 1] != '\r' && (t.fv.blockIndent == Some(HANG) || (t.fv.blockIndent.None? && !IsWhite(x[0]))) ==>
                  Indented(t, raw) == HANG && DropBytes(raw, HANG) == x)
  {
    var y := StripCr(x);
    var raw := Spaces(HANG) + y;
    HangIndentAtLeast(y);
    DropSpaces(HANG, y, Indented(t, raw));
    if t.fv.blockIndent.None? {
      DropOwnIndent(raw);
      TrimPrefix(Spaces(HANG), y);
      if !IsWhite(x[0]) && x[|x| - 1] != '\r' {
        IndentOf(HANG, x);
      }
    }
  }

  function ContentLine(x: string): string {
    StripCr(if x == [] then [] else Spaces(HANG) + x)
  }

  lemma ContentTrim(x: string)
    ensures Trim(ContentLine(x)) == Trim(x)
    ensures x != [] ==> ContentLine(x) == Spaces(HANG) + StripCr(x)
  {
    if x != [] {
      HangStripCr(x);
      TrimPrefix(Spaces(HANG), StripCr(x));
      TrimStripCr(x);
    }
  }

  /** A visible content line is added behind the pending empty ones. */
  lemma AbsorbVisible(t: Tail, x: string)
    requires BlockTail(t) && x != [] && !AllWhite(x) && !Skipped(Trim(x))
    ensures var raw := Spaces(HANG) + StripCr(x);
            AbsorbLine(t, ContentLine(x)) ==
            Tail(t.fv.(lines := t.fv.lines + Blanks(t.pending) + [DropBytes(raw, Indented(t, raw))],
                       blockIndent := Some(Indented(t, raw))), false, 0)
  {
    ContentTrim(x);
    TrimOfTrimmed(x);
    assert Blanks(t.pending) == seq(t.pending, _ => []);
  }

  lemma SizeVisible(t: Tail, line: string, t': Tail)
    requires t'.fv.lines == t.fv.lines + Blanks(t.pending) + [line] && t'.pending == 0
    ensures Size(t') == Size(t) + |line| + 1
  {
    UnlinesBlanks(t.fv.lines, t.pending);
    UnlinesSnoc(t.fv.lines + Blanks(t.pending), line);
  }

  /** A line that shows nothing, or is taken for a marker, leaves at most one pending break. */
  lemma AbsorbInvisible(t: Tail, x: string)
    requires BlockTail(t) && (x == [] || AllWhite(x) || Skipped(Trim(x)))
    ensures var t' := AbsorbLine(t, ContentLine(x));
            && (t' == t || t' == t.(pending := t.pending + 1))
            && (x == [] ==> t' == t.(pending := t.pending + 1))
  {
    ContentTrim(x);
    TrimOfTrimmed(x);
  }

  lemma SizePending(t: Tail)
    ensures Size(t.(pending := t.pending + 1)) == Size(t) + 1
  {
  }

  lemma AbsorbText(t: Tail, x: string)
    requires BlockTail(t)
    ensures var t' := AbsorbLine(t, ContentLine(x));
            && BlockTail(t')
            && Size(t') <= Size(t) + |x| + 1
            && (!TextSurvives(x, t.fv.blockIndent.None?) ==> Size(t') < Size(t) + |x| + 1)
            && (x == [] ==> t' == t.(pending := t.pending + 1))
            && (x != [] && TextSurvives(x, t.fv.blockIndent.None?) && t.fv.blockIndent in {None, Some(HANG)} ==>
                  t' == Tail(t.fv.(lines := t.fv.lines + Blanks(t.pending) + [x], blockIndent := Some(HANG)), false, 0))
  {
    hide AbsorbLine, ContentLine, Trim, DropBytes, StripCr, Size, Indent;
    if x == [] || AllWhite(x) || Skipped(Trim(x)) {
      AbsorbInvisible(t, x);
      SizePending(t);
    } else {
      var raw := Spaces(HANG) + StripCr(x);
      AbsorbVisible(t, x);
      DropContent(t, x);
      SizeVisible(t, DropBytes(raw, Indented(t, raw)), AbsorbLine(t, ContentLine(x)));
    }
  }

  // ---- the whole block ----------------------------------------------------------------------

  predicate BlockGrown(t: Tail, texts: seq<string>) {
    && BlockTail(t)
    && Size(t) <= |Unlines(texts)|
    && (texts != [] && texts[|texts| - 1] == [] ==> t.pending > 0)
    && (TextsSurvive(texts) ==>
          && t.fv.lines + Blanks(t.pending) == texts
          && t.fv.blockIndent == if AllEmpty(texts) then None else Some(HANG))
    && (!TextsSurvive(texts) ==> Size(t) < |Unlines(texts)|)
  }

  lemma TextsSurviveStep(texts: seq<string>, x: string)
    ensures TextsSurvive(texts + [x]) <==> TextsSurvive(texts) && TextSurvives(x, AllEmpty(texts))
    ensures AllEmpty(texts + [x]) <==> AllEmpty(texts) && x == []
  {
    assert (texts + [x])[..|texts|] == texts;
    assert (texts + [x])[|texts|] == x;
    assert forall i :: 0 <= i < |texts| ==> (texts + [x])[i] == texts[i];
  }

  lemma PaddedStep(lines: seq<string>, n: nat, texts: seq<string>, x: string)
    requires lines + Blanks(n) == texts
    ensures lines + Blanks(n + 1) == texts + [[]]
    ensures lines + Blanks(n) + [x] + Blanks(0) == texts + [x]
  {
    assert Blanks(n + 1) == Blanks(n) + [[]];
  }

  lemma BlockGrownStep(t: Tail, texts: seq<string>, x: string)
    requires BlockGrown(t, texts)
    ensures BlockGrown(AbsorbLine(t, ContentLine(x)), texts + [x])
  {
    AbsorbText(t, x);
    UnlinesSnoc(texts, x);
    TextsSurviveStep(texts, x);
    if TextsSurvive(texts) {
      PaddedStep(t.fv.lines, t.pending, texts, x);
    }
  }

  lemma {:induction false} AbsorbTexts(t: Tail, texts: seq<string>)
    requires BlockTail(t) && t.pending == 0 && t.fv.lines == [] && t.fv.blockIndent.None?
    ensures BlockGrown(Absorb(t, StripAll(BlockLines(texts))), texts)
  {
    if texts == [] {
      assert t.fv.lines + Blanks(0) == texts;
      assert Absorb(t, StripAll(BlockLines(texts))) == t;
    } else {
      var front, x := texts[..|texts| - 1], texts[|texts| - 1];
      FrontLast(texts);
      AbsorbTexts(t, front);
      AbsorbContent(t, front, x);
      BlockGrownStep(Absorb(t, StripAll(BlockLines(front))), front, x);
    }
  }

  lemma ContentSnoc(texts: seq<string>, x: string)
    ensures StripAll(BlockLines(texts + [x])) == StripAll(BlockLines(texts)) + [ContentLine(x)]
  {
  }

  lemma AbsorbSnoc(t: Tail, lines: seq<string>, x: string)
    ensures Absorb(t, lines + [x]) == AbsorbLine(Absorb(t, lines), x)
  {
    assert (lines + [x])[..|lines|] == lines;
  }

  lemma AbsorbContent(t: Tail, texts: seq<string>, x: string)
    ensures Absorb(t, StripAll(BlockLines(texts + [x]))) == AbsorbLine(Absorb(t, StripAll(BlockLines(texts))), ContentLine(x))
  {
    ContentSnoc(texts, x);
    AbsorbSnoc(t, StripAll(BlockLines(texts)), ContentLine(x));
  }

  // ---- the text behind the lines --------------------------------------------------------------

  lemma {:induction false} JoinIsUnlines(lines: seq<string>)
    requires lines != []
    ensures BlockJoin(lines, false) + "\n" == Unlines(lines)
  {
    var n := |lines| - 1;
    assert lines == lines[..n] + [lines[n]];
    UnlinesSnoc(lines[..n], lines[n]);
    if n > 0 {
      JoinIsUnlines(lines[..n]);
      ConcatAssoc(BlockJoin(lines[..n], false) + "\n", lines[n], "\n");
    } else {
      assert lines[..0] == [];
    }
  }

  lemma {:induction false} SplitPieces(s: string, c: char)
    ensures forall i :: 0 <= i < |Split(s, c)| ==> c !in Split(s, c)[i]
  {
    if s != [] {
      SplitPieces(s[1..], c);
    }
  }

  /** The content lines, written out, are the text with exactly one line feed at its end. */
  lemma BlockTextsSpell(v: string)
    requires v != []
    ensures BlockTexts(v) != []
    ensures Unlines(BlockTexts(v)) == if EndsWith(v, "\n") then v else v + "\n"
    ensures forall i :: 0 <= i < |BlockTexts(v)| ==> '\n' !in BlockTexts(v)[i]
  {
    hide Unlines;
    var all := Split(v, '\n');
    var n := |all| - 1;
    SplitUnlines(v);
    SplitPieces(v, '\n');
    assert all == all[..n] + [all[n]];
    UnlinesSnoc(all[..n], all[n]);
    ConcatAssoc(Unlines(all[..n]), all[n], "\n");
    assert v + "\n" == Unlines(all[..n]) + all[n] + "\n";
    CutLast(v, Unlines(all[..n]) + all[n]);
    if all[n] == [] {
      assert v == Unlines(all[..n]);
      assert n > 0;
      assert all[..n] == all[..n - 1] + [all[n - 1]];
      UnlinesSnoc(all[..n - 1], all[n - 1]);
      assert v[|v| - 1..] == "\n";
    } else {
      assert v[|v| - 1] == all[n][|all[n]| - 1];
      EndsWithFeed(v);
    }
  }

  lemma CutLast(a: string, b: string)
    requires a + "\n" == b + "\n"
    ensures a == b
  {
    assert a == (a + "\n")[..|a|];
    assert b == (b + "\n")[..|b|];
  }

  lemma BlockHeaderKind(v: string)
    ensures var h := BlockHeader(v);
            h != [] && ScalarHead(Trim(h)) == (h, Block(false, ChompOf(v)))
  {
    TrimOfTrimmed(BlockHeader(v));
  }

  lemma EndsWithFeed(v: string)
    ensures EndsWith(v, "\n") <==> v != [] && v[|v| - 1] == '\n'
    ensures EndsWith(v, "\n\n") <==> |v| >= 2 && v[|v| - 1] == '\n' && v[|v| - 2] == '\n'
  {
    if v != [] {
      assert v[|v| - 1..|v|] == [v[|v| - 1]];
      if |v| >= 2 {
        assert v[|v| - 2..|v|] == [v[|v| - 2], v[|v| - 1]];
      }
    }
  }

  lemma LastTextEnds(v: string, texts: seq<string>)
    requires texts != [] && texts[|texts| - 1] != [] && '\n' !in texts[|texts| - 1]
    requires Unlines(texts) == if EndsWith(v, "\n") then v else v + "\n"
    ensures !EndsWith(v, "\n\n")
    ensures BlockJoin(texts, false) != [] && BlockJoin(texts, false)[|BlockJoin(texts, false)| - 1] != '\n'
  {
    var n := |texts| - 1;
    var last, join := texts[n], BlockJoin(texts, false);
    assert texts == texts[..n] + [last];
    UnlinesSnoc(texts[..n], last);
    JoinIsUnlines(texts);
    ConcatAssoc(Unlines(texts[..n]), last, "\n");
    CutLast(join, Unlines(texts[..n]) + last);
    assert join[|join| - 1] == last[|last| - 1];
    EndsWithFeed(v);
    if EndsWith(v, "\n") {
      assert v[|v| - 2] == join[|join| - 1];
    }
  }

  lemma {:induction false} BlockKindKept(t: Tail, lines: seq<string>)
    requires t.fv.kind.Block?
    ensures Absorb(t, lines).fv.kind == t.fv.kind
  {
    if lines != [] {
      BlockKindKept(t, lines[..|lines| - 1]);
    }
  }

  function ChompOf(v: string): Chomp {
    if EndsWith(v, "\n\n") then Keep else if EndsWith(v, "\n") then Clip else Strip
  }

  lemma BlockValueSame(v: string, texts: seq<string>)
    requires texts != [] && texts[|texts| - 1] != [] && '\n' !in texts[|texts| - 1]
    requires Unlines(texts) == if EndsWith(v, "\n") then v else v + "\n"
    ensures BlockValue(texts, false, ChompOf(v)) == v
  {
    LastTextEnds(v, texts);
    JoinIsUnlines(texts);
    if !EndsWith(v, "\n") {
      CutLast(v, BlockJoin(texts, false));
    }
  }

  lemma BlockValueShorter(v: string, texts: seq<string>, lines: seq<string>)
    requires v != [] && |Unlines(lines)| < |Unlines(texts)|
    requires Unlines(texts) == if EndsWith(v, "\n") then v else v + "\n"
    ensures |BlockValue(lines, false, ChompOf(v))| < |v|
  {
    EndsWithFeed(v);
    if lines != [] {
      JoinIsUnlines(lines);
    }
  }

  lemma PaddedLast(lines: seq<string>, n: nat, texts: seq<string>)
    requires lines + Blanks(n) == texts
    ensures n == 0 || (texts != [] && texts[|texts| - 1] == [])
  {
  }

  lemma GrownWhole(t: Tail, texts: seq<string>)
    requires BlockGrown(t, texts) && texts != []
    ensures TextsSurvive(texts) && texts[|texts| - 1] != [] ==> t.fv.lines == texts
    ensures !(TextsSurvive(texts) && texts[|texts| - 1] != []) ==> |Unlines(t.fv.lines)| < |Unlines(texts)|
  {
    if TextsSurvive(texts) {
      PaddedLast(t.fv.lines, t.pending, texts);
      assert t.fv.lines + Blanks(0) == t.fv.lines;
    }
  }

  lemma BlockOutcome(fv: FieldVal, v: string, texts: seq<string>, whole: bool)
    requires v != [] && texts != [] && fv.kind == Block(false, ChompOf(v))
    requires Unlines(texts) == if EndsWith(v, "\n") then v else v + "\n"
    requires if whole then fv.lines == texts && texts[|texts| - 1] != [] && '\n' !in texts[|texts| - 1]
             else |Unlines(fv.lines)| < |Unlines(texts)|
    ensures NonNull(fv) == Some(v) <==> whole
  {
    if whole {
      BlockValueSame(v, texts);
    } else {
      BlockValueShorter(v, texts, fv.lines);
    }
  }

  lemma LiteralRead(t: Tail, v: string)
    requires v != [] && t == HeadTail(BlockHeader(v), Block(false, ChompOf(v)))
    ensures var t' := Absorb(t, StripAll(BlockLines(BlockTexts(v))));
            !t'.open && (NonNull(t'.fv) == Some(v) <==> LiteralSurvives(v))
  {
    var texts := BlockTexts(v);
    AbsorbTexts(t, texts);
    BlockKindKept(t, StripAll(BlockLines(texts)));
    BlockTextsSpell(v);
    var t' := Absorb(t, StripAll(BlockLines(texts)));
    GrownWhole(t', texts);
    BlockOutcome(t'.fv, v, texts, LiteralSurvives(v));
  }

  /** A literal block reads back if and only if all its lines survive. */
  lemma LiteralTripIff(width: nat, v: string)
    requires v != []
    ensures ReadBack(Literal, width, v) == Some(v) <==> LiteralSurvives(v)
    ensures !ReadTail(Literal, width, v).open
    ensures ScalarHead(Trim(FieldTexts(Literal, width, v).0)).0 != []
  {
    hide Trim, BlockTexts;
    var h, kind := BlockHeader(v), Block(false, ChompOf(v));
    BlockHeaderKind(v);
    ReadTailIs(Literal, width, v, h, BlockLines(BlockTexts(v)), h, kind);
    LiteralRead(HeadTail(h, kind), v);
  }

  /** A first line that starts with a space is lost: the reader takes the space for indentation. */
  lemma IndentedBlockLost(width: nat)
    ensures ReadBack(Literal, width, " a\nb") != Some(" a\nb")
  {
    var v := " a\nb";
    LiteralTripIff(width, v);
    BlockTextsSpell(v);
    IndentedTexts();
  }

  lemma IndentedTexts()
    ensures BlockTexts(" a\nb") == [" a", "b"] && !TextsSurvive([" a", "b"])
  {
    SplitAfter(" a", '\n', "b");
    SplitFlat("b", '\n');
    assert " a" + (['\n'] + "b") == " a\nb";
    var texts := [" a", "b"];
    assert texts[..1] == [" a"] && texts[..1][..0] == [];
  }
}
