/**
 Which values survive: ordinary ASCII text, and every escaped message however it folds.
 */
module Survival {
  import opened Text
  import opened Writer
  import opened PlainTrip
  import opened RowTrip
  import opened WhiteStart
  import RegexpEscape

  // ---- ordinary values survive --------------------------------------------------------------------------------

  /** Every space stands between two visible characters, the second not a `#`. */
  predicate TidySpaces(v: string) {
    && (v != [] ==> !IsWhite(v[|v| - 1]))
    && forall i :: 0 <= i < |v| && v[i] == ' ' ==>
         && (i > 0 ==> !IsWhite(v[i - 1]))
         && i + 1 < |v| && !IsWhite(v[i + 1]) && v[i + 1] != '#'
  }

  predicate PieceShape(p: string) {
    p != [] && !IsWhite(p[0]) && p[0] != '#' && !IsWhite(p[|p| - 1])
  }

  lemma TidyTail(v: string)
    requires TidySpaces(v) && v != []
    ensures TidySpaces(v[1..])
  {
    var w := v[1..];
    assert forall i :: 0 <= i < |w| ==> w[i] == v[i + 1];
  }

  /** What folding tidy text from column `col` gives: visible ends, and only the last piece may be short. */
  predicate FoldShaped(ps: seq<string>, v: string, col: nat) {
    && ps != []
    && (ps[0] == [] ==> v == [] || (v[0] == ' ' && col > MARGIN))
    && (ps[0] != [] ==> v != [] && ps[0][0] == v[0] && !IsWhite(ps[0][|ps[0]| - 1]))
    && (forall i :: 1 <= i < |ps| ==> PieceShape(ps[i]))
    && (forall i :: 1 <= i < |ps| - 1 ==> |ps[i]| > MARGIN - HANG)
    && (|ps| > 1 ==> |ps[0]| + col > MARGIN)
  }

  lemma FoldShapedBreak(r: seq<string>, v: string, col: nat)
    requires TidySpaces(v) && v != [] && v[0] == ' ' && col > MARGIN && FoldShaped(r, v[1..], HANG)
    ensures FoldShaped([[]] + r, v, col)
  {
    var ps := [[]] + r;
    assert v[1..][0] == v[1];
    forall i | 1 <= i < |ps|
      ensures PieceShape(ps[i]) && (i < |ps| - 1 ==> |ps[i]| > MARGIN - HANG)
    {
      assert ps[i] == r[i - 1];
    }
  }

  lemma FoldShapedChar(r: seq<string>, v: string, col: nat)
    requires TidySpaces(v) && v != [] && FoldShaped(r, v[1..], col + 1)
    ensures FoldShaped([[v[0]] + r[0]] + r[1..], v, col)
  {
    var ps := [[v[0]] + r[0]] + r[1..];
    forall i | 1 <= i < |ps|
      ensures ps[i] == r[i]
    {
    }
    if r[0] == [] {
      if |v| > 1 {
        assert v[1..][0] == v[1];
      }
      assert ps[0] == [v[0]];
    } else {
      assert ps[0][|ps[0]| - 1] == r[0][|r[0]| - 1];
    }
  }

  lemma {:induction false} FoldShape(v: string, col: nat)
    requires TidySpaces(v)
    ensures FoldShaped(Fold(v, col), v, col)
    decreases |v|
  {
    if v != [] {
      TidyTail(v);
      if v[0] == ' ' && col > MARGIN {
        FoldShape(v[1..], HANG);
        FoldShapedBreak(Fold(v[1..], HANG), v, col);
      } else {
        FoldShape(v[1..], col + 1);
        FoldShapedChar(Fold(v[1..], col + 1), v, col);
      }
    }
  }

  lemma {:induction false} SpacedEnds(ps: seq<string>)
    requires ps != []
    ensures EndsWith(Spaced(ps), " " + ps[|ps| - 1])
  {
    var last := " " + ps[|ps| - 1];
    var s := Spaced(ps);
    assert s[|s| - |last|..|s|] == last;
  }

  /** Tidy text that does not end in ` ---` survives folding. */
  lemma TidyPlainSurvives(width: nat, v: string)
    requires PlainFit(v) && TidySpaces(v) && !EndsWith(v, " ---")
    ensures PlainSurvives(Fold(v, width))
  {
    var ps := Fold(v, width);
    FoldShape(v, width);
    PlainPieces(width, v);
    if |ps| > 1 {
      LastPieceVisible(ps, v);
    }
    ShapedSurvives(ps, v, width);
  }

  lemma LastPieceVisible(ps: seq<string>, v: string)
    requires |ps| > 1 && v == ps[0] + Spaced(ps[1..]) && !EndsWith(v, " ---")
    ensures ps[|ps| - 1] != "---"
  {
    var tail := ps[1..];
    SpacedEnds(tail);
    assert tail[|tail| - 1] == ps[|ps| - 1];
    EndsAlike(ps[0], Spaced(tail), " " + ps[|ps| - 1]);
  }

  lemma ShapedSurvives(ps: seq<string>, v: string, width: nat)
    requires FoldShaped(ps, v, width) && ps[0] != [] && !IsWhite(ps[0][0])
    requires |ps| > 1 ==> ps[|ps| - 1] != "---"
    ensures PlainSurvives(ps)
  {
  }

  lemma EndsAlike(a: string, b: string, last: string)
    requires EndsWith(b, last)
    ensures EndsWith(a + b, last)
  {
    var s := a + b;
    assert s[|s| - |last|..|s|] == b[|b| - |last|..|b|];
  }

  /** White space that is neither the space nor a control character: all of it is outside ASCII. */
  predicate Foreign(c: char) {
    IsWhite(c) && c != ' ' && !IsControl(c)
  }

  /**
   One line of text that a line-oriented reader cannot spoil: foreign white space stands neither at an end
   nor beside a space, no two spaces stand together and the text does not end in ` ---`.
   */
  predicate Ordinary(v: string) {
    && '\n' !in v && (v != [] ==> !Foreign(v[0]) && !Foreign(v[|v| - 1]))
    && (forall i :: 0 <= i < |v| - 1 && v[i] == ' ' ==> v[i + 1] != ' ' && !Foreign(v[i + 1]))
    && (forall i :: 0 < i < |v| && v[i] == ' ' ==> !Foreign(v[i - 1]))
    && !EndsWith(v, " ---")
  }

  lemma PlainWhite(letters: Letters, v: string)
    requires ScalarStyle(letters, v) == PlainStyle
    ensures v != [] && v[0] != ' ' && v[|v| - 1] != ' ' && !Contains(v, " #")
    ensures forall i :: 0 <= i < |v| && IsWhite(v[i]) ==> v[i] == ' ' || Foreign(v[i])
  {
    hide ScansAsNonString, IsAlphanumeric, LineEnd, Contains;
  }

  lemma OrdinaryTidy(letters: Letters, v: string)
    requires Ordinary(v) && ScalarStyle(letters, v) == PlainStyle
    ensures TidySpaces(v) && !IsWhite(v[0])
  {
    hide ScalarStyle, IsWhite, EndsWith, Contains;
    PlainWhite(letters, v);
    NoHash(v);
  }

  lemma NoHash(v: string)
    requires !Contains(v, " #")
    ensures forall i :: 0 <= i < |v| - 1 && v[i] == ' ' ==> v[i + 1] != '#'
  {
    forall i | 0 <= i < |v| - 1 && v[i] == ' '
      ensures v[i + 1] != '#'
    {
      assert v[i..i + 2] == [v[i], v[i + 1]];
      assert !At(v, " #", i);
    }
  }

  lemma {:induction false} NoFeedEnd(v: string)
    requires '\n' !in v
    ensures LineEnd(v) == |v|
  {
    if v != [] {
      assert '\n' !in v[1..];
      NoFeedEnd(v[1..]);
    }
  }

  /** Ordinary values come back in every style. */
  lemma OrdinarySurvives(letters: Letters, width: nat, v: string)
    requires Ordinary(v)
    ensures ScalarSurvives(StyleBy(letters)(v), width, v)
  {
    StyleFits(letters, v);
    match ScalarStyle(letters, v)
    case PlainStyle =>
      OrdinaryTidy(letters, v);
      TidyPlainSurvives(width, v);
    case _ => NoFeedEnd(v);
  }

  // ---- escaped messages survive ---------------------------------------------------------------------------------

  /** Foreign white space, which `Regexp.escape` leaves alone, stands neither at an end nor behind a space. */
  predicate Printable(m: string) {
    && (m != [] ==> !Foreign(m[0]) && !Foreign(m[|m| - 1]))
    && forall i :: 0 <= i < |m| - 1 && m[i] == ' ' ==> !Foreign(m[i + 1])
  }

  /** In escaped text a space stands behind a backslash and before nothing, a backslash or an ordinary character. */
  predicate EscapedShape(e: string) {
    && '\n' !in e
    && (forall i :: 0 <= i < |e| && e[i] == ' ' ==> i > 0 && e[i - 1] == '\\')
    && (forall i :: 0 <= i < |e| - 1 && e[i] == ' ' ==> e[i + 1] !in {' ', '#', '-'} && !Foreign(e[i + 1]))
    && (e != [] ==> e[0] !in {' ', '#', '-'})
  }

  /** What one character escapes to. */
  predicate EscapedPiece(e: string, c: char) {
    || (|e| == 1 && e[0] == c && c !in {' ', '#', '-', '\n'})
    || (|e| == 2 && e[0] == '\\' && e[1] != '\n' && !Foreign(e[1]) && !Foreign(c) && (e[1] == ' ' ==> c == ' '))
  }

  lemma EscapePiece(c: char)
    ensures EscapedPiece(RegexpEscape.EscapeChar(c), c)
  {
  }

  lemma PieceThenShape(e: string, c: char, tail: string)
    requires EscapedPiece(e, c) && EscapedShape(tail) && (c == ' ' && tail != [] ==> !Foreign(tail[0]))
    ensures EscapedShape(e + tail)
  {
    var all := e + tail;
    assert all[0] == e[0] && (|e| == 2 ==> all[1] == e[1]);
    forall i | |e| <= i < |all|
      ensures all[i] == tail[i - |e|]
    {
    }
  }

  /** Foreign white space starts or ends escaped text only where it starts or ends the text. */
  lemma {:induction false} EscapeEnds(m: string)
    requires m != []
    ensures var e := RegexpEscape.Escape(m);
            e != [] && (Foreign(e[0]) ==> Foreign(m[0])) && (Foreign(e[|e| - 1]) ==> Foreign(m[|m| - 1]))
  {
    EscapePiece(m[0]);
    if |m| > 1 {
      EscapeEnds(m[1..]);
    }
  }

  lemma {:induction false} EscapeShape(m: string)
    requires forall i :: 0 <= i < |m| - 1 && m[i] == ' ' ==> !Foreign(m[i + 1])
    ensures EscapedShape(RegexpEscape.Escape(m))
  {
    if m != [] {
      assert forall i :: 0 <= i < |m[1..]| ==> m[1..][i] == m[i + 1];
      EscapeShape(m[1..]);
      EscapePiece(m[0]);
      if |m| > 1 {
        EscapeEnds(m[1..]);
      }
      PieceThenShape(RegexpEscape.EscapeChar(m[0]), m[0], RegexpEscape.Escape(m[1..]));
    }
  }

  lemma EscapedTidy(letters: Letters, e: string)
    requires EscapedShape(e) && ScalarStyle(letters, e) == PlainStyle && !Foreign(e[|e| - 1])
    ensures TidySpaces(e)
  {
    hide ScalarStyle;
    PlainWhite(letters, e);
  }

  /**
   An escaped message survives being written and read in a `message:` field, whatever
   its length and however often it is folded.
   */
  lemma EscapedSurvives(letters: Letters, width: nat, m: string)
    requires Printable(m)
    ensures ScalarSurvives(StyleBy(letters)(RegexpEscape.Escape(m)), width, RegexpEscape.Escape(m))
  {
    var e := RegexpEscape.Escape(m);
    EscapeShape(m);
    StyleFits(letters, e);
    match ScalarStyle(letters, e)
    case PlainStyle =>
      EscapeEnds(m);
      EscapedTidy(letters, e);
      EscapedEnd(e);
      TidyPlainSurvives(width, e);
    case _ => NoFeedEnd(e);
  }

  lemma EscapedEnd(e: string)
    requires EscapedShape(e)
    ensures !EndsWith(e, " ---")
  {
    if |e| >= 4 {
      assert e[|e| - 4..|e|][0] == e[|e| - 4] && e[|e| - 4..|e|][1] == e[|e| - 3];
    }
  }
}
