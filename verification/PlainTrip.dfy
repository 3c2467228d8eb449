/** Folded plain scalars: what the reader rejoins, and exactly when nothing is lost. */
module PlainTrip {
  import opened Wrappers
  import opened Text
  import opened Scalars
  import opened Writer
  import opened Reader
  import opened FieldTrip
  import opened ScalarTrip

  /** What the writer's choice of the plain style guarantees, on values that do not start with white space. */
  predicate PlainFit(v: string) {
    && v != [] && !IsWhite(v[0]) && '\n' !in v
    && v[0] !in {'"', '\'', '|', '>', '!', '#'}
    && !Contains(v, " #")
    && !IsNull(v)
  }

  /** A piece on a line of its own comes back whole. */
  predicate PieceSurvives(p: string) {
    p != [] && Trimmed(p) && !Skipped(p)
  }

  /** Every fold of the scalar can be undone: no white space at a break and no piece that reads as a marker. */
  predicate PlainSurvives(pieces: seq<string>) {
    && pieces != []
    && Trimmed(pieces[0])
    && forall i :: 1 <= i < |pieces| ==> PieceSurvives(pieces[i])
  }

  /** Each piece with a space before it. */
  function Spaced(ps: seq<string>): string {
    if ps == [] then [] else Spaced(ps[..|ps| - 1]) + (" " + ps[|ps| - 1])
  }

  lemma {:induction false} SpacedCons(p: string, ps: seq<string>)
    ensures Spaced([p] + ps) == " " + p + Spaced(ps)
  {
    var all := [p] + ps;
    if ps == [] {
      assert all == [p] && all[..0] == [];
      assert Spaced(all) == Spaced(all[..0]) + (" " + p);
    } else {
      var n := |ps| - 1;
      assert all[..|all| - 1] == [p] + ps[..n];
      SpacedCons(p, ps[..n]);
      ConcatAssoc(" " + p, Spaced(ps[..n]), " " + ps[n]);
    }
  }

  /** The text that the pieces were cut from. */
  function Joined(ps: seq<string>): string
    requires ps != []
  {
    ps[0] + Spaced(ps[1..])
  }

  lemma JoinedBreak(r: seq<string>)
    requires r != []
    ensures Joined([[]] + r) == " " + Joined(r)
  {
    assert ([[]] + r)[1..] == [r[0]] + r[1..];
    SpacedCons(r[0], r[1..]);
    ConcatAssoc(" ", r[0], Spaced(r[1..]));
  }

  lemma JoinedChar(c: char, r: seq<string>)
    requires r != []
    ensures Joined([[c] + r[0]] + r[1..]) == [c] + Joined(r)
  {
    assert ([[c] + r[0]] + r[1..])[1..] == r[1..];
    ConcatAssoc([c], r[0], Spaced(r[1..]));
  }

  /** Folding only replaces spaces. */
  lemma {:induction false} FoldJoins(v: string, col: nat)
    ensures Joined(Fold(v, col)) == v
    decreases |v|
  {
    if v == [] {
      assert Fold(v, col)[1..] == [];
    } else {
      assert v == [v[0]] + v[1..];
      if v[0] == ' ' && col > MARGIN {
        FoldJoins(v[1..], HANG);
        JoinedBreak(Fold(v[1..], HANG));
      } else {
        FoldJoins(v[1..], col + 1);
        JoinedChar(v[0], Fold(v[1..], col + 1));
      }
    }
  }

  lemma TrimHang(p: string)
    ensures Trim(StripCr(Spaces(HANG) + p)) == Trim(p)
  {
    TrimStripCr(Spaces(HANG) + p);
    TrimPrefix(Spaces(HANG), p);
  }

  predicate PlainTail(t: Tail) {
    t.fv.kind.Plain? && !t.open
  }

  /** One hanging line: either it adds exactly a space and its piece, or something is lost for good. */
  lemma AbsorbPiece(t: Tail, p: string)
    requires PlainTail(t)
    ensures var t' := AbsorbLine(t, StripCr(Spaces(HANG) + p));
            && PlainTail(t')
            && |t'.fv.raw| + t'.pending <= |t.fv.raw| + t.pending + 1 + |p|
            && |t'.fv.raw| <= |t.fv.raw| + t.pending + 1 + |p|
            && (t.pending > 0 || !PieceSurvives(p) ==> |t'.fv.raw| < |t.fv.raw| + t.pending + 1 + |p|)
            && (t.pending == 0 && PieceSurvives(p) ==> t' == t.(fv := t.fv.(raw := t.fv.raw + (" " + p))))
  {
    TrimHang(p);
    TrimOfTrimmed(p);
    if PieceSurvives(p) {
      ConcatAssoc(t.fv.raw, " ", p);
    }
  }

  predicate AllSurvive(ps: seq<string>) {
    ps == [] || (AllSurvive(ps[..|ps| - 1]) && PieceSurvives(ps[|ps| - 1]))
  }

  lemma {:induction false} AllSurviveEach(ps: seq<string>)
    ensures AllSurvive(ps) <==> forall i :: 0 <= i < |ps| ==> PieceSurvives(ps[i])
  {
    if ps != [] {
      var n := |ps| - 1;
      AllSurviveEach(ps[..n]);
      assert ps == ps[..n] + [ps[n]];
    }
  }

  /** `t'` is `t` grown by exactly `added`, or is shorter than that and stays so. */
  predicate Grown(t: Tail, t': Tail, added: string, whole: bool) {
    && PlainTail(t')
    && |t'.fv.raw| + t'.pending <= |t.fv.raw| + |added|
    && (whole ==> t' == t.(fv := t.fv.(raw := t.fv.raw + added)))
    && (!whole ==> |t'.fv.raw| < |t.fv.raw| + |added|)
  }

  lemma GrownStep(t: Tail, mid: Tail, added: string, whole: bool, p: string)
    requires PlainTail(t) && t.pending == 0 && Grown(t, mid, added, whole)
    ensures Grown(t, AbsorbLine(mid, StripCr(Spaces(HANG) + p)), added + (" " + p), whole && PieceSurvives(p))
  {
    AbsorbPiece(mid, p);
    ConcatAssoc(t.fv.raw, added, " " + p);
  }

  lemma {:induction false} AbsorbPieces(t: Tail, ps: seq<string>)
    requires PlainTail(t) && t.pending == 0
    ensures Grown(t, Absorb(t, StripAll(Hang(ps))), Spaced(ps), AllSurvive(ps))
  {
    if ps == [] {
      assert t.fv.raw + [] == t.fv.raw;
    } else {
      var n := |ps| - 1;
      AbsorbPieces(t, ps[..n]);
      var lines := StripAll(Hang(ps));
      assert lines[..n] == StripAll(Hang(ps[..n]));
      GrownStep(t, Absorb(t, lines[..n]), Spaced(ps[..n]), AllSurvive(ps[..n]), ps[n]);
    }
  }

  lemma UnescapeShrinks(s: string)
    ensures |UnescapeDq(s)| <= |s|
    decreases |s|
  {
    if s != [] {
      var (piece, left) := DecodeStep(s);
      assert |piece| + |left| <= |s|;
      UnescapeShrinks(left);
    }
  }

  lemma {:induction false} UndoubledShrinks(s: string)
    ensures |Undoubled(s)| <= |s|
    decreases |s|
  {
    if s != [] {
      if |s| > 1 && s[0] == '\'' && s[1] == '\'' {
        UndoubledShrinks(s[2..]);
      } else {
        UndoubledShrinks(s[1..]);
      }
    }
  }

  /** Decoding never makes a scalar longer. */
  lemma UnyamlShrinks(raw: string)
    ensures |UnyamlScalar(raw)| <= |raw|
  {
    hide Trim, Undoubled, UnescapeDq;
    var s := Trim(raw);
    TrimOfTrimmed(raw);
    if |s| >= 2 {
      UndoubledShrinks(s[1..|s| - 1]);
      UnescapeShrinks(s[1..|s| - 1]);
    }
  }

  lemma PrefixContains(s: string, a: string, p: string)
    requires a <= s && !Contains(s, p)
    ensures !Contains(a, p)
  {
    forall i: nat | i <= |a| && At(a, p, i)
      ensures At(s, p, i)
    {
      assert s[i..i + |p|] == a[i..i + |p|];
    }
  }

  /** The first piece of a plain scalar is taken whole, up to white space at the break. */
  lemma PlainHead(v: string, p: string)
    requires PlainFit(v) && p != [] && p <= v
    ensures ScalarHead(Trim(p)) == (Trim(p), Plain) && Trim(p) != [] && Trim(p)[0] == v[0]
  {
    hide Trim;
    TrimOfTrimmed(p);
    var w, t, z := TrimCuts(p);
    assert p[0] == v[0];
    assert w == [];
    assert t <= p && t <= v;
    PrefixContains(v, t, " #");
    assert t + [] == t;
    TrimEndSplit(t, []);
  }

  lemma PlainPieces(width: nat, v: string)
    requires PlainFit(v)
    ensures var ps := Fold(v, width);
            && v == ps[0] + Spaced(ps[1..]) && ps[0] != [] && ps[0] <= v
            && (PlainSurvives(ps) <==> Trimmed(ps[0]) && AllSurvive(ps[1..]))
            && (PlainSurvives(ps) ==> Trimmed(v))
  {
    var ps := Fold(v, width);
    FoldJoins(v, width);
    AllSurviveEach(ps[1..]);
    assert forall i :: 1 <= i < |ps| ==> ps[1..][i - 1] == ps[i];
    if |ps| > 1 && PlainSurvives(ps) {
      var last := ps[|ps| - 1];
      assert ps[1..][|ps| - 2] == last;
      assert last[|last| - 1] == v[|v| - 1];
    }
  }

  /** A plain scalar reads back if and only if every one of its pieces survives its line. */
  lemma PlainTripIff(width: nat, v: string)
    requires PlainFit(v)
    ensures ReadBack(PlainStyle, width, v) == Some(v) <==> PlainSurvives(Fold(v, width))
    ensures !ReadTail(PlainStyle, width, v).open
    ensures ScalarHead(Trim(FieldTexts(PlainStyle, width, v).0)).0 != []
  {
    var ps := Fold(v, width);
    PlainPieces(width, v);
    PlainHead(v, ps[0]);
    TrimOfTrimmed(ps[0]);
    var t := HeadTail(Trim(ps[0]), Plain);
    AbsorbPieces(t, ps[1..]);
    PlainOutcome(t, ReadTail(PlainStyle, width, v), v, ps[0], Spaced(ps[1..]), AllSurvive(ps[1..]));
  }

  lemma PlainOutcome(t: Tail, t': Tail, v: string, first: string, added: string, whole: bool)
    requires t == HeadTail(Trim(first), Plain) && Grown(t, t', added, whole)
    requires PlainFit(v) && v == first + added && (Trimmed(first) && whole ==> Trimmed(v))
    ensures NonNull(t'.fv) == Some(v) <==> Trimmed(first) && whole
  {
    TrimOfTrimmed(first);
    if Trimmed(first) && whole {
      assert t'.fv.raw == v;
      TrimOfTrimmed(v);
    } else {
      assert |t'.fv.raw| < |v|;
      UnyamlShrinks(t'.fv.raw);
    }
  }

  /** Letters before the margin are never broken. */
  lemma {:induction false} FoldLetters(n: nat, tail: string, col: nat)
    ensures var ps := Fold(tail, col + n);
      ps != [] && Fold(Replicate('a', n) + tail, col) == [Replicate('a', n) + ps[0]] + ps[1..]
    decreases n
  {
    if n == 0 {
      var ps := Fold(tail, col);
      assert Replicate('a', 0) + tail == tail && Replicate('a', 0) + ps[0] == ps[0];
      assert ps == [ps[0]] + ps[1..];
    } else {
      var s := Replicate('a', n) + tail;
      assert s[1..] == Replicate('a', n - 1) + tail;
      FoldLetters(n - 1, tail, col + 1);
      var ps, r := Fold(tail, col + n), Fold(s[1..], col + 1);
      assert r[0] == Replicate('a', n - 1) + ps[0] && r[1..] == ps[1..];
      assert s[0] == 'a' && ['a'] + r[0] == Replicate('a', n) + ps[0];
    }
  }

  /** Two adjacent spaces behind the margin: the fold takes one and the reader's trimming the other. */
  lemma FoldLosesSpace(n: nat, width: nat)
    requires n + width > MARGIN
    ensures !PlainSurvives(Fold(Replicate('a', n) + "  b", width))
  {
    var tail := "  b";
    FoldLetters(n, tail, width);
    assert tail[0] == ' ' && tail[1..] == " b";
    var rest := Fold(" b", HANG);
    assert Fold(tail, width + n) == [[]] + rest;
    SmallFold();
    var ps := Fold(Replicate('a', n) + tail, width);
    assert ps[1] == " b";
  }

  lemma SmallFold()
    ensures Fold(" b", HANG) == [" b"] && !PieceSurvives(" b")
  {
    assert " b"[1..] == "b" && "b"[1..] == "";
    var none: seq<string> := [[]];
    assert Fold("", HANG + 2) == none && none[1..] == [];
    assert Fold("b", HANG + 1) == [['b'] + none[0]] + none[1..];
    var one := ["b"];
    assert ['b'] + none[0] == "b" && [' '] + one[0] == " b";
    assert ["b"] + none[1..] == one;
    assert Fold("b", HANG + 1) == one && one[1..] == [];
    assert Fold(" b", HANG) == [[' '] + one[0]] + one[1..];
    TrimOfTrimmed(" b");
  }

  /** A last piece that reads as the document marker is skipped. */
  lemma FoldLosesMarker(n: nat, width: nat)
    requires n + width > MARGIN
    ensures !PlainSurvives(Fold(Replicate('a', n) + " ---", width))
  {
    hide Fold;
    FoldLetters(n, " ---", width);
    MarkerFold(width + n);
    assert Fold(Replicate('a', n) + " ---", width)[1] == "---";
  }

  lemma MarkerFold(col: nat)
    requires col > MARGIN
    ensures Fold(" ---", col) == [[], "---"] && !PieceSurvives("---")
  {
    var none: seq<string> := [[]];
    assert " ---"[1..] == "---" && "---"[1..] == "--" && "--"[1..] == "-" && "-"[1..] == "";
    assert Fold("", HANG + 3) == none && none[1..] == [] && ['-'] + none[0] == "-";
    var one := ["-"];
    assert Fold("-", HANG + 2) == one && one[1..] == [] && ['-'] + one[0] == "--";
    var two := ["--"];
    assert Fold("--", HANG + 1) == two && two[1..] == [] && ['-'] + two[0] == "---";
    assert Fold("---", HANG) == ["---"];
    assert Fold(" ---", col) == [[]] + ["---"];
  }
}
