/**
 Modules of one name and different lengths: bodies put back in the wrong places that add up to the file,
 so that the script's closing check lets the cut pass. The lines that stand in literals are an input, as
 everywhere in the model of the script.
 */
module Realigned {
  import opened Wrappers
  import opened PyText
  import opened ModuleSplit

  lemma {:induction false} KeptDedents(L: seq<string>, keep: set<nat>, lo: nat, hi: nat)
    requires lo <= hi <= |L| && forall n :: lo < n <= hi ==> n in keep
    ensures Dedented(L, keep, lo, hi) == Ok(L[lo..hi])
    decreases hi - lo
  {
    if lo < hi {
      KeptDedents(L, keep, lo + 1, hi);
      assert L[lo..hi] == [L[lo]] + L[lo + 1..hi];
    }
  }

  lemma {:induction false} KeptRestores(keep: set<nat>, body: seq<string>, i: nat)
    requires forall n :: i < n <= i + |body| ==> n in keep
    ensures Restored(keep, body, i) == body
    decreases |body|
  {
    if body != [] {
      KeptRestores(keep, body[1..], i + 1);
      assert body == [body[0]] + body[1..];
    }
  }

  const OPEN_T := "mod t {"
  const DECL_T := "mod t;"

  /** Six times the lines of a test module. */
  const SIX: seq<string> :=
    [CFG_TEST, OPEN_T, "}", CFG_TEST, OPEN_T, "}", CFG_TEST, OPEN_T, "}",
     CFG_TEST, OPEN_T, "}", CFG_TEST, OPEN_T, "}", CFG_TEST, OPEN_T, "}"]

  /** The lines that stand in a literal: all those inside the second and the third module. */
  const IN_LITERALS: set<nat> := {6, 7, 8, 9, 10, 11, 15, 16, 17}

  const FIRST := Moved("t", 1, 2, [])
  const SECOND := Moved("t", 4, 11, SIX[5..11])
  const THIRD := Moved("t", 13, 17, SIX[14..17])

  lemma TextsOfT()
    ensures OpenText("t") == OPEN_T && DeclText("t") == DECL_T
    ensures PyStrip(OPEN_T) == OPEN_T && PyStrip(DECL_T) == DECL_T && PyStrip(CFG_TEST) == CFG_TEST
    ensures Replace(OPEN_T, OPEN_T, DECL_T) == DECL_T && Chop(DECL_T) + " {" == OPEN_T
  {
    assert [] + OPEN_T + [] == OPEN_T && [] + DECL_T + [] == DECL_T && [] + CFG_TEST + [] == CFG_TEST;
    ReplaceOnce([], [], OPEN_T, DECL_T);
    StripOf([], OPEN_T, []);
    StripOf([], DECL_T, []);
    StripOf([], CFG_TEST, []);
  }

  lemma CutOfT(L: seq<string>, keep: set<nat>, m: Moved, lo: nat)
    requires lo <= m.first < m.last < |L| && m.name == "t" && L[m.first] == OPEN_T && L[m.last] == "}"
    requires m.body == L[m.first + 1..m.last] && forall n :: m.first + 1 < n <= m.last ==> n in keep
    ensures CutFrom(L, keep, m, lo, m.last + 1)
  {
    TextsOfT();
    KeptDedents(L, keep, m.first + 1, m.last);
  }

  lemma ThreeCuts()
    ensures CutFrom(SIX, IN_LITERALS, FIRST, 0, 3)
    ensures CutFrom(SIX, IN_LITERALS, SECOND, 3, 12)
    ensures CutFrom(SIX, IN_LITERALS, THIRD, 12, 18)
  {
    hide CutFrom;
    CutOfT(SIX, IN_LITERALS, FIRST, 0);
    CutOfT(SIX, IN_LITERALS, SECOND, 3);
    CutOfT(SIX, IN_LITERALS, THIRD, 12);
  }

  lemma OutCons(L: seq<string>, keep: set<nat>, m: Moved, rest: seq<Moved>, cur: nat)
    requires CutFrom(L, keep, m, cur, m.last + 1) && Ordered(L, keep, rest, m.last + 1)
    ensures Ordered(L, keep, [m] + rest, cur)
    ensures OutFrom(L, keep, [m] + rest, cur) == L[cur..m.first] + [DeclLine(L, m)] + OutFrom(L, keep, rest, m.last + 1)
  {
    hide Dedented, PyStrip, DeclLine;
    assert ([m] + rest)[1..] == rest;
  }

  lemma ThreeOrdered()
    ensures Ordered(SIX, IN_LITERALS, [FIRST, SECOND, THIRD], 0)
    ensures OutFrom(SIX, IN_LITERALS, [FIRST, SECOND, THIRD], 0) == [CFG_TEST, DECL_T, CFG_TEST, DECL_T, CFG_TEST, DECL_T]
  {
    hide Dedented, PyStrip, Replace, CutFrom;
    TextsOfT();
    ThreeCuts();
    OutCons(SIX, IN_LITERALS, THIRD, [], 12);
    OutCons(SIX, IN_LITERALS, SECOND, [THIRD], 3);
    OutCons(SIX, IN_LITERALS, FIRST, [SECOND, THIRD], 0);
    assert [THIRD] + [] == [THIRD] && [SECOND] + [THIRD] == [SECOND, THIRD];
    assert [FIRST] + [SECOND, THIRD] == [FIRST, SECOND, THIRD];
  }

  lemma ByDeclSnoc(mods: seq<Moved>, m: Moved)
    ensures ByDecl(mods + [m]) == ByDecl(mods)[DeclText(m.name) := m]
  {
  }

  /** The declaration stands for the third module. */
  lemma TableOfThree()
    ensures ByDecl([FIRST, SECOND, THIRD]) == map[DECL_T := THIRD]
  {
    TextsOfT();
    ByDeclSnoc([], FIRST);
    ByDeclSnoc([FIRST], SECOND);
    ByDeclSnoc([FIRST, SECOND], THIRD);
    assert [] + [FIRST] == [FIRST] && [FIRST] + [SECOND] == [FIRST, SECOND];
    assert [FIRST, SECOND] + [THIRD] == [FIRST, SECOND, THIRD];
  }

  lemma LinesExpand()
    ensures Expand(IN_LITERALS, map[DECL_T := THIRD], CFG_TEST) == [CFG_TEST]
    ensures Expand(IN_LITERALS, map[DECL_T := THIRD], DECL_T) == [OPEN_T, "}", CFG_TEST, OPEN_T, "}"]
  {
    hide PyStrip, Restored, Chop;
    TextsOfT();
    KeptRestores(IN_LITERALS, SIX[14..17], 14);
    assert CFG_TEST[0] != DECL_T[0];
  }

  lemma PairExpands(rest: seq<string>)
    ensures Reinlined(IN_LITERALS, map[DECL_T := THIRD], [CFG_TEST, DECL_T] + rest) ==
            [CFG_TEST, OPEN_T, "}", CFG_TEST, OPEN_T, "}"] + Reinlined(IN_LITERALS, map[DECL_T := THIRD], rest)
  {
    hide PyStrip, Expand, Reinlined;
    var table := map[DECL_T := THIRD];
    LinesExpand();
    ReinlinedStretches(IN_LITERALS, table, [CFG_TEST], DECL_T, rest);
    ReinlinedOne(IN_LITERALS, table, CFG_TEST);
    assert [CFG_TEST] + [DECL_T] + rest == [CFG_TEST, DECL_T] + rest;
  }

  /**
   * Three modules `t`: the first is empty, the second holds the lines of two more modules in a literal, the
   * third those of one. Every declaration stands for the third, and three times the third is the same file.
   */
  lemma WrongPlacesPass()
    ensures var L, mods := SIX, [FIRST, SECOND, THIRD];
      && Ordered(L, IN_LITERALS, mods, 0) && !Reversible(L, IN_LITERALS, mods)
      && Reinlined(IN_LITERALS, ByDecl(mods), OutFrom(L, IN_LITERALS, mods, 0)) == L
  {
    hide Reversible, Ordered, OutFrom, ByDecl, Reinlined;
    var mods := [FIRST, SECOND, THIRD];
    var pair := [CFG_TEST, DECL_T];
    ThreeOrdered();
    TableOfThree();
    PairExpands(pair + pair);
    PairExpands(pair);
    PairExpands([]);
    assert pair + [] == pair && pair + (pair + pair) == [CFG_TEST, DECL_T, CFG_TEST, DECL_T, CFG_TEST, DECL_T];
    assert Reinlined(IN_LITERALS, map[DECL_T := THIRD], []) == [] by { EmptyReinlined(); }
    assert mods[0].name == mods[1].name && |mods[0].body| != |mods[1].body|;
    ReinlineIff(SIX, IN_LITERALS, mods);
  }

  lemma EmptyReinlined()
    ensures Reinlined(IN_LITERALS, map[DECL_T := THIRD], []) == []
  {
  }
}
