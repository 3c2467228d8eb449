/** Which items of a file are moved out, what becomes of their lines, and when a cut is refused, told line by line. */
module SplitRules {
  import opened Wrappers
  import opened Text
  import opened PyText
  import opened ModuleSplit

  /** Line `k` is the first of the item that reads `mod NAME {`. */
  predicate OpensOn(L: seq<string>, it: Item, k: nat) {
    && 1 <= it.start <= it.end <= |L| && it.start <= k + 1 <= it.end
    && PyStrip(L[k]) == "mod " + it.name + " {"
    && forall j :: it.start - 1 <= j < k ==> PyStrip(L[j]) != "mod " + it.name + " {"
  }

  /**
   The item is a selected top-level module that opens on line `k`, behind a line `#[cfg(test)]` of its own, and
   ends with a closing brace at the margin.
   */
  predicate Movable(L: seq<string>, it: Item, only: set<string>, k: nat) {
    && it.depth == 0 && it.kind == "mod" && (only != {} ==> it.name in only)
    && OpensOn(L, it, k) && L[it.end - 1] == "}"
    && exists i :: it.start - 1 <= i < k && PyStrip(L[i]) == "#[cfg(test)]"
  }

  lemma {:induction false} FindOpenIs(L: seq<string>, name: string, i: nat, end: nat, k: nat)
    requires i <= end <= |L|
    ensures FindOpen(L, name, i, end) == Some(k) <==>
            i <= k < end && PyStrip(L[k]) == OpenText(name) && forall j :: i <= j < k ==> PyStrip(L[j]) != OpenText(name)
    decreases end - i
  {
    if i < end && PyStrip(L[i]) != OpenText(name) {
      FindOpenIs(L, name, i + 1, end, k);
    }
  }

  lemma MovableIff(L: seq<string>, it: Item, only: set<string>, k: nat)
    requires 1 <= it.start <= it.end <= |L|
    ensures OpensAt(L, it, only) == Some(k) <==> Movable(L, it, only, k)
  {
    hide PyStrip;
    FindOpenIs(L, it.name, it.start - 1, it.end, k);
    var f := FindOpen(L, it.name, it.start - 1, it.end);
    if f.Some? {
      FindOpenIs(L, it.name, it.start - 1, it.end, f.value);
    }
  }

  // ---- the body ------------------------------------------------------------------------------------

  /** The line (counted from 0) keeps its text: it is empty, or stands in a literal. */
  predicate Untouched(L: seq<string>, keep: set<nat>, i: nat) {
    i < |L| && (L[i] == "" || i + 1 in keep)
  }

  predicate Indented(L: seq<string>, keep: set<nat>, i: nat) {
    i < |L| && (Untouched(L, keep, i) || (|L[i]| >= 4 && L[i][..4] == "    "))
  }

  /** `body` is lines `lo` to `hi` moved left by four columns. */
  predicate Shifted(L: seq<string>, keep: set<nat>, lo: nat, hi: nat, body: seq<string>) {
    lo <= hi <= |L| && |body| == hi - lo && forall n: nat :: n < hi - lo ==> MovedLine(L, keep, lo + n, body[n])
  }

  predicate MovedLine(L: seq<string>, keep: set<nat>, i: nat, line: string) {
    Indented(L, keep, i) && L[i] == if Untouched(L, keep, i) then line else "    " + line
  }

  /** The first of the lines that cannot be moved left. */
  predicate FirstStuck(L: seq<string>, keep: set<nat>, lo: nat, hi: nat, i: nat) {
    lo <= i < hi <= |L| && !Indented(L, keep, i) && forall j :: lo <= j < i ==> Indented(L, keep, j)
  }

  lemma LineShifted(L: seq<string>, keep: set<nat>, i: nat)
    requires i < |L|
    ensures Kept(keep, L[i], i) <==> Untouched(L, keep, i)
    ensures Kept(keep, L[i], i) || StartsWith(L[i], "    ") <==> Indented(L, keep, i)
    ensures !Kept(keep, L[i], i) && StartsWith(L[i], "    ") ==> "    " + L[i][4..] == L[i]
  {
    if |L[i]| >= 4 {
      assert L[i][0..4] == L[i][..4];
    }
  }

  lemma {:induction false} DedentedIs(L: seq<string>, keep: set<nat>, lo: nat, hi: nat)
    requires lo <= hi <= |L|
    ensures Dedented(L, keep, lo, hi).Ok? ==> Shifted(L, keep, lo, hi, Dedented(L, keep, lo, hi).value)
    ensures Dedented(L, keep, lo, hi).Err? ==>
              StuckAs(L, keep, lo, hi, Dedented(L, keep, lo, hi).error)
    decreases hi - lo
  {
    hide Indented, Untouched, Kept, StartsWith;
    if lo < hi {
      LineShifted(L, keep, lo);
      DedentedIs(L, keep, lo + 1, hi);
      var rest := Dedented(L, keep, lo + 1, hi);
      if !Indented(L, keep, lo) {
        assert FirstStuck(L, keep, lo, hi, lo);
      } else if rest.Err? {
        var i: nat :| FirstStuck(L, keep, lo + 1, hi, i) && rest.error == NotIndented(i + 1);
        assert FirstStuck(L, keep, lo, hi, i);
      }
    }
  }

  lemma NotStuck(L: seq<string>, keep: set<nat>, lo: nat, hi: nat, body: seq<string>, i: nat)
    ensures Shifted(L, keep, lo, hi, body) ==> !FirstStuck(L, keep, lo, hi, i)
  {
    if Shifted(L, keep, lo, hi, body) && lo <= i < hi {
      assert MovedLine(L, keep, lo + (i - lo), body[i - lo]);
    }
  }

  lemma OneBody(L: seq<string>, keep: set<nat>, lo: nat, hi: nat, body: seq<string>)
    ensures Shifted(L, keep, lo, hi, body) <==> lo <= hi <= |L| && Dedented(L, keep, lo, hi) == Ok(body)
  {
    hide Indented, Untouched;
    if lo <= hi <= |L| {
      DedentedIs(L, keep, lo, hi);
      if Shifted(L, keep, lo, hi, body) {
        forall i: nat
          ensures !FirstStuck(L, keep, lo, hi, i)
        {
          NotStuck(L, keep, lo, hi, body, i);
        }
        var b := Dedented(L, keep, lo, hi).value;
        forall n | 0 <= n < |b|
          ensures b[n] == body[n]
        {
          assert MovedLine(L, keep, lo + n, b[n]) && MovedLine(L, keep, lo + n, body[n]);
          SameTail("    ", b[n], body[n]);
        }
        assert b == body;
      }
    }
  }

  lemma SameTail(a: string, x: string, y: string)
    ensures a + x == a + y ==> x == y
  {
    assert (a + x)[|a|..] == x && (a + y)[|a|..] == y;
  }

  lemma OneStuck(L: seq<string>, keep: set<nat>, lo: nat, hi: nat, i: nat)
    requires lo <= hi <= |L| && FirstStuck(L, keep, lo, hi, i)
    ensures Dedented(L, keep, lo, hi) == Err(NotIndented(i + 1))
  {
    hide Indented;
    DedentedIs(L, keep, lo, hi);
    var r := Dedented(L, keep, lo, hi);
    if r.Ok? {
      NotStuck(L, keep, lo, hi, r.value, i);
    }
  }

  // ---- the items -----------------------------------------------------------------------------------

  /** The item is moved out as `m`. */
  predicate MovesAs(L: seq<string>, keep: set<nat>, it: Item, only: set<string>, taken: set<string>, m: Moved) {
    && Movable(L, it, only, m.first) && it.name !in taken
    && m.name == it.name && m.last == it.end - 1 && Shifted(L, keep, m.first + 1, m.last, m.body)
  }

  /** The item would be moved, but its file exists, or a line of its body cannot be moved left. */
  ghost predicate FailsAs(L: seq<string>, keep: set<nat>, it: Item, only: set<string>, taken: set<string>, e: Error) {
    exists k: nat :: Movable(L, it, only, k) && Refusal(L, keep, it, taken, k, e)
  }

  ghost predicate Refusal(L: seq<string>, keep: set<nat>, it: Item, taken: set<string>, k: nat, e: Error) {
    if it.name in taken then e == TargetExists(it.name)
    else it.end > 0 && StuckAs(L, keep, k + 1, it.end - 1, e)
  }

  ghost predicate StuckAs(L: seq<string>, keep: set<nat>, lo: nat, hi: nat, e: Error) {
    exists i: nat :: FirstStuck(L, keep, lo, hi, i) && e == NotIndented(i + 1)
  }

  ghost predicate Stays(L: seq<string>, it: Item, only: set<string>) {
    forall k: nat :: !Movable(L, it, only, k)
  }

  lemma StaysIff(L: seq<string>, it: Item, only: set<string>)
    requires 1 <= it.start <= it.end <= |L|
    ensures OpensAt(L, it, only).None? <==> Stays(L, it, only)
  {
    hide Movable, OpensAt;
    forall k: nat
      ensures OpensAt(L, it, only) == Some(k) <==> Movable(L, it, only, k)
    {
      MovableIff(L, it, only, k);
    }
  }

  lemma OneCut(L: seq<string>, keep: set<nat>, it: Item, only: set<string>, taken: set<string>)
    requires 1 <= it.start <= it.end <= |L|
    ensures CutOne(L, keep, it, only, taken) == Ok(None) <==> Stays(L, it, only)
    ensures forall m :: CutOne(L, keep, it, only, taken) == Ok(Some(m)) <==> MovesAs(L, keep, it, only, taken, m)
    ensures forall e :: CutOne(L, keep, it, only, taken) == Err(e) <==> FailsAs(L, keep, it, only, taken, e)
  {
    hide Movable, OpensAt, Shifted, FirstStuck, Dedented;
    StaysIff(L, it, only);
    var o := OpensAt(L, it, only);
    forall k: nat
      ensures o == Some(k) <==> Movable(L, it, only, k)
    {
      MovableIff(L, it, only, k);
    }
    if o.Some? {
      OpenBeforeClose(L, it, only);
      var lo, hi := o.value + 1, it.end - 1;
      forall body
        ensures Shifted(L, keep, lo, hi, body) <==> Dedented(L, keep, lo, hi) == Ok(body)
      {
        OneBody(L, keep, lo, hi, body);
      }
      forall i: nat
        ensures FirstStuck(L, keep, lo, hi, i) ==> Dedented(L, keep, lo, hi) == Err(NotIndented(i + 1))
      {
        if FirstStuck(L, keep, lo, hi, i) {
          OneStuck(L, keep, lo, hi, i);
        }
      }
      DedentedIs(L, keep, lo, hi);
      CutOpened(L, keep, it, only, taken, o.value);
    }
  }

  lemma CutOpened(L: seq<string>, keep: set<nat>, it: Item, only: set<string>, taken: set<string>, k: nat)
    requires 1 <= it.start <= it.end <= |L| && OpensAt(L, it, only) == Some(k) && k < it.end - 1
    ensures CutOne(L, keep, it, only, taken) ==
            if it.name in taken then Err(TargetExists(it.name))
            else match Dedented(L, keep, k + 1, it.end - 1)
                 case Err(e) => Err(e)
                 case Ok(body) => Ok(Some(Moved(it.name, k, it.end - 1, body)))
  {
  }

  ghost predicate MovedFrom(L: seq<string>, keep: set<nat>, items: seq<Item>, only: set<string>, taken: set<string>, m: Moved) {
    exists i :: 0 <= i < |items| && MovesAs(L, keep, items[i], only, taken, m)
  }

  /** A cut that is not refused moves out exactly the items that the rule names, with their bodies moved left. */
  lemma {:induction false} MovedExactly(L: seq<string>, keep: set<nat>, items: seq<Item>, only: set<string>,
                                        taken: set<string>, m: Moved)
    requires Inside(items, |L|) && CutItems(L, keep, items, only, taken).Ok?
    ensures m in CutItems(L, keep, items, only, taken).value <==> MovedFrom(L, keep, items, only, taken, m)
    decreases |items|
  {
    hide CutOne, MovesAs, Stays, FailsAs;
    if items != [] {
      OneCut(L, keep, items[0], only, taken);
      MovedExactly(L, keep, items[1..], only, taken, m);
      MovedOneMore(L, keep, items, only, taken, m);
    }
  }

  lemma MovedOneMore(L: seq<string>, keep: set<nat>, items: seq<Item>, only: set<string>, taken: set<string>, m: Moved)
    requires items != []
    ensures MovedFrom(L, keep, items, only, taken, m) <==>
            MovesAs(L, keep, items[0], only, taken, m) || MovedFrom(L, keep, items[1..], only, taken, m)
  {
    hide MovesAs;
    assert forall i :: 0 < i < |items| ==> items[i] == items[1..][i - 1];
    if i :| 0 <= i < |items| && MovesAs(L, keep, items[i], only, taken, m) {
      assert i > 0 ==> MovesAs(L, keep, items[1..][i - 1], only, taken, m);
    }
    if i :| 0 <= i < |items[1..]| && MovesAs(L, keep, items[1..][i], only, taken, m) {
      assert MovesAs(L, keep, items[i + 1], only, taken, m);
    }
  }

  ghost predicate Refused(L: seq<string>, keep: set<nat>, it: Item, only: set<string>, taken: set<string>) {
    exists e :: FailsAs(L, keep, it, only, taken, e)
  }

  /** Item `i` is refused with `e`, and no item before it is. */
  ghost predicate FirstRefused(L: seq<string>, keep: set<nat>, items: seq<Item>, only: set<string>, taken: set<string>,
                               i: nat, e: Error) {
    i < |items| && FailsAs(L, keep, items[i], only, taken, e) && forall j :: 0 <= j < i ==> !Refused(L, keep, items[j], only, taken)
  }

  lemma RefusedOneMore(L: seq<string>, keep: set<nat>, items: seq<Item>, only: set<string>, taken: set<string>, i: nat, e: Error)
    requires items != []
    ensures i > 0 ==> (FirstRefused(L, keep, items, only, taken, i, e) <==>
                       !Refused(L, keep, items[0], only, taken) && FirstRefused(L, keep, items[1..], only, taken, i - 1, e))
    ensures FirstRefused(L, keep, items, only, taken, 0, e) <==> FailsAs(L, keep, items[0], only, taken, e)
  {
    hide FailsAs, Refused;
    assert forall j :: 0 < j < |items| ==> items[j] == items[1..][j - 1];
    if i > 0 && !Refused(L, keep, items[0], only, taken) && FirstRefused(L, keep, items[1..], only, taken, i - 1, e) {
      forall j | 0 <= j < i
        ensures !Refused(L, keep, items[j], only, taken)
      {
        assert j > 0 ==> !Refused(L, keep, items[1..][j - 1], only, taken);
      }
    }
    if i > 0 && FirstRefused(L, keep, items, only, taken, i, e) {
      assert !Refused(L, keep, items[0], only, taken);
      forall j | 0 <= j < i - 1
        ensures !Refused(L, keep, items[1..][j], only, taken)
      {
        assert !Refused(L, keep, items[j + 1], only, taken);
      }
    }
  }

  /** A cut is refused for the first item that has to be. */
  lemma {:induction false} CutRefusedIff(L: seq<string>, keep: set<nat>, items: seq<Item>, only: set<string>,
                                         taken: set<string>, e: Error)
    requires Inside(items, |L|)
    ensures CutItems(L, keep, items, only, taken) == Err(e) <==>
            exists i: nat :: FirstRefused(L, keep, items, only, taken, i, e)
    decreases |items|
  {
    hide CutOne, MovesAs, Stays, FailsAs, FirstRefused;
    if items == [] {
      forall i: nat
        ensures !FirstRefused(L, keep, items, only, taken, i, e)
      {
        NothingRefused(L, keep, only, taken, i, e);
      }
    } else {
      OneCut(L, keep, items[0], only, taken);
      CutRefusedIff(L, keep, items[1..], only, taken, e);
      RefusedOneMore(L, keep, items, only, taken, 0, e);
      if i: nat :| FirstRefused(L, keep, items, only, taken, i, e) {
        RefusedOneMore(L, keep, items, only, taken, i, e);
      }
      if i: nat :| FirstRefused(L, keep, items[1..], only, taken, i, e) {
        RefusedOneMore(L, keep, items, only, taken, i + 1, e);
      }
    }
  }

  lemma NothingRefused(L: seq<string>, keep: set<nat>, only: set<string>, taken: set<string>, i: nat, e: Error)
    ensures !FirstRefused(L, keep, [], only, taken, i, e)
  {
  }

  /** The opening line stays behind as a declaration, with the white space around it. */
  lemma DeclarationIs(L: seq<string>, m: Moved, w: string, v: string)
    requires m.first < |L| && PyBlank(w) && PyBlank(v) && L[m.first] == w + ("mod " + m.name + " {") + v
    ensures DeclLine(L, m) == w + ("mod " + m.name + ";") + v
  {
    ReplaceOnce(w, v, OpenText(m.name), DeclText(m.name));
  }
}
