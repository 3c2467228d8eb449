/** Printing a Rust `use` item in rustfmt's shape, and reading it back. */
module UseItems {
  import opened Text
  import opened PyText
  import opened Ordering

  // ---- characters ------------------------------------------------------------------------

  /** What the Unicode tables say outside ASCII: of `\w`, of `str.islower` and of `n.upper() == n`. */
  datatype Tables = Tables(word: char -> bool, lower: char -> bool, upper: string -> bool)

  predicate IsLower(u: Tables, c: char) {
    if c as int < 0x80 then 'a' <= c <= 'z' else u.lower(c)
  }

  /** `\w`, which no white space is. */
  predicate Word(u: Tables, c: char) {
    if c as int < 0x80 then 'a' <= c <= 'z' || 'A' <= c <= 'Z' || IsDigit(c) || c == '_'
    else u.word(c) && !PyWhite(c)
  }

  /** `n.upper() == n` */
  predicate IsUpper(u: Tables, n: string) {
    if exists i :: 0 <= i < |n| && n[i] as int >= 0x80 then u.upper(n) else forall i :: 0 <= i < |n| ==> !('a' <= n[i] <= 'z')
  }

  predicate AllWord(u: Tables, s: string) {
    forall i :: 0 <= i < |s| ==> Word(u, s[i])
  }

  /** `[\w:]*` */
  predicate AllPath(u: Tables, s: string) {
    forall i :: 0 <= i < |s| ==> Word(u, s[i]) || s[i] == ':'
  }

  /** `[\w, ]*` */
  predicate AllList(u: Tables, s: string) {
    forall i :: 0 <= i < |s| ==> Word(u, s[i]) || s[i] == ',' || s[i] == ' '
  }

  predicate Name(u: Tables, n: string) {
    n != [] && AllWord(u, n)
  }

  predicate Names(u: Tables, ns: seq<string>) {
    forall i :: 0 <= i < |ns| ==> Name(u, ns[i])
  }

  predicate Prefix(u: Tables, p: string) {
    p != [] && AllPath(u, p)
  }

  // ---- order -----------------------------------------------------------------------------

  /**
   * `self` first, then snake_case, CamelCase and SCREAMING_CASE, each by code point: the sort key as
   * one string, its first character standing for the group.
   */
  function SortKey(u: Tables, n: string): string
    requires n != []
  {
    if n == "self" then ['0'] + n
    else if IsLower(u, n[0]) then ['1'] + n
    else if IsUpper(u, n) then ['3'] + n
    else ['2'] + n
  }

  function Unkeyed(k: string): string {
    if k == [] then [] else k[1..]
  }

  function SortKeys(u: Tables, names: set<string>): set<string>
    requires forall n :: n in names ==> n != []
  {
    set n | n in names :: SortKey(u, n)
  }

  /** The names without repeats in the order of their keys. */
  ghost function InOrder(u: Tables, names: set<string>): (r: seq<string>)
    requires forall n :: n in names ==> n != []
    ensures forall n :: n in r <==> n in names
  {
    var ks := Sorted(SortKeys(u, names));
    var r := seq(|ks|, i requires 0 <= i < |ks| => Unkeyed(ks[i]));
    forall n
      ensures n in r <==> n in names
    {
      if n in names {
        assert SortKey(u, n) in ks;
        var i :| 0 <= i < |ks| && ks[i] == SortKey(u, n);
        assert r[i] == n;
      }
      if n in r {
        var i :| 0 <= i < |r| && r[i] == n;
        assert ks[i] in SortKeys(u, names);
      }
    }
    r
  }

  lemma KeyBack(u: Tables, names: set<string>, k: string)
    requires forall n :: n in names ==> n != []
    requires k in SortKeys(u, names)
    ensures Unkeyed(k) in names && SortKey(u, Unkeyed(k)) == k
  {
    var n :| n in names && k == SortKey(u, n);
    assert Unkeyed(k) == n;
  }

  /** `self` comes first, the groups follow each other, and no name appears twice. */
  lemma InOrderKeys(u: Tables, names: set<string>, i: nat, j: nat)
    requires forall n :: n in names ==> n != []
    requires i < j < |InOrder(u, names)|
    ensures InOrder(u, names)[i] in names && InOrder(u, names)[j] in names
    ensures Less(SortKey(u, InOrder(u, names)[i]), SortKey(u, InOrder(u, names)[j]))
    ensures InOrder(u, names)[i] != InOrder(u, names)[j]
  {
    var ks := Sorted(SortKeys(u, names));
    assert ks[i] in ks && ks[j] in ks;
    KeyBack(u, names, ks[i]);
    KeyBack(u, names, ks[j]);
    IncreasingPairs(ks, i, j);
    LessIrreflexive(ks[i]);
  }

  /** The name starts with a small letter. */
  predicate Snake(u: Tables, n: string) {
    n != "" && if n[0] as int < 128 then 'a' <= n[0] <= 'z' else u.lower(n[0])
  }

  /** The name has no small letter. */
  predicate Screaming(u: Tables, n: string) {
    !Snake(u, n)
    && if forall c :: c in n ==> c as int < 128 then forall c :: c in n ==> !('a' <= c <= 'z') else u.upper(n)
  }

  /** `self`, then snake_case, then CamelCase, then SCREAMING_CASE; within each by code point. */
  ghost predicate Sooner(u: Tables, a: string, b: string) {
    if a == "self" || b == "self" then b != "self"
    else if Snake(u, a) != Snake(u, b) then Snake(u, a)
    else if Screaming(u, a) != Screaming(u, b) then Screaming(u, b)
    else ByCode(a, b)
  }

  lemma KeyMeans(u: Tables, n: string)
    requires n != []
    ensures SortKey(u, n) == [if n == "self" then '0' else if Snake(u, n) then '1' else if Screaming(u, n) then '3' else '2'] + n
    ensures Snake(u, n) ==> !Screaming(u, n)
  {
    assert IsUpper(u, n) <==>
      if forall c :: c in n ==> c as int < 128 then forall c :: c in n ==> !('a' <= c <= 'z') else u.upper(n) by {
      assert forall i :: 0 <= i < |n| ==> n[i] in n;
    }
  }

  lemma KeysLess(u: Tables, a: string, b: string)
    requires a != [] && b != [] && Less(SortKey(u, a), SortKey(u, b))
    ensures Sooner(u, a, b)
  {
    hide Snake, Screaming, SortKey;
    KeyMeans(u, a);
    KeyMeans(u, b);
    var x, y := SortKey(u, a), SortKey(u, b);
    assert x[1..] == a && y[1..] == b;
    assert x[0] < y[0] || (x[0] == y[0] && Less(a, b));
    LessIff(a, b);
    LessIrreflexive("self");
  }

  /** Any two names are listed in this order. */
  lemma InOrderSooner(u: Tables, names: set<string>, i: nat, j: nat)
    requires forall n :: n in names ==> n != []
    requires i < j < |InOrder(u, names)|
    ensures Sooner(u, InOrder(u, names)[i], InOrder(u, names)[j])
  {
    hide Sooner, SortKey, InOrder;
    InOrderKeys(u, names, i, j);
    KeysLess(u, InOrder(u, names)[i], InOrder(u, names)[j]);
  }

  method SortNames(u: Tables, names: set<string>) returns (r: seq<string>)
    requires forall n :: n in names ==> n != []
    ensures r == InOrder(u, names)
  {
    var ks := Sort(SortKeys(u, names));
    r := seq(|ks|, i requires 0 <= i < |ks| => Unkeyed(ks[i]));
  }

  // ---- printing --------------------------------------------------------------------------

  /** `use P::{…};` */
  function UseList(p: string, body: string): string {
    "use " + (p + ("::{" + (body + "};")))
  }

  function UseName(p: string, n: string): string {
    "use " + (p + ("::" + (n + ";")))
  }

  function UseSelf(p: string): string {
    "use " + (p + ";")
  }

  /** `", ".join(names)` */
  function ListText(ns: seq<string>): string {
    if ns == [] then [] else if |ns| == 1 then ns[0] else ns[0] + ("," + (" " + ListText(ns[1..])))
  }

  /** The names of one wrapped line, as the loop appends them. */
  function Cells(ns: seq<string>): string {
    if ns == [] then [] else Cells(ns[..|ns| - 1]) + (" " + (ns[|ns| - 1] + ","))
  }

  function LineOf(ns: seq<string>): string {
    "   " + Cells(ns)
  }

  /** The names by lines: a name goes on the current line unless that would pass `width`. */
  function Wrap(ns: seq<string>, cur: seq<string>, width: nat): (r: seq<seq<string>>)
    ensures r != []
    decreases |ns|
  {
    if ns == [] then [cur]
    else if |LineOf(cur)| + |ns[0]| + 2 > width then [cur] + Wrap(ns[1..], [ns[0]], width)
    else Wrap(ns[1..], cur + [ns[0]], width)
  }

  function LinesOf(groups: seq<seq<string>>): (r: seq<string>)
    ensures |r| == |groups| && forall i :: 0 <= i < |groups| ==> r[i] == LineOf(groups[i])
  {
    seq(|groups|, i requires 0 <= i < |groups| => LineOf(groups[i]))
  }

  function WrappedText(p: string, ns: seq<string>, width: nat): string {
    "use " + (p + ("::{\n" + (Join(LinesOf(Wrap(ns, [], width))) + "\n};")))
  }

  ghost function Formatted(u: Tables, p: string, names: set<string>, width: nat): string
    requires forall n :: n in names ==> n != []
  {
    var ns := InOrder(u, names);
    if ns == ["self"] then UseSelf(p)
    else if |ns| == 1 then UseName(p, ns[0])
    else if |UseList(p, ListText(ns))| <= width then UseList(p, ListText(ns))
    else WrappedText(p, ns, width)
  }

  method FmtUse(u: Tables, p: string, names: set<string>, width: nat) returns (r: string)
    requires forall n :: n in names ==> n != []
    ensures r == Formatted(u, p, names, width)
  {
    var ns := SortNames(u, names);
    if ns == ["self"] {
      return UseSelf(p);
    }
    if |ns| == 1 {
      return UseName(p, ns[0]);
    }
    var one := UseList(p, ListText(ns));
    if |one| <= width {
      return one;
    }
    var lines := WrapLines(ns, width);
    return "use " + (p + ("::{\n" + (Join(lines) + "\n};")));
  }

  lemma WrapOpens(ns: seq<string>, i: nat, group: seq<string>, width: nat)
    requires i < |ns|
    ensures LinesOf(Wrap(ns[i..], group, width)) ==
      if |LineOf(group)| + |ns[i]| + 2 > width then [LineOf(group)] + LinesOf(Wrap(ns[i + 1..], [ns[i]], width))
      else LinesOf(Wrap(ns[i + 1..], group + [ns[i]], width))
  {
    assert ns[i..][0] == ns[i] && ns[i..][1..] == ns[i + 1..];
    LinesCons(group, Wrap(ns[i + 1..], [ns[i]], width));
  }

  /** The wrapping loop: `lines` are full, `cur` is being filled. */
  method WrapLines(ns: seq<string>, width: nat) returns (lines: seq<string>)
    ensures lines == LinesOf(Wrap(ns, [], width))
  {
    hide Wrap, Cells;
    StartLine();
    var cur := "   ";
    lines := [];
    ghost var group: seq<string> := [];
    ghost var whole := LinesOf(Wrap(ns, [], width));
    var i := 0;
    assert ns[0..] == ns;
    assert lines + whole == whole;
    while i < |ns|
      invariant 0 <= i <= |ns|
      invariant cur == LineOf(group)
      invariant lines + LinesOf(Wrap(ns[i..], group, width)) == whole
    {
      var n := ns[i];
      WrapOpens(ns, i, group, width);
      if |cur| + |n| + 2 > width {
        AppendAssoc(lines, [cur], LinesOf(Wrap(ns[i + 1..], [n], width)));
        lines := lines + [cur];
        cur := "   ";
        group := [];
        assert [] + [n] == [n];
      }
      LineSnoc(group, n);
      cur := cur + (" " + (n + ","));
      group := group + [n];
      i := i + 1;
    }
    WrapEnds(ns, group, width);
    lines := lines + [cur];
  }

  lemma StartLine()
    ensures LineOf([]) == "   "
  {
  }

  lemma WrapEnds(ns: seq<string>, group: seq<string>, width: nat)
    ensures LinesOf(Wrap(ns[|ns|..], group, width)) == [LineOf(group)]
  {
    LinesCons(group, []);
    assert LinesOf([]) == [];
  }

  lemma LinesCons(g: seq<string>, gs: seq<seq<string>>)
    ensures LinesOf([g] + gs) == [LineOf(g)] + LinesOf(gs)
  {
  }

  lemma LineSnoc(g: seq<string>, n: string)
    ensures LineOf(g + [n]) == LineOf(g) + (" " + (n + ","))
  {
    assert (g + [n])[..|g|] == g;
    ConcatAssoc("   ", Cells(g), " " + (n + ","));
  }

  // ---- the texts ---------------------------------------------------------------------------

  /** Names are set apart by a comma and a space. */
  lemma {:induction false} ListSnoc(ns: seq<string>, n: string)
    ensures ListText(ns + [n]) == if ns == [] then n else ListText(ns) + ", " + n
  {
    var all := ns + [n];
    if ns != [] {
      assert all[1..] == ns[1..] + [n];
      ListSnoc(ns[1..], n);
      ListApart(ns[0], if |ns| == 1 then "" else ListText(ns[1..]), n);
    } else {
      assert all == [n];
    }
  }

  lemma ListApart(first: string, rest: string, n: string)
    ensures first + ("," + (" " + n)) == first + ", " + n
    ensures first + ("," + (" " + (rest + ", " + n))) == first + ("," + (" " + rest)) + ", " + n
  {
  }

  /** A wrapped line: four spaces, its names as in a list, and a comma behind the last. */
  lemma {:induction false} LineIs(ns: seq<string>)
    requires ns != []
    ensures LineOf(ns) == "    " + ListText(ns) + ","
  {
    var front, last := ns[..|ns| - 1], ns[|ns| - 1];
    assert ns == front + [last];
    LineSnoc(front, last);
    ListSnoc(front, last);
    if front == [] {
      assert LineOf([]) == "   ";
      CellApart("", last);
    } else {
      LineIs(front);
      CellApart(ListText(front), last);
    }
  }

  lemma CellApart(text: string, n: string)
    ensures "   " + (" " + (n + ",")) == "    " + n + ","
    ensures "    " + text + "," + (" " + (n + ",")) == "    " + (text + ", " + n) + ","
  {
  }

  lemma {:induction false} ListFeeds(ns: seq<string>)
    requires NoFeeds(ns)
    ensures '\n' !in ListText(ns)
  {
    if |ns| > 1 {
      ListFeeds(ns[1..]);
    }
  }

  /** Two names or more are printed on one line exactly when that keeps to the width. */
  lemma OneLineIff(u: Tables, p: string, names: set<string>, width: nat)
    requires forall n :: n in names ==> n != [] && '\n' !in n
    requires '\n' !in p && |InOrder(u, names)| >= 2
    ensures '\n' !in Formatted(u, p, names, width) <==> |p| + |ListText(InOrder(u, names))| + 9 <= width
  {
    hide InOrder, Wrap;
    var ns := InOrder(u, names);
    forall i | 0 <= i < |ns|
      ensures '\n' !in ns[i]
    {
      assert ns[i] in ns;
    }
    ListFeeds(ns);
    FeedInWrapped(p, ns, width);
    assert '\n' !in UseList(p, ListText(ns));
    assert |UseList(p, ListText(ns))| == |p| + |ListText(ns)| + 9;
  }

  lemma FeedInWrapped(p: string, ns: seq<string>, width: nat)
    ensures '\n' in WrappedText(p, ns, width)
  {
    hide Wrap;
    var s := WrappedText(p, ns, width);
    assert s[|p| + 7] == '\n';
  }
}
