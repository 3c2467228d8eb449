/** Moving inline test modules of a Rust file into files of their own, and the proof by re-inlining. */
module ModuleSplit {
  import opened Wrappers
  import opened Text
  import opened PyText

  /** One top-level or nested item of the file, with its first and last line counted from 1. */
  datatype Item = Item(depth: nat, kind: string, name: string, start: nat, end: nat)

  /** A module cut out of lines `open` to `close`, counted from 0: the braces' lines and the body. */
  datatype Moved = Moved(name: string, first: nat, last: nat, body: seq<string>)

  datatype Error = TargetExists(name: string) | NotIndented(line: nat) | NothingToMove | CheckFailed

  function OpenText(name: string): string {
    "mod " + name + " {"
  }

  function DeclText(name: string): string {
    "mod " + name + ";"
  }

  const CFG_TEST := "#[cfg(test)]"

  // ---- cutting ---------------------------------------------------------------------------

  /** The first line from `i` on, before `end`, that opens module `name`. */
  function FindOpen(L: seq<string>, name: string, i: nat, end: nat): (r: Option<nat>)
    requires i <= end <= |L|
    ensures r.Some? ==> i <= r.value < end && PyStrip(L[r.value]) == OpenText(name)
    decreases end - i
  {
    if i == end then None else if PyStrip(L[i]) == OpenText(name) then Some(i) else FindOpen(L, name, i + 1, end)
  }

  predicate HasCfg(L: seq<string>, lo: nat, hi: nat)
    requires lo <= hi <= |L|
  {
    exists i :: lo <= i < hi && PyStrip(L[i]) == CFG_TEST
  }

  /** The items lie inside the file. */
  predicate Inside(items: seq<Item>, n: nat) {
    forall i :: 0 <= i < |items| ==> 1 <= items[i].start <= items[i].end <= n
  }

  predicate Chosen(it: Item, only: set<string>) {
    it.depth == 0 && it.kind == "mod" && (only == {} || it.name in only)
  }

  /** The line on which a module to be moved opens. */
  function OpensAt(L: seq<string>, it: Item, only: set<string>): (r: Option<nat>)
    requires 1 <= it.start <= it.end <= |L|
    ensures r.Some? ==> it.start - 1 <= r.value < it.end && PyStrip(L[r.value]) == OpenText(it.name)
  {
    if !Chosen(it, only) then None
    else
      var k := FindOpen(L, it.name, it.start - 1, it.end);
      if k.None? || L[it.end - 1] != "}" || !HasCfg(L, it.start - 1, k.value) then None else k
  }

  predicate Kept(keep: set<nat>, line: string, i: nat) {
    i + 1 in keep || line == ""
  }

  /** Lines `lo` to `hi` de-indented by four, except those whose text must not change. */
  function Dedented(L: seq<string>, keep: set<nat>, lo: nat, hi: nat): (r: Result<seq<string>, Error>)
    requires lo <= hi <= |L|
    ensures r.Ok? ==> |r.value| == hi - lo
    decreases hi - lo
  {
    if lo == hi then Ok([])
    else if Kept(keep, L[lo], lo) then
      (match Dedented(L, keep, lo + 1, hi) case Err(e) => Err(e) case Ok(b) => Ok([L[lo]] + b))
    else if StartsWith(L[lo], "    ") then
      (match Dedented(L, keep, lo + 1, hi) case Err(e) => Err(e) case Ok(b) => Ok([L[lo][4..]] + b))
    else Err(NotIndented(lo + 1))
  }

  lemma OpenBeforeClose(L: seq<string>, it: Item, only: set<string>)
    requires 1 <= it.start <= it.end <= |L|
    requires OpensAt(L, it, only).Some?
    ensures OpensAt(L, it, only).value < it.end - 1
  {
    assert PyStrip("}") == "}";
    assert OpenText(it.name)[0] == 'm';
  }

  /** The module cut out of one item, or nothing when the item stays. */
  function CutOne(L: seq<string>, keep: set<nat>, it: Item, only: set<string>, taken: set<string>): Result<Option<Moved>, Error>
    requires 1 <= it.start <= it.end <= |L|
  {
    var o := OpensAt(L, it, only);
    if o.None? then Ok(None)
    else if it.name in taken then Err(TargetExists(it.name))
    else
      OpenBeforeClose(L, it, only);
      match Dedented(L, keep, o.value + 1, it.end - 1)
      case Err(e) => Err(e)
      case Ok(body) => Ok(Some(Moved(it.name, o.value, it.end - 1, body)))
  }

  function CutItems(L: seq<string>, keep: set<nat>, items: seq<Item>, only: set<string>, taken: set<string>)
    : Result<seq<Moved>, Error>
    requires Inside(items, |L|)
  {
    if items == [] then Ok([])
    else
      match CutOne(L, keep, items[0], only, taken)
      case Err(e) => Err(e)
      case Ok(m) =>
        match CutItems(L, keep, items[1..], only, taken)
        case Err(e) => Err(e)
        case Ok(rest) => Ok((if m.None? then [] else [m.value]) + rest)
  }

  /** The moved modules lie one after the other from line `cur` on, each with its de-indented body. */
  predicate Ordered(L: seq<string>, keep: set<nat>, mods: seq<Moved>, cur: nat)
    decreases |mods|
  {
    if mods == [] then cur <= |L|
    else
      var m := mods[0];
      && cur <= m.first < m.last < |L|
      && PyStrip(L[m.first]) == OpenText(m.name) && L[m.last] == "}"
      && Dedented(L, keep, m.first + 1, m.last) == Ok(m.body)
      && Ordered(L, keep, mods[1..], m.last + 1)
  }

  /** The line that stays behind where `m` opened. */
  function DeclLine(L: seq<string>, m: Moved): string
    requires m.first < |L|
  {
    Replace(L[m.first], OpenText(m.name), DeclText(m.name))
  }

  /** What is left of the file from line `cur` on. */
  function OutFrom(L: seq<string>, keep: set<nat>, mods: seq<Moved>, cur: nat): seq<string>
    requires Ordered(L, keep, mods, cur)
    decreases |mods|
  {
    if mods == [] then L[cur..]
    else
      var m := mods[0];
      L[cur..m.first] + [DeclLine(L, m)] + OutFrom(L, keep, mods[1..], m.last + 1)
  }

  /** The items to be moved follow each other without overlap. */
  predicate Apart(L: seq<string>, items: seq<Item>, only: set<string>, cur: nat)
    requires Inside(items, |L|)
    decreases |items|
  {
    items == [] ||
    if OpensAt(L, items[0], only).None? then Apart(L, items[1..], only, cur)
    else cur < items[0].start && Apart(L, items[1..], only, items[0].end)
  }

  /** `m` was cut out of `L` between lines `lo` and `hi`. */
  predicate CutFrom(L: seq<string>, keep: set<nat>, m: Moved, lo: nat, hi: nat) {
    && lo <= m.first < m.last < |L| && m.last + 1 == hi
    && PyStrip(L[m.first]) == OpenText(m.name) && L[m.last] == "}"
    && Dedented(L, keep, m.first + 1, m.last) == Ok(m.body)
  }

  lemma CutOneShape(L: seq<string>, keep: set<nat>, it: Item, only: set<string>, taken: set<string>)
    requires 1 <= it.start <= it.end <= |L| && CutOne(L, keep, it, only, taken).Ok?
    ensures var m := CutOne(L, keep, it, only, taken).value;
      (m.None? <==> OpensAt(L, it, only).None?) && (m.Some? ==> CutFrom(L, keep, m.value, it.start - 1, it.end))
  {
    if OpensAt(L, it, only).Some? {
      OpenBeforeClose(L, it, only);
    }
  }

  lemma OrderedCons(L: seq<string>, keep: set<nat>, m: Moved, rest: seq<Moved>, cur: nat, hi: nat)
    requires CutFrom(L, keep, m, cur, hi) && Ordered(L, keep, rest, hi)
    ensures Ordered(L, keep, [m] + rest, cur)
  {
    assert ([m] + rest)[1..] == rest;
  }

  /** The items of `cuts` that were moved. */
  function MovedOf(cuts: seq<Option<Moved>>): seq<Moved> {
    if cuts == [] then [] else (if cuts[0].None? then [] else [cuts[0].value]) + MovedOf(cuts[1..])
  }

  /** Each item with what was cut out of it, one after the other from line `cur` on. */
  predicate Sequenced(L: seq<string>, keep: set<nat>, items: seq<Item>, cuts: seq<Option<Moved>>, cur: nat)
    decreases |items|
  {
    |cuts| == |items| &&
    (items == [] ||
     if cuts[0].None? then Sequenced(L, keep, items[1..], cuts[1..], cur)
     else
       cur < items[0].start && CutFrom(L, keep, cuts[0].value, items[0].start - 1, items[0].end)
       && Sequenced(L, keep, items[1..], cuts[1..], items[0].end))
  }

  lemma {:induction false} SequencedOrdered(L: seq<string>, keep: set<nat>, items: seq<Item>, cuts: seq<Option<Moved>>, cur: nat)
    requires Sequenced(L, keep, items, cuts, cur) && cur <= |L|
    ensures Ordered(L, keep, MovedOf(cuts), cur)
    decreases |items|
  {
    if items != [] {
      if cuts[0].None? {
        SequencedOrdered(L, keep, items[1..], cuts[1..], cur);
        assert MovedOf(cuts) == MovedOf(cuts[1..]);
      } else {
        SequencedOrdered(L, keep, items[1..], cuts[1..], items[0].end);
        OrderedCons(L, keep, cuts[0].value, MovedOf(cuts[1..]), cur, items[0].end);
      }
    }
  }

  lemma {:induction false} CutSequenced(L: seq<string>, keep: set<nat>, items: seq<Item>, only: set<string>,
                                        taken: set<string>, cur: nat) returns (cuts: seq<Option<Moved>>)
    requires Inside(items, |L|) && Apart(L, items, only, cur) && CutItems(L, keep, items, only, taken).Ok?
    ensures Sequenced(L, keep, items, cuts, cur) && MovedOf(cuts) == CutItems(L, keep, items, only, taken).value
    decreases |items|
  {
    cuts := [];
    if items != [] {
      var m := CutOne(L, keep, items[0], only, taken).value;
      CutOneShape(L, keep, items[0], only, taken);
      var rest := CutSequenced(L, keep, items[1..], only, taken, if m.None? then cur else items[0].end);
      cuts := [m] + rest;
      assert cuts[1..] == rest;
    }
  }

  lemma CutOrdered(L: seq<string>, keep: set<nat>, items: seq<Item>, only: set<string>, taken: set<string>)
    requires Inside(items, |L|) && Apart(L, items, only, 0) && CutItems(L, keep, items, only, taken).Ok?
    ensures Ordered(L, keep, CutItems(L, keep, items, only, taken).value, 0)
  {
    var cuts := CutSequenced(L, keep, items, only, taken, 0);
    SequencedOrdered(L, keep, items, cuts, 0);
  }

  // ---- re-inlining -----------------------------------------------------------------------

  /** The moved modules by the line that declares them; of two with one name the later wins. */
  function ByDecl(mods: seq<Moved>): map<string, Moved> {
    if mods == [] then map[]
    else ByDecl(mods[..|mods| - 1])[DeclText(mods[|mods| - 1].name) := mods[|mods| - 1]]
  }

  /** `s[:-1]`. */
  function Chop(s: string): string {
    if s == [] then [] else s[..|s| - 1]
  }

  function Restored(keep: set<nat>, body: seq<string>, i: nat): (r: seq<string>)
    ensures |r| == |body|
  {
    if body == [] then []
    else [if Kept(keep, body[0], i) then body[0] else "    " + body[0]] + Restored(keep, body[1..], i + 1)
  }

  function Expand(keep: set<nat>, table: map<string, Moved>, line: string): (r: seq<string>)
    ensures |r| >= 1
  {
    if PyStrip(line) in table then
      var m := table[PyStrip(line)];
      [Chop(line) + " {"] + Restored(keep, m.body, m.first + 1) + ["}"]
    else [line]
  }

  function Reinlined(keep: set<nat>, table: map<string, Moved>, lines: seq<string>): (r: seq<string>)
    ensures |r| >= |lines|
  {
    if lines == [] then [] else Expand(keep, table, lines[0]) + Reinlined(keep, table, lines[1..])
  }

  // ---- when re-inlining restores the file --------------------------------------------------

  /** No line from `lo` to `hi` reads as the declaration of a moved module. */
  predicate NoDecl(L: seq<string>, table: map<string, Moved>, lo: nat, hi: nat)
    requires lo <= hi <= |L|
  {
    forall i :: lo <= i < hi ==> PyStrip(L[i]) !in table
  }

  /** No line of a body consists of the indentation alone, unless its text is kept. */
  predicate BodyBack(L: seq<string>, keep: set<nat>, lo: nat, hi: nat)
    requires lo <= hi <= |L|
  {
    forall i :: lo <= i < hi ==> Kept(keep, L[i], i) || L[i] != "    "
  }

  /** The line ends with the brace it opens. */
  predicate EndsOpen(line: string) {
    line != [] && line[|line| - 1] == '{'
  }

  /** The body that the declaration of `m` stands for is put back as the lines of `m`. */
  predicate PutBack(L: seq<string>, keep: set<nat>, table: map<string, Moved>, m: Moved) {
    && m.first < m.last <= |L| && DeclText(m.name) in table
    && var w := table[DeclText(m.name)];
       Restored(keep, w.body, w.first + 1) == L[m.first + 1..m.last]
  }

  predicate Restorable(L: seq<string>, keep: set<nat>, mods: seq<Moved>, table: map<string, Moved>, cur: nat)
    requires Ordered(L, keep, mods, cur)
    decreases |mods|
  {
    if mods == [] then NoDecl(L, table, cur, |L|)
    else
      var m := mods[0];
      && NoDecl(L, table, cur, m.first)
      && EndsOpen(L[m.first])
      && PutBack(L, keep, table, m)
      && Restorable(L, keep, mods[1..], table, m.last + 1)
  }

  lemma {:induction false} BodyRestores(L: seq<string>, keep: set<nat>, lo: nat, hi: nat)
    requires lo <= hi <= |L| && Dedented(L, keep, lo, hi).Ok?
    ensures Restored(keep, Dedented(L, keep, lo, hi).value, lo) == L[lo..hi] <==> BodyBack(L, keep, lo, hi)
    decreases hi - lo
  {
    var body := Dedented(L, keep, lo, hi).value;
    if lo < hi {
      BodyRestores(L, keep, lo + 1, hi);
      var rest := Dedented(L, keep, lo + 1, hi).value;
      LineRestores(L[lo], keep, lo);
      assert body[1..] == rest;
      var first := if Kept(keep, body[0], lo) then body[0] else "    " + body[0];
      assert Restored(keep, body, lo) == [first] + Restored(keep, rest, lo + 1);
      assert L[lo..hi] == [L[lo]] + L[lo + 1..hi];
      ConsEqual(first, Restored(keep, rest, lo + 1), L[lo], L[lo + 1..hi]);
      assert BodyBack(L, keep, lo, hi) <==> (Kept(keep, L[lo], lo) || L[lo] != "    ") && BodyBack(L, keep, lo + 1, hi);
    }
  }

  lemma ConsEqual(x: string, xs: seq<string>, y: string, ys: seq<string>)
    ensures [x] + xs == [y] + ys <==> x == y && xs == ys
  {
    assert ([x] + xs)[1..] == xs && ([y] + ys)[1..] == ys;
    assert ([x] + xs)[0] == x && ([y] + ys)[0] == y;
  }

  /** One body line: what the two passes make of it. */
  lemma LineRestores(line: string, keep: set<nat>, i: nat)
    requires Kept(keep, line, i) || StartsWith(line, "    ")
    ensures var b := if Kept(keep, line, i) then line else line[4..];
      (if Kept(keep, b, i) then b else "    " + b) == line <==> Kept(keep, line, i) || line != "    "
  {
    if !Kept(keep, line, i) {
      assert line == "    " + line[4..];
    }
  }

  /** The line that opens a module, once replaced, is found again; chopping it is exact up to blanks. */
  lemma OpenLineBack(line: string, name: string)
    requires PyStrip(line) == OpenText(name)
    ensures var decl := Replace(line, OpenText(name), DeclText(name));
      PyStrip(decl) == DeclText(name) && (Chop(decl) + " {" == line <==> EndsOpen(line))
  {
    hide PyStrip;
    var w, v := StripCuts(line);
    var t, d, stem := OpenText(name), DeclText(name), "mod " + name;
    ReplaceOnce(w, v, t, d);
    assert d[0] == 'm' && d[|d| - 1] == ';';
    StripOf(w, d, v);
    var decl := w + d + v;
    assert t == stem + " {" && d == stem + ";";
    if v == [] {
      assert decl[..|decl| - 1] == w + stem;
      assert line == w + stem + " {";
      assert line[|line| - 1] == '{';
    } else {
      assert line[|line| - 1] == v[|v| - 1];
      var k := |w| + |stem|;
      assert decl[k] == ';' && line[k] == ' ';
      assert (Chop(decl) + " {")[k] == decl[k];
    }
  }

  lemma {:induction false} ReinlinedAppend(keep: set<nat>, table: map<string, Moved>, a: seq<string>, b: seq<string>)
    ensures Reinlined(keep, table, a + b) == Reinlined(keep, table, a) + Reinlined(keep, table, b)
    decreases |a|
  {
    if a == [] {
      assert a + b == b;
    } else {
      assert (a + b)[1..] == a[1..] + b;
      ReinlinedAppend(keep, table, a[1..], b);
    }
  }

  /** Lines that declare no moved module pass through; any other makes the file longer. */
  lemma {:induction false} PlainLines(keep: set<nat>, table: map<string, Moved>, a: seq<string>)
    ensures (forall i :: 0 <= i < |a| ==> PyStrip(a[i]) !in table) ==> Reinlined(keep, table, a) == a
    ensures |Reinlined(keep, table, a)| == |a| ==> forall i :: 0 <= i < |a| ==> PyStrip(a[i]) !in table
    decreases |a|
  {
    if a != [] {
      PlainLines(keep, table, a[1..]);
      assert a == [a[0]] + a[1..];
    }
  }

  lemma PlainIff(keep: set<nat>, table: map<string, Moved>, L: seq<string>, lo: nat, hi: nat)
    requires lo <= hi <= |L|
    ensures Reinlined(keep, table, L[lo..hi]) == L[lo..hi] <==> NoDecl(L, table, lo, hi)
  {
    PlainLines(keep, table, L[lo..hi]);
    if forall i :: 0 <= i < hi - lo ==> PyStrip(L[lo..hi][i]) !in table {
      forall i | lo <= i < hi
        ensures PyStrip(L[i]) !in table
      {
        assert L[lo..hi][i - lo] == L[i];
      }
    }
  }

  /** The declaration of `m` stands for a module with as many lines. */
  predicate Fills(table: map<string, Moved>, m: Moved) {
    DeclText(m.name) in table && |table[DeclText(m.name)].body| == |m.body|
  }

  predicate Faithful(mods: seq<Moved>, table: map<string, Moved>) {
    forall i :: 0 <= i < |mods| ==> Fills(table, mods[i])
  }

  lemma ThreeParts(a: seq<string>, b: seq<string>, c: seq<string>, x: seq<string>, y: seq<string>, z: seq<string>)
    requires |a| >= |x| && |b| == |y| && |c| >= |z|
    ensures a + b + c == x + y + z <==> a == x && b == y && c == z
  {
    var l, r := a + b + c, x + y + z;
    if l == r {
      assert |a| == |x| && |c| == |z|;
      assert l[..|a|] == a && r[..|x|] == x;
      assert l[|a|..|a| + |b|] == b && r[|x|..|x| + |y|] == y;
      assert l[|a| + |b|..] == c && r[|x| + |y|..] == z;
    }
  }

  /** One module put back in place of its declaration. */
  lemma ModuleLines(L: seq<string>, first: nat, last: nat)
    requires first < last < |L|
    ensures L[first..last + 1] == [L[first]] + L[first + 1..last] + [L[last]]
  {
  }

  lemma ModuleRestores(L: seq<string>, keep: set<nat>, m: Moved, table: map<string, Moved>)
    requires m.first < m.last < |L| && |m.body| == m.last - m.first - 1
    requires PyStrip(L[m.first]) == OpenText(m.name) && L[m.last] == "}"
    requires Fills(table, m)
    ensures var r := Expand(keep, table, DeclLine(L, m));
      |r| == m.last + 1 - m.first
      && (r == L[m.first..m.last + 1] <==> EndsOpen(L[m.first]) && PutBack(L, keep, table, m))
  {
    hide OpenText, Chop;
    var line, w := DeclLine(L, m), table[DeclText(m.name)];
    OpenLineBack(L[m.first], m.name);
    var body := Restored(keep, w.body, w.first + 1);
    ModuleLines(L, m.first, m.last);
    ThreeParts([Chop(line) + " {"], body, ["}"], [L[m.first]], L[m.first + 1..m.last], ["}"]);
  }

  /** Re-inlining stretch by stretch. */
  lemma ReinlinedStretches(keep: set<nat>, table: map<string, Moved>, pre: seq<string>, line: string, rest: seq<string>)
    ensures Reinlined(keep, table, pre + [line] + rest) ==
      Reinlined(keep, table, pre) + Expand(keep, table, line) + Reinlined(keep, table, rest)
  {
    ReinlinedAppend(keep, table, pre + [line], rest);
    ReinlinedAppend(keep, table, pre, [line]);
    ReinlinedOne(keep, table, line);
  }

  lemma SliceParts(L: seq<string>, cur: nat, a: nat, b: nat)
    requires cur <= a <= b <= |L|
    ensures L[cur..] == L[cur..a] + L[a..b] + L[b..]
  {
  }

  /** Three stretches against the lines from `cur` on: before a module, the module, and the rest. */
  lemma StretchesIff(L: seq<string>, cur: nat, first: nat, last: nat, a: seq<string>, plain: bool, b: seq<string>, whole: bool,
                     c: seq<string>)
    requires cur <= first < last < |L|
    requires |a| >= first - cur && (a == L[cur..first] <==> plain)
    requires |b| == last + 1 - first && (b == L[first..last + 1] <==> whole)
    requires |c| >= |L| - (last + 1)
    ensures |a + b + c| >= |L| - cur
    ensures a + b + c == L[cur..] <==> plain && whole && c == L[last + 1..]
  {
    SliceParts(L, cur, first, last + 1);
    ThreeParts(a, b, c, L[cur..first], L[first..last + 1], L[last + 1..]);
  }

  lemma ModuleThenRest(L: seq<string>, keep: set<nat>, m: Moved, table: map<string, Moved>, cur: nat, rest: seq<string>)
    requires CutFrom(L, keep, m, cur, m.last + 1) && Fills(table, m)
    requires |Reinlined(keep, table, rest)| >= |L| - (m.last + 1)
    ensures var r := Reinlined(keep, table, L[cur..m.first] + [DeclLine(L, m)] + rest);
      |r| >= |L| - cur
      && (r == L[cur..] <==>
          NoDecl(L, table, cur, m.first) && EndsOpen(L[m.first]) && PutBack(L, keep, table, m)
          && Reinlined(keep, table, rest) == L[m.last + 1..])
  {
    hide Reinlined, OpenText;
    var line := DeclLine(L, m);
    ModuleRestores(L, keep, m, table);
    LineThenRest(L, keep, table, cur, m.first, m.last, line, EndsOpen(L[m.first]) && PutBack(L, keep, table, m), rest);
  }

  lemma LineThenRest(L: seq<string>, keep: set<nat>, table: map<string, Moved>, cur: nat, first: nat, last: nat,
                     line: string, whole: bool, rest: seq<string>)
    requires cur <= first < last < |L|
    requires |Expand(keep, table, line)| == last + 1 - first
    requires Expand(keep, table, line) == L[first..last + 1] <==> whole
    requires |Reinlined(keep, table, rest)| >= |L| - (last + 1)
    ensures var r := Reinlined(keep, table, L[cur..first] + [line] + rest);
      |r| >= |L| - cur
      && (r == L[cur..] <==> NoDecl(L, table, cur, first) && whole && Reinlined(keep, table, rest) == L[last + 1..])
  {
    var a, b, c := Reinlined(keep, table, L[cur..first]), Expand(keep, table, line), Reinlined(keep, table, rest);
    PlainIff(keep, table, L, cur, first);
    ReinlinedStretches(keep, table, L[cur..first], line, rest);
    StretchesIff(L, cur, first, last, a, NoDecl(L, table, cur, first), b, whole, c);
  }

  lemma OrderedHead(L: seq<string>, keep: set<nat>, mods: seq<Moved>, table: map<string, Moved>, cur: nat)
    requires mods != [] && Ordered(L, keep, mods, cur) && Faithful(mods, table)
    ensures CutFrom(L, keep, mods[0], cur, mods[0].last + 1)
    ensures Fills(table, mods[0])
    ensures Ordered(L, keep, mods[1..], mods[0].last + 1) && Faithful(mods[1..], table)
  {
  }

  lemma OutStep(L: seq<string>, keep: set<nat>, mods: seq<Moved>, table: map<string, Moved>, cur: nat)
    requires mods != [] && Ordered(L, keep, mods, cur)
    ensures cur <= mods[0].first < mods[0].last < |L| && Ordered(L, keep, mods[1..], mods[0].last + 1)
    ensures OutFrom(L, keep, mods, cur) ==
      L[cur..mods[0].first] + [DeclLine(L, mods[0])] + OutFrom(L, keep, mods[1..], mods[0].last + 1)
    ensures Restorable(L, keep, mods, table, cur) <==>
      NoDecl(L, table, cur, mods[0].first) && EndsOpen(L[mods[0].first]) && PutBack(L, keep, table, mods[0])
      && Restorable(L, keep, mods[1..], table, mods[0].last + 1)
  {
  }

  /** Re-inlining `out` gives the lines from `cur` on exactly when `good`, and never fewer. */
  predicate RestoresWhen(L: seq<string>, keep: set<nat>, table: map<string, Moved>, out: seq<string>, cur: nat, good: bool)
    requires cur <= |L|
  {
    |Reinlined(keep, table, out)| >= |L| - cur && (Reinlined(keep, table, out) == L[cur..] <==> good)
  }

  lemma {:induction false} RestoresIff(L: seq<string>, keep: set<nat>, mods: seq<Moved>, table: map<string, Moved>, cur: nat)
    requires Ordered(L, keep, mods, cur) && Faithful(mods, table)
    ensures cur <= |L|
    ensures RestoresWhen(L, keep, table, OutFrom(L, keep, mods, cur), cur, Restorable(L, keep, mods, table, cur))
    decreases |mods|
  {
    hide Faithful, OpenText, PyStrip, NoDecl;
    if mods == [] {
      assert L[cur..] == L[cur..|L|];
      PlainIff(keep, table, L, cur, |L|);
    } else {
      OrderedHead(L, keep, mods, table, cur);
      RestoresIff(L, keep, mods[1..], table, mods[0].last + 1);
      OutStep(L, keep, mods, table, cur);
      ModuleThenRest(L, keep, mods[0], table, cur, OutFrom(L, keep, mods[1..], mods[0].last + 1));
    }
  }

  lemma ReinlinedOne(keep: set<nat>, table: map<string, Moved>, line: string)
    ensures Reinlined(keep, table, [line]) == Expand(keep, table, line)
  {
    assert [line][1..] == [];
  }

  // ---- the condition in terms of the file --------------------------------------------------

  /** Line `i` belongs to no moved module. */
  predicate Outside(mods: seq<Moved>, i: nat) {
    forall k :: 0 <= k < |mods| ==> !(mods[k].first <= i <= mods[k].last)
  }

  predicate OpensAndFills(L: seq<string>, keep: set<nat>, table: map<string, Moved>, m: Moved) {
    m.first < m.last < |L| && EndsOpen(L[m.first]) && PutBack(L, keep, table, m)
  }

  /** The lines between the braces of `m`. */
  function Inner(L: seq<string>, m: Moved): seq<string>
    requires m.first < m.last <= |L|
  {
    L[m.first + 1..m.last]
  }

  /**
   * The opening line of `m` ends with its brace, and the module written last under its name has the
   * same lines, none of them indentation alone.
   */
  predicate EndsWell(L: seq<string>, keep: set<nat>, table: map<string, Moved>, m: Moved) {
    && m.first < m.last < |L| && EndsOpen(L[m.first]) && DeclText(m.name) in table
    && var w := table[DeclText(m.name)];
       w.first < w.last <= |L| && BodyBack(L, keep, w.first + 1, w.last) && Inner(L, w) == Inner(L, m)
  }

  predicate NoStray(L: seq<string>, mods: seq<Moved>, table: map<string, Moved>, cur: nat) {
    forall i: nat :: cur <= i < |L| && Outside(mods, i) ==> PyStrip(L[i]) !in table
  }

  /**
   * Every opening line ends with its brace, modules of one name have the same lines, no de-indented line
   * was indentation alone, and no other line of the file reads like the declaration of a moved module.
   */
  predicate Reversible(L: seq<string>, keep: set<nat>, mods: seq<Moved>) {
    (forall k :: 0 <= k < |mods| ==> EndsWell(L, keep, ByDecl(mods), mods[k])) && NoStray(L, mods, ByDecl(mods), 0)
  }

  lemma {:induction false} OrderedBounds(L: seq<string>, keep: set<nat>, mods: seq<Moved>, cur: nat, k: nat)
    requires Ordered(L, keep, mods, cur) && k < |mods|
    ensures cur <= mods[k].first < mods[k].last < |L|
    decreases |mods|
  {
    if k > 0 {
      OrderedBounds(L, keep, mods[1..], mods[0].last + 1, k - 1);
    }
  }

  lemma OutsideStep(L: seq<string>, keep: set<nat>, mods: seq<Moved>, cur: nat, i: nat)
    requires mods != [] && Ordered(L, keep, mods, cur) && cur <= i < |L|
    ensures Outside(mods, i) <==> i < mods[0].first || (mods[0].last + 1 <= i && Outside(mods[1..], i))
  {
    var rest := mods[1..];
    forall k | 0 <= k < |rest|
      ensures mods[0].last + 1 <= rest[k].first <= rest[k].last && rest[k] == mods[k + 1]
    {
      OrderedBounds(L, keep, rest, mods[0].last + 1, k);
    }
    if i < mods[0].first {
      assert forall k :: 0 < k < |mods| ==> mods[k] == rest[k - 1];
    }
    if Outside(mods, i) {
      assert !(mods[0].first <= i <= mods[0].last);
      forall k | 0 <= k < |rest|
        ensures !(rest[k].first <= i <= rest[k].last)
      {
        assert rest[k] == mods[k + 1];
      }
    }
    if mods[0].last + 1 <= i && Outside(rest, i) {
      forall k | 0 <= k < |mods|
        ensures !(mods[k].first <= i <= mods[k].last)
      {
        if k > 0 {
          assert mods[k] == rest[k - 1];
        }
      }
    }
  }

  lemma NoStrayStep(L: seq<string>, keep: set<nat>, mods: seq<Moved>, table: map<string, Moved>, cur: nat)
    requires mods != [] && Ordered(L, keep, mods, cur)
    ensures NoStray(L, mods, table, cur) <==>
      NoDecl(L, table, cur, mods[0].first) && NoStray(L, mods[1..], table, mods[0].last + 1)
  {
    forall i: nat | cur <= i < |L|
      ensures Outside(mods, i) <==> i < mods[0].first || (mods[0].last + 1 <= i && Outside(mods[1..], i))
    {
      OutsideStep(L, keep, mods, cur, i);
    }
  }

  lemma {:induction false} RestorableIff(L: seq<string>, keep: set<nat>, mods: seq<Moved>, table: map<string, Moved>, cur: nat)
    requires Ordered(L, keep, mods, cur)
    ensures Restorable(L, keep, mods, table, cur) <==>
      (forall k :: 0 <= k < |mods| ==> OpensAndFills(L, keep, table, mods[k])) && NoStray(L, mods, table, cur)
    decreases |mods|
  {
    hide Dedented, PyStrip;
    hide OpenText;
    if mods == [] {
      assert forall i: nat :: Outside(mods, i);
    } else {
      NoStrayStep(L, keep, mods, table, cur);
      RestorableIff(L, keep, mods[1..], table, mods[0].last + 1);
      assert mods == [mods[0]] + mods[1..];
    }
  }

  /** Modules of one name have as many lines; so it is when all names differ. */
  predicate SameLengths(mods: seq<Moved>) {
    forall i, j :: 0 <= i < |mods| && 0 <= j < |mods| && mods[i].name == mods[j].name ==> |mods[i].body| == |mods[j].body|
  }

  lemma DeclInjective(a: string, b: string)
    requires DeclText(a) == DeclText(b)
    ensures a == b
  {
    var x, y := DeclText(a), DeclText(b);
    assert x[4..|x| - 1] == a && y[4..|y| - 1] == b;
  }

  /** A declaration stands for the module written last under its name. */
  lemma {:induction false} Stands(mods: seq<Moved>, i: nat) returns (k: nat)
    requires i < |mods|
    ensures i <= k < |mods| && mods[k].name == mods[i].name
    ensures DeclText(mods[i].name) in ByDecl(mods) && ByDecl(mods)[DeclText(mods[i].name)] == mods[k]
    decreases |mods|
  {
    var n := |mods| - 1;
    if DeclText(mods[i].name) == DeclText(mods[n].name) {
      DeclInjective(mods[i].name, mods[n].name);
      k := n;
    } else {
      assert mods[..n][i] == mods[i];
      k := Stands(mods[..n], i);
    }
  }

  lemma SameLengthsFaithful(mods: seq<Moved>)
    requires SameLengths(mods)
    ensures Faithful(mods, ByDecl(mods))
  {
    forall i | 0 <= i < |mods|
      ensures Fills(ByDecl(mods), mods[i])
    {
      var k := Stands(mods, i);
    }
  }

  lemma {:induction false} OrderedCut(L: seq<string>, keep: set<nat>, mods: seq<Moved>, cur: nat, k: nat)
    requires Ordered(L, keep, mods, cur) && k < |mods|
    ensures mods[k].first < mods[k].last < |L| && Dedented(L, keep, mods[k].first + 1, mods[k].last) == Ok(mods[k].body)
    decreases |mods|
  {
    if k > 0 {
      OrderedCut(L, keep, mods[1..], mods[0].last + 1, k - 1);
    }
  }

  /** The module written last under a name comes back as its own lines unless one of them was indentation alone. */
  lemma LastPutBack(L: seq<string>, keep: set<nat>, w: Moved)
    requires w.first < w.last < |L| && Dedented(L, keep, w.first + 1, w.last) == Ok(w.body)
    ensures Restored(keep, w.body, w.first + 1) == Inner(L, w) <==> BodyBack(L, keep, w.first + 1, w.last)
    ensures |w.body| == |Inner(L, w)|
  {
    BodyRestores(L, keep, w.first + 1, w.last);
  }

  lemma FilledOrSame(L: seq<string>, keep: set<nat>, mods: seq<Moved>, i: nat)
    requires Ordered(L, keep, mods, 0) && i < |mods|
    ensures EndsWell(L, keep, ByDecl(mods), mods[i]) ==> OpensAndFills(L, keep, ByDecl(mods), mods[i])
    ensures (forall k :: 0 <= k < |mods| ==> OpensAndFills(L, keep, ByDecl(mods), mods[k])) ==>
              EndsWell(L, keep, ByDecl(mods), mods[i])
  {
    hide ByDecl, DeclText, Restored, BodyBack, Dedented;
    var k := Stands(mods, i);
    OrderedCut(L, keep, mods, 0, i);
    OrderedCut(L, keep, mods, 0, k);
    LastPutBack(L, keep, mods[k]);
  }

  lemma SameInner(L: seq<string>, keep: set<nat>, table: map<string, Moved>, a: Moved, b: Moved)
    requires EndsWell(L, keep, table, a) && EndsWell(L, keep, table, b) && a.name == b.name
    ensures Inner(L, a) == Inner(L, b)
  {
    hide BodyBack, EndsOpen, DeclText;
  }

  /** Modules of one name whose lines are the same have as many. */
  lemma WellSameLengths(L: seq<string>, keep: set<nat>, mods: seq<Moved>)
    requires Ordered(L, keep, mods, 0)
    requires forall k :: 0 <= k < |mods| ==> EndsWell(L, keep, ByDecl(mods), mods[k])
    ensures SameLengths(mods)
  {
    hide Ordered, EndsWell, ByDecl, Inner, Dedented;
    forall i, j | 0 <= i < |mods| && 0 <= j < |mods| && mods[i].name == mods[j].name
      ensures |mods[i].body| == |mods[j].body|
    {
      OrderedCut(L, keep, mods, 0, i);
      OrderedCut(L, keep, mods, 0, j);
      LastPutBack(L, keep, mods[i]);
      LastPutBack(L, keep, mods[j]);
      SameInner(L, keep, ByDecl(mods), mods[i], mods[j]);
    }
  }

  /**
   * The cut is reversible exactly when re-inlining gives the file back and modules of one name have as
   * many lines. Without the latter, bodies put back in the wrong places can still add up to the file.
   */
  lemma ReinlineIff(L: seq<string>, keep: set<nat>, mods: seq<Moved>)
    requires Ordered(L, keep, mods, 0)
    ensures Reversible(L, keep, mods) <==>
      SameLengths(mods) && Reinlined(keep, ByDecl(mods), OutFrom(L, keep, mods, 0)) == L
  {
    hide SameLengths, EndsWell, OpensAndFills, ByDecl, NoStray;
    forall i | 0 <= i < |mods|
      ensures EndsWell(L, keep, ByDecl(mods), mods[i]) ==> OpensAndFills(L, keep, ByDecl(mods), mods[i])
      ensures (forall k :: 0 <= k < |mods| ==> OpensAndFills(L, keep, ByDecl(mods), mods[k])) ==>
                EndsWell(L, keep, ByDecl(mods), mods[i])
    {
      FilledOrSame(L, keep, mods, i);
    }
    if forall k :: 0 <= k < |mods| ==> EndsWell(L, keep, ByDecl(mods), mods[k]) {
      WellSameLengths(L, keep, mods);
    }
    if SameLengths(mods) {
      SameLengthsFaithful(mods);
      RestoresIff(L, keep, mods, ByDecl(mods), 0);
      RestorableIff(L, keep, mods, ByDecl(mods), 0);
      assert L[0..] == L;
    }
  }

  // ---- the script --------------------------------------------------------------------------

  method DedentBody(L: seq<string>, keep: set<nat>, lo: nat, hi: nat) returns (r: Result<seq<string>, Error>)
    requires lo <= hi <= |L|
    ensures r == Dedented(L, keep, lo, hi)
  {
    var body: seq<string> := [];
    var n := lo;
    OntoNothing(Dedented(L, keep, lo, hi));
    while n < hi
      invariant lo <= n <= hi
      invariant Dedented(L, keep, lo, hi) == Onto(body, Dedented(L, keep, n, hi))
    {
      var line := L[n];
      if Kept(keep, line, n) {
        OntoOnto(body, [line], Dedented(L, keep, n + 1, hi));
        body := body + [line];
      } else if StartsWith(line, "    ") {
        OntoOnto(body, [line[4..]], Dedented(L, keep, n + 1, hi));
        body := body + [line[4..]];
      } else {
        return Err(NotIndented(n + 1));
      }
      n := n + 1;
    }
    assert body + [] == body;
    return Ok(body);
  }

  /** `r` with `xs` in front, when it is a list at all. */
  function Onto<T>(xs: seq<T>, r: Result<seq<T>, Error>): Result<seq<T>, Error> {
    match r case Err(e) => Err(e) case Ok(ys) => Ok(xs + ys)
  }

  lemma OntoNothing<T>(r: Result<seq<T>, Error>)
    ensures Onto([], r) == r
  {
    if r.Ok? {
      assert [] + r.value == r.value;
    }
  }

  lemma OntoOnto<T>(xs: seq<T>, ys: seq<T>, r: Result<seq<T>, Error>)
    ensures Onto(xs + ys, r) == Onto(xs, Onto(ys, r))
  {
    if r.Ok? {
      assert xs + ys + r.value == xs + (ys + r.value);
    }
  }

  function EndOf(mods: seq<Moved>, cur: nat): nat {
    if mods == [] then cur else mods[|mods| - 1].last + 1
  }

  predicate Spans(mods: seq<Moved>, cur: nat, n: nat) {
    if mods == [] then cur <= n
    else cur <= mods[0].first < mods[0].last < n && Spans(mods[1..], mods[0].last + 1, n)
  }

  /** The lines up to the last declaration, for any way to write the declarations. */
  function HeadFrom(L: seq<string>, decl: Moved -> string, mods: seq<Moved>, cur: nat): seq<string>
    requires Spans(mods, cur, |L|)
  {
    if mods == [] then []
    else L[cur..mods[0].first] + [decl(mods[0])] + HeadFrom(L, decl, mods[1..], mods[0].last + 1)
  }

  lemma EndStep(mods: seq<Moved>, cur: nat)
    requires mods != []
    ensures EndOf(mods, cur) == EndOf(mods[1..], mods[0].last + 1)
  {
  }

  lemma HeadCons(L: seq<string>, decl: Moved -> string, m: Moved, rest: seq<Moved>, cur: nat)
    requires cur <= m.first < m.last < |L| && Spans(rest, m.last + 1, |L|)
    ensures Spans([m] + rest, cur, |L|)
    ensures HeadFrom(L, decl, [m] + rest, cur) == L[cur..m.first] + [decl(m)] + HeadFrom(L, decl, rest, m.last + 1)
  {
    assert ([m] + rest)[1..] == rest;
  }

  lemma HeadSnocStep(L: seq<string>, decl: Moved -> string, first: Moved, rest: seq<Moved>, m: Moved, cur: nat)
    requires cur <= first.first < first.last < |L| && Spans(rest, first.last + 1, |L|) && Spans(rest + [m], first.last + 1, |L|)
    requires EndOf(rest, first.last + 1) <= m.first < |L|
    requires HeadFrom(L, decl, rest + [m], first.last + 1) ==
      HeadFrom(L, decl, rest, first.last + 1) + (L[EndOf(rest, first.last + 1)..m.first] + [decl(m)])
    ensures Spans([first] + (rest + [m]), cur, |L|) && Spans([first] + rest, cur, |L|)
    ensures HeadFrom(L, decl, [first] + (rest + [m]), cur) ==
      HeadFrom(L, decl, [first] + rest, cur) + (L[EndOf(rest, first.last + 1)..m.first] + [decl(m)])
  {
    HeadCons(L, decl, first, rest + [m], cur);
    HeadCons(L, decl, first, rest, cur);
    AppendAssoc(L[cur..first.first] + [decl(first)], HeadFrom(L, decl, rest, first.last + 1),
                L[EndOf(rest, first.last + 1)..m.first] + [decl(m)]);
  }

  lemma MovedParts(mods: seq<Moved>, m: Moved)
    requires mods != []
    ensures mods + [m] == [mods[0]] + (mods[1..] + [m]) && mods == [mods[0]] + mods[1..]
  {
  }

  lemma {:induction false} HeadSnoc(L: seq<string>, decl: Moved -> string, mods: seq<Moved>, m: Moved, cur: nat)
    requires Spans(mods, cur, |L|) && EndOf(mods, cur) <= m.first < m.last < |L|
    ensures Spans(mods + [m], cur, |L|)
    ensures HeadFrom(L, decl, mods + [m], cur) ==
      HeadFrom(L, decl, mods, cur) + (L[EndOf(mods, cur)..m.first] + [decl(m)])
    decreases |mods|
  {
    hide HeadFrom;
    if mods == [] {
      HeadNone(L, decl, m, cur);
    } else {
      EndStep(mods, cur);
      HeadSnoc(L, decl, mods[1..], m, mods[0].last + 1);
      HeadSnocStep(L, decl, mods[0], mods[1..], m, cur);
      MovedParts(mods, m);
    }
  }

  lemma HeadNone(L: seq<string>, decl: Moved -> string, m: Moved, cur: nat)
    requires cur <= m.first < m.last < |L|
    ensures Spans([] + [m], cur, |L|) && Spans([], cur, |L|)
    ensures HeadFrom(L, decl, [] + [m], cur) == HeadFrom(L, decl, [], cur) + (L[cur..m.first] + [decl(m)])
  {
    HeadCons(L, decl, m, [], cur);
    assert [] + [m] == [m] + [];
  }

  function DeclsOf(L: seq<string>): Moved -> string {
    (m: Moved) => if m.first < |L| then DeclLine(L, m) else ""
  }

  lemma {:induction false} OutSplits(L: seq<string>, keep: set<nat>, mods: seq<Moved>, cur: nat)
    requires Ordered(L, keep, mods, cur)
    ensures Spans(mods, cur, |L|) && cur <= EndOf(mods, cur) <= |L|
    ensures OutFrom(L, keep, mods, cur) == HeadFrom(L, DeclsOf(L), mods, cur) + L[EndOf(mods, cur)..]
    decreases |mods|
  {
    if mods != [] {
      EndStep(mods, cur);
      OutSplits(L, keep, mods[1..], mods[0].last + 1);
      AppendAssoc(L[cur..mods[0].first] + [DeclLine(L, mods[0])],
                  HeadFrom(L, DeclsOf(L), mods[1..], mods[0].last + 1), L[EndOf(mods, cur)..]);
    }
  }

  /** What one pass of the cutting loop decides about its item. */
  method CutItem(L: seq<string>, keep: set<nat>, it: Item, only: set<string>, taken: set<string>)
    returns (r: Result<Option<Moved>, Error>)
    requires 1 <= it.start <= it.end <= |L|
    ensures r == CutOne(L, keep, it, only, taken)
    ensures r.Ok? ==> (r.value.None? <==> OpensAt(L, it, only).None?)
    ensures r.Ok? && r.value.Some? ==> CutFrom(L, keep, r.value.value, it.start - 1, it.end)
  {
    var o := OpensAt(L, it, only);
    if o.None? {
      return Ok(None);
    }
    if it.name in taken {
      return Err(TargetExists(it.name));
    }
    OpenBeforeClose(L, it, only);
    var body := DedentBody(L, keep, o.value + 1, it.end - 1);
    if body.Err? {
      return Err(body.error);
    }
    return Ok(Some(Moved(it.name, o.value, it.end - 1, body.value)));
  }

  lemma CutItemsStep(L: seq<string>, keep: set<nat>, items: seq<Item>, only: set<string>, taken: set<string>, i: nat)
    requires Inside(items, |L|) && i < |items|
    ensures CutItems(L, keep, items[i..], only, taken) ==
      match CutOne(L, keep, items[i], only, taken)
      case Err(e) => Err(e)
      case Ok(m) => Onto(if m.None? then [] else [m.value], CutItems(L, keep, items[i + 1..], only, taken))
  {
    assert items[i..][0] == items[i] && items[i..][1..] == items[i + 1..];
  }

  lemma ApartStep(L: seq<string>, items: seq<Item>, only: set<string>, cur: nat, i: nat, m: Option<Moved>)
    requires Inside(items, |L|) && i < |items| && Apart(L, items[i..], only, cur)
    requires m.None? <==> OpensAt(L, items[i], only).None?
    ensures Apart(L, items[i + 1..], only, if m.None? then cur else items[i].end)
    ensures m.Some? ==> cur < items[i].start
  {
    assert items[i..][0] == items[i] && items[i..][1..] == items[i + 1..];
  }

  lemma OneMoreMoved(L: seq<string>, moved: seq<Moved>, m: Moved, rest: Result<seq<Moved>, Error>)
    requires Spans(moved, 0, |L|) && EndOf(moved, 0) <= m.first < m.last < |L|
    ensures Spans(moved + [m], 0, |L|) && EndOf(moved + [m], 0) == m.last + 1
    ensures HeadFrom(L, DeclsOf(L), moved + [m], 0) ==
      HeadFrom(L, DeclsOf(L), moved, 0) + (L[EndOf(moved, 0)..m.first] + [DeclLine(L, m)])
    ensures Onto(moved + [m], rest) == Onto(moved, Onto([m], rest))
  {
    HeadSnoc(L, DeclsOf(L), moved, m, 0);
    OntoOnto(moved, [m], rest);
  }

  lemma AllOnto(moved: seq<Moved>)
    ensures Onto(moved, Ok([])) == Ok(moved)
  {
    assert moved + [] == moved;
  }

  /** The state of the cutting loop before item `i`: `cur` is the first line not yet dealt with. */
  ghost predicate Cutting(L: seq<string>, keep: set<nat>, items: seq<Item>, only: set<string>, taken: set<string>, i: nat,
                          out: seq<string>, cur: nat, moved: seq<Moved>)
    requires Inside(items, |L|) && i <= |items|
  {
    && Spans(moved, 0, |L|) && cur == EndOf(moved, 0) <= |L|
    && Apart(L, items[i..], only, cur)
    && out == HeadFrom(L, DeclsOf(L), moved, 0)
    && CutItems(L, keep, items, only, taken) == Onto(moved, CutItems(L, keep, items[i..], only, taken))
  }

  lemma CuttingKeeps(L: seq<string>, keep: set<nat>, items: seq<Item>, only: set<string>, taken: set<string>, i: nat,
                     out: seq<string>, cur: nat, moved: seq<Moved>)
    requires Inside(items, |L|) && i < |items| && Cutting(L, keep, items, only, taken, i, out, cur, moved)
    requires CutOne(L, keep, items[i], only, taken) == Ok(None)
    ensures Cutting(L, keep, items, only, taken, i + 1, out, cur, moved)
  {
    CutItemsStep(L, keep, items, only, taken, i);
    CutOneShape(L, keep, items[i], only, taken);
    ApartStep(L, items, only, cur, i, None);
    OntoNothing(CutItems(L, keep, items[i + 1..], only, taken));
  }

  lemma CutNext(L: seq<string>, keep: set<nat>, items: seq<Item>, only: set<string>, taken: set<string>, i: nat, cur: nat, m: Moved)
    requires Inside(items, |L|) && i < |items| && Apart(L, items[i..], only, cur)
    requires CutOne(L, keep, items[i], only, taken) == Ok(Some(m))
    ensures cur <= m.first < m.last < |L| && Apart(L, items[i + 1..], only, m.last + 1)
  {
    CutOneShape(L, keep, items[i], only, taken);
    ApartStep(L, items, only, cur, i, Some(m));
  }

  lemma CuttingMoves(L: seq<string>, keep: set<nat>, items: seq<Item>, only: set<string>, taken: set<string>, i: nat,
                     out: seq<string>, cur: nat, moved: seq<Moved>, m: Moved)
    requires Inside(items, |L|) && i < |items| && Cutting(L, keep, items, only, taken, i, out, cur, moved)
    requires CutOne(L, keep, items[i], only, taken) == Ok(Some(m))
    ensures cur <= m.first < m.last < |L|
    ensures Cutting(L, keep, items, only, taken, i + 1, out + (L[cur..m.first] + [DeclLine(L, m)]), m.last + 1, moved + [m])
  {
    hide CutOne, CutItems;
    CutNext(L, keep, items, only, taken, i, cur, m);
    CutItemsStep(L, keep, items, only, taken, i);
    OneMoreMoved(L, moved, m, CutItems(L, keep, items[i + 1..], only, taken));
  }

  lemma CuttingFails(L: seq<string>, keep: set<nat>, items: seq<Item>, only: set<string>, taken: set<string>, i: nat,
                     out: seq<string>, cur: nat, moved: seq<Moved>, e: Error)
    requires Inside(items, |L|) && i < |items| && Cutting(L, keep, items, only, taken, i, out, cur, moved)
    requires CutOne(L, keep, items[i], only, taken) == Err(e)
    ensures CutItems(L, keep, items, only, taken) == Err(e)
  {
    CutItemsStep(L, keep, items, only, taken, i);
  }

  lemma CuttingEnds(L: seq<string>, keep: set<nat>, items: seq<Item>, only: set<string>, taken: set<string>,
                    out: seq<string>, cur: nat, moved: seq<Moved>)
    requires Inside(items, |L|) && Cutting(L, keep, items, only, taken, |items|, out, cur, moved)
    ensures CutItems(L, keep, items, only, taken) == Ok(moved)
  {
    AllOnto(moved);
  }

  /** One pass of the cutting loop. */
  method CutPass(L: seq<string>, keep: set<nat>, items: seq<Item>, only: set<string>, taken: set<string>, i: nat,
                 out: seq<string>, cur: nat, moved: seq<Moved>)
    returns (error: Option<Error>, out': seq<string>, cur': nat, moved': seq<Moved>)
    requires Inside(items, |L|) && i < |items| && Cutting(L, keep, items, only, taken, i, out, cur, moved)
    ensures error.Some? ==> CutItems(L, keep, items, only, taken) == Err(error.value)
    ensures error.None? ==> Cutting(L, keep, items, only, taken, i + 1, out', cur', moved')
  {
    hide Cutting, CutItems, CutOne, DeclLine;
    error, out', cur', moved' := None, out, cur, moved;
    var cut := CutItem(L, keep, items[i], only, taken);
    if cut.Err? {
      CuttingFails(L, keep, items, only, taken, i, out, cur, moved, cut.error);
      error := Some(cut.error);
    } else if cut.value.Some? {
      var m := cut.value.value;
      CuttingMoves(L, keep, items, only, taken, i, out, cur, moved, m);
      out' := out + (L[cur..m.first] + [DeclLine(L, m)]);
      cur' := m.last + 1;
      moved' := moved + [m];
    } else {
      CuttingKeeps(L, keep, items, only, taken, i, out, cur, moved);
    }
  }

  method CutLoop(L: seq<string>, keep: set<nat>, items: seq<Item>, only: set<string>, taken: set<string>)
    returns (r: Result<(seq<string>, seq<Moved>), Error>)
    requires Inside(items, |L|) && Apart(L, items, only, 0)
    ensures r.Err? ==> CutItems(L, keep, items, only, taken) == Err(r.error)
    ensures r.Ok? ==> CutItems(L, keep, items, only, taken) == Ok(r.value.1)
    ensures r.Ok? ==> Spans(r.value.1, 0, |L|) && EndOf(r.value.1, 0) <= |L|
    ensures r.Ok? ==> r.value.0 == HeadFrom(L, DeclsOf(L), r.value.1, 0) + L[EndOf(r.value.1, 0)..]
  {
    var out: seq<string>, cur: nat, moved: seq<Moved> := [], 0, [];
    var error: Option<Error> := None;
    CuttingStarts(L, keep, items, only, taken);
    for i := 0 to |items|
      invariant Cutting(L, keep, items, only, taken, i, out, cur, moved)
    {
      error, out, cur, moved := CutPass(L, keep, items, only, taken, i, out, cur, moved);
      if error.Some? {
        return Err(error.value);
      }
    }
    CuttingEnds(L, keep, items, only, taken, out, cur, moved);
    return Ok((out + L[cur..], moved));
  }

  lemma CuttingStarts(L: seq<string>, keep: set<nat>, items: seq<Item>, only: set<string>, taken: set<string>)
    requires Inside(items, |L|) && Apart(L, items, only, 0)
    ensures Cutting(L, keep, items, only, taken, 0, [], 0, [])
  {
    assert items[0..] == items;
    OntoNothing(CutItems(L, keep, items, only, taken));
  }

  method CutModules(L: seq<string>, keep: set<nat>, items: seq<Item>, only: set<string>, taken: set<string>)
    returns (r: Result<(seq<string>, seq<Moved>), Error>)
    requires Inside(items, |L|) && Apart(L, items, only, 0)
    ensures CutItems(L, keep, items, only, taken).Err? ==> r == Err(CutItems(L, keep, items, only, taken).error)
    ensures CutItems(L, keep, items, only, taken) == Ok([]) ==> r == Err(NothingToMove)
    ensures CutItems(L, keep, items, only, taken).Ok? && CutItems(L, keep, items, only, taken).value != [] ==>
      var mods := CutItems(L, keep, items, only, taken).value;
      Ordered(L, keep, mods, 0) && r == Ok((OutFrom(L, keep, mods, 0), mods))
  {
    r := CutLoop(L, keep, items, only, taken);
    if r.Ok? {
      CutOrdered(L, keep, items, only, taken);
      OutSplits(L, keep, r.value.1, 0);
      if r.value.1 == [] {
        return Err(NothingToMove);
      }
    }
  }

  method Reinline(keep: set<nat>, mods: seq<Moved>, lines: seq<string>) returns (chk: seq<string>)
    ensures chk == Reinlined(keep, ByDecl(mods), lines)
  {
    hide ByDecl, PyStrip;
    var byDecl := ByDecl(mods);
    chk := [];
    ghost var whole := Reinlined(keep, byDecl, lines);
    assert lines[0..] == lines;
    for i := 0 to |lines|
      invariant chk + Reinlined(keep, byDecl, lines[i..]) == whole
    {
      var line := lines[i];
      ReinlinedStep(keep, byDecl, lines, i);
      AppendAssoc(chk, Expand(keep, byDecl, line), Reinlined(keep, byDecl, lines[i + 1..]));
      if PyStrip(line) !in byDecl {
        chk := chk + [line];
      } else {
        var m := byDecl[PyStrip(line)];
        var body := RestoreBody(keep, m);
        chk := chk + ([Chop(line) + " {"] + body + ["}"]);
      }
    }
  }

  lemma ReinlinedStep(keep: set<nat>, table: map<string, Moved>, lines: seq<string>, i: nat)
    requires i < |lines|
    ensures Reinlined(keep, table, lines[i..]) == Expand(keep, table, lines[i]) + Reinlined(keep, table, lines[i + 1..])
  {
    assert lines[i..][0] == lines[i] && lines[i..][1..] == lines[i + 1..];
  }

  method RestoreBody(keep: set<nat>, m: Moved) returns (body: seq<string>)
    ensures body == Restored(keep, m.body, m.first + 1)
  {
    body := [];
    assert m.body[0..] == m.body;
    for i := 0 to |m.body|
      invariant body + Restored(keep, m.body[i..], m.first + 1 + i) == Restored(keep, m.body, m.first + 1)
    {
      var b := m.body[i];
      assert m.body[i..][0] == b && m.body[i..][1..] == m.body[i + 1..];
      var line := if Kept(keep, b, m.first + 1 + i) then b else "    " + b;
      assert body + ([line] + Restored(keep, m.body[i + 1..], m.first + 2 + i))
        == body + [line] + Restored(keep, m.body[i + 1..], m.first + 2 + i);
      body := body + [line];
    }
  }

  // ---- from lines to text ------------------------------------------------------------------

  lemma {:induction false} DedentedFeeds(L: seq<string>, keep: set<nat>, lo: nat, hi: nat)
    requires lo <= hi <= |L| && NoFeeds(L) && Dedented(L, keep, lo, hi).Ok?
    ensures NoFeeds(Dedented(L, keep, lo, hi).value)
    decreases hi - lo
  {
    if lo < hi {
      DedentedFeeds(L, keep, lo + 1, hi);
    }
  }

  lemma DeclFeeds(line: string, name: string)
    requires PyStrip(line) == OpenText(name) && '\n' !in line
    ensures '\n' !in Replace(line, OpenText(name), DeclText(name))
  {
    var w, v := StripCuts(line);
    ReplaceOnce(w, v, OpenText(name), DeclText(name));
    var t := OpenText(name);
    assert forall c :: c in w || c in t || c in v ==> c in line;
    assert forall c :: c in name ==> c in t;
  }

  lemma {:induction false} OutFeeds(L: seq<string>, keep: set<nat>, mods: seq<Moved>, cur: nat)
    requires Ordered(L, keep, mods, cur) && NoFeeds(L)
    ensures NoFeeds(OutFrom(L, keep, mods, cur))
    ensures forall k :: 0 <= k < |mods| ==> NoFeeds(mods[k].body)
    decreases |mods|
  {
    hide OpenText, Dedented, PyStrip, DeclText, Replace;
    if mods != [] {
      DeclFeeds(L[mods[0].first], mods[0].name);
      DedentedFeeds(L, keep, mods[0].first + 1, mods[0].last);
      OutFeeds(L, keep, mods[1..], mods[0].last + 1);
      assert mods == [mods[0]] + mods[1..];
    }
  }

  lemma {:induction false} ByDeclFrom(mods: seq<Moved>, line: string) returns (k: nat)
    requires line in ByDecl(mods)
    ensures k < |mods| && ByDecl(mods)[line] == mods[k]
    decreases |mods|
  {
    k := |mods| - 1;
    if DeclText(mods[k].name) != line {
      k := ByDeclFrom(mods[..|mods| - 1], line);
    }
  }

  lemma {:induction false} RestoredFeeds(keep: set<nat>, body: seq<string>, i: nat)
    requires NoFeeds(body)
    ensures NoFeeds(Restored(keep, body, i))
    decreases |body|
  {
    if body != [] {
      RestoredFeeds(keep, body[1..], i + 1);
    }
  }

  lemma {:induction false} ReinlinedFeeds(keep: set<nat>, mods: seq<Moved>, lines: seq<string>)
    requires NoFeeds(lines) && forall k :: 0 <= k < |mods| ==> NoFeeds(mods[k].body)
    ensures NoFeeds(Reinlined(keep, ByDecl(mods), lines))
    decreases |lines|
  {
    hide ByDecl, PyStrip, Restored;
    if lines != [] {
      ReinlinedFeeds(keep, mods, lines[1..]);
      if PyStrip(lines[0]) in ByDecl(mods) {
        var k := ByDeclFrom(mods, PyStrip(lines[0]));
        RestoredFeeds(keep, mods[k].body, mods[k].first + 1);
      }
    }
  }

  lemma JoinEqual(a: seq<string>, b: seq<string>)
    requires NoFeeds(a) && NoFeeds(b) && a != [] && b != []
    ensures Join(a) == Join(b) <==> a == b
  {
    SplitOfJoin(a);
    SplitOfJoin(b);
  }

  /** The modules the script would move out of `text`. */
  function Moves(text: string, keep: set<nat>, items: seq<Item>, only: set<string>, taken: set<string>)
    : Result<seq<Moved>, Error>
    requires Inside(items, |Split(text, '\n')|)
  {
    CutItems(Split(text, '\n'), keep, items, only, taken)
  }

  /**
   * The whole script. A reversible cut passes its closing proof, and where modules of one name have as many
   * lines no other cut does; whenever the proof succeeds, putting the bodies back gives the original text.
   */
  method SplitTests(text: string, keep: set<nat>, items: seq<Item>, only: set<string>, taken: set<string>)
    returns (r: Result<(string, seq<Moved>), Error>)
    requires Inside(items, |Split(text, '\n')|) && Apart(Split(text, '\n'), items, only, 0)
    ensures var L, moves := Split(text, '\n'), Moves(text, keep, items, only, taken);
      && (moves.Err? ==> r == Err(moves.error))
      && (moves == Ok([]) ==> r == Err(NothingToMove))
      && (moves.Ok? && moves.value != [] ==>
            var mods := moves.value;
            && Ordered(L, keep, mods, 0)
            && r == (if Reinlined(keep, ByDecl(mods), OutFrom(L, keep, mods, 0)) == L
                     then Ok((Join(OutFrom(L, keep, mods, 0)), mods)) else Err(CheckFailed))
            && (Reversible(L, keep, mods) <==> SameLengths(mods) && r.Ok?))
    ensures r.Ok? ==> Join(Reinlined(keep, ByDecl(r.value.1), Split(r.value.0, '\n'))) == text
  {
    var L := Split(text, '\n');
    var cut := CutModules(L, keep, items, only, taken);
    if cut.Err? {
      return Err(cut.error);
    }
    var (out, mods) := cut.value;
    var new' := Join(out);
    var chk := Reinline(keep, mods, Split(new', '\n'));
    SplitFeeds(text);
    OutFeeds(L, keep, mods, 0);
    SplitOfJoin(out);
    ReinlinedFeeds(keep, mods, out);
    JoinEqual(chk, L);
    JoinOfSplit(text);
    ReinlineIff(L, keep, mods);
    if Join(chk) != text {
      return Err(CheckFailed);
    }
    return Ok((new', mods));
  }

  /** A blank behind the opening brace is lost: the closing check refuses this cut. */
  lemma TrailingBlankRefused()
    ensures var L, mods := [CFG_TEST, "mod a { ", "}"], [Moved("a", 1, 2, [])];
      Ordered(L, {}, mods, 0) && Reinlined({}, ByDecl(mods), OutFrom(L, {}, mods, 0)) != L
  {
    var L, mods := [CFG_TEST, "mod a { ", "}"], [Moved("a", 1, 2, [])];
    var t := OpenText("a");
    assert t[0] == 'm' && t[|t| - 1] == '{';
    assert [] + t + " " == "mod a { ";
    StripOf([], t, " ");
    assert mods[1..] == [];
    ReinlineIff(L, {}, mods);
    assert L[1][|L[1]| - 1] == ' ';
    assert !EndsWell(L, {}, ByDecl(mods), mods[0]);
  }
}
