/** Reading a `use` item back: parsing undoes printing, and wrapped lines keep to their width. */
module UseTrip {
  import opened Wrappers
  import opened Text
  import opened PyText
  import opened UseItems

  // ---- reading ---------------------------------------------------------------------------

  /** `" ".join(words)` */
  function SpaceJoin(words: seq<string>): string {
    if words == [] then [] else if |words| == 1 then words[0] else words[0] + ([' '] + SpaceJoin(words[1..]))
  }

  /** The stripped pieces that are not empty. */
  function Trimmings(pieces: seq<string>): seq<string> {
    if pieces == [] then []
    else (if PyStrip(pieces[0]) == [] then [] else [PyStrip(pieces[0])]) + Trimmings(pieces[1..])
  }

  /** `[x.strip() for x in body.split(",") if x.strip()]` */
  function NamesIn(body: string): seq<string> {
    Trimmings(Split(body, ','))
  }

  /** `^use ([\w:]+)::\{([\w, ]*)\};$` */
  function MatchList(u: Tables, t: string): Option<(string, seq<string>)> {
    match Find(t, "{")
    case None => None
    case Some(k) =>
      if && 7 <= k && k + 3 <= |t|
         && t[..4] == "use " && AllPath(u, t[4..k - 2]) && t[k - 2..k] == "::"
         && AllList(u, t[k + 1..|t| - 2]) && t[|t| - 2..] == "};"
      then Some((t[4..k - 2], NamesIn(t[k + 1..|t| - 2])))
      else None
  }

  lemma TailSnoc(s: string, j: nat)
    requires s != [] && j < |s|
    ensures s[j..] == s[..|s| - 1][j..] + [s[|s| - 1]]
    ensures j > 0 ==> s[..|s| - 1][j - 1] == s[j - 1]
  {
  }

  /** Where the word at the end of `s` starts. */
  function LastWord(u: Tables, s: string): (j: nat)
    ensures j <= |s| && AllWord(u, s[j..]) && (j > 0 ==> !Word(u, s[j - 1]))
    decreases |s|
  {
    if s == [] || !Word(u, s[|s| - 1]) then |s|
    else
      var j := LastWord(u, s[..|s| - 1]);
      TailSnoc(s, j);
      j
  }

  /** What stands between `use ` and the final semicolon. */
  function Inner(t: string): Option<string> {
    if |t| >= 5 && t[..4] == "use " && t[|t| - 1] == ';' then Some(t[4..|t| - 1]) else None
  }

  /** `^use ([\w:]+)::(\w+);$` */
  function MatchPath(u: Tables, t: string): Option<(string, seq<string>)> {
    match Inner(t)
    case None => None
    case Some(s) =>
      var j := LastWord(u, s);
      if 3 <= j < |s| && s[j - 2..j] == "::" && AllPath(u, s[..j - 2]) then Some((s[..j - 2], [s[j..]])) else None
  }

  /** `^use (\w+);$` */
  function MatchName(u: Tables, t: string): Option<seq<string>> {
    match Inner(t)
    case None => None
    case Some(s) => if Name(u, s) then Some([s]) else None
  }

  /** The path and the names of a `use` item, or nothing for any other shape. */
  function ParseUse(u: Tables, text: string): Option<(Option<string>, seq<string>)> {
    var t := SpaceJoin(Words(text));
    match MatchList(u, t)
    case Some((p, ns)) => Some((Some(p), ns))
    case None =>
      match MatchPath(u, t)
      case Some((p, ns)) => Some((Some(p), ns))
      case None =>
        match MatchName(u, t)
        case Some(ns) => Some((None, ns))
        case None => None
  }

  // ---- names in a list ---------------------------------------------------------------------

  lemma NameStrips(u: Tables, n: string)
    requires Name(u, n)
    ensures PyStrip(n) == n && PyStrip(" " + n) == n && ',' !in n
  {
    assert [] + n + [] == n && " " + n + [] == " " + n;
    StripOf([], n, []);
    StripOf(" ", n, []);
  }

  lemma NameThenNames(u: Tables, lead: string, n: string, rest: string)
    requires Name(u, n) && (lead == [] || lead == " ")
    ensures NamesIn(lead + n + ([','] + rest)) == [n] + NamesIn(rest)
  {
    NameStrips(u, n);
    SplitAfter(lead + n, ',', rest);
    assert [] + n == n;
  }

  lemma SpaceThenNames(s: string)
    ensures NamesIn(" " + s) == NamesIn(s)
  {
    var r := Split(s, ',');
    assert (" " + s)[0] == ' ' && (" " + s)[1..] == s;
    assert Split(" " + s, ',') == [[' '] + r[0]] + r[1..];
    assert ([' '] + r[0])[1..] == r[0];
    assert r == [r[0]] + r[1..];
  }

  lemma OneName(u: Tables, n: string)
    requires Name(u, n)
    ensures NamesIn(n) == [n]
  {
    NameStrips(u, n);
    SplitFlat(n, ',');
    var tail := [n][1..];
    assert tail == [];
    assert Trimmings([n]) == [n] + Trimmings(tail);
  }

  lemma {:induction false} NamesOfList(u: Tables, ns: seq<string>)
    requires Names(u, ns)
    ensures NamesIn(ListText(ns)) == ns
  {
    if ns == [] {
      assert Trimmings([[]]) == [];
    } else if |ns| == 1 {
      OneName(u, ns[0]);
      assert ns == [ns[0]];
    } else {
      NamesOfList(u, ns[1..]);
      NameThenNames(u, [], ns[0], " " + ListText(ns[1..]));
      SpaceThenNames(ListText(ns[1..]));
      assert [] + ns[0] == ns[0];
      assert ns == [ns[0]] + ns[1..];
    }
  }

  /** The list as it reads when the lines of a wrapped item are joined. */
  function JoinedCells(ns: seq<string>): string {
    if ns == [] then " " else " " + ns[0] + ([','] + JoinedCells(ns[1..]))
  }

  lemma {:induction false} NamesOfCells(u: Tables, ns: seq<string>)
    requires Names(u, ns)
    ensures NamesIn(JoinedCells(ns)) == ns
  {
    if ns == [] {
      assert Split(" ", ',') == [" "] by { SplitFlat(" ", ','); }
      assert PyStrip(" ") == [];
    } else {
      NamesOfCells(u, ns[1..]);
      NameThenNames(u, " ", ns[0], JoinedCells(ns[1..]));
      assert ns == [ns[0]] + ns[1..];
    }
  }

  // ---- matching what was printed -------------------------------------------------------------

  lemma FindBrace(a: string, b: string)
    requires '{' !in a
    ensures Find(a + ("{" + b), "{") == Some(|a|)
  {
    var s := a + ("{" + b);
    assert At(s, "{", |a|) by {
      assert s[|a|..|a| + 1] == "{";
    }
    forall j: nat | j < |a|
      ensures !At(s, "{", j)
    {
      assert s[j..j + 1][0] == a[j];
    }
  }

  lemma ListMatches(u: Tables, p: string, body: string)
    requires Prefix(u, p) && AllList(u, body)
    ensures MatchList(u, UseList(p, body)) == Some((p, NamesIn(body)))
  {
    var t := UseList(p, body);
    var a := "use " + (p + "::");
    HeadParts(p);
    BraceSpelling(p, body);
    FindBrace(a, body + "};");
    BraceParts(a, body);
    assert t[..4] == a[..4] && t[4..|a| - 2] == a[4..|a| - 2] && t[|a| - 2..|a|] == a[|a| - 2..];
  }

  lemma HeadParts(p: string)
    ensures var a := "use " + (p + "::"); a[..4] == "use " && a[4..|a| - 2] == p && a[|a| - 2..] == "::"
  {
  }

  lemma BraceSpelling(p: string, body: string)
    ensures UseList(p, body) == "use " + (p + "::") + ("{" + (body + "};"))
  {
    ConcatAssoc("use ", p + "::", "{" + (body + "};"));
    ConcatAssoc(p, "::", "{" + (body + "};"));
    ConcatAssoc("::", "{", body + "};");
    assert "::" + "{" == "::{";
  }

  lemma BraceParts(a: string, body: string)
    ensures var t := a + ("{" + (body + "};")); t[|a| + 1..|t| - 2] == body && t[|t| - 2..] == "};"
  {
  }

  lemma BraceAt(t: string, k: nat)
    requires At(t, "{", k)
    ensures '{' in t
  {
    assert t[k..k + 1][0] == t[k];
  }

  lemma NoBrace(u: Tables, t: string)
    requires '{' !in t
    ensures MatchList(u, t).None?
  {
    if Find(t, "{").Some? {
      BraceAt(t, Find(t, "{").value);
    }
  }

  lemma InnerOf(s: string)
    ensures Inner("use " + (s + ";")) == Some(s)
  {
    var t := "use " + (s + ";");
    assert t[..4] == "use " && t[4..|t| - 1] == s;
  }

  lemma {:induction false} LastWordOf(u: Tables, a: string, n: string)
    requires AllWord(u, n) && a != [] && !Word(u, a[|a| - 1])
    ensures LastWord(u, a + n) == |a|
    decreases |n|
  {
    var s := a + n;
    if n == [] {
      assert s == a;
    } else {
      assert s[..|s| - 1] == a + n[..|n| - 1];
      LastWordOf(u, a, n[..|n| - 1]);
    }
  }

  lemma PathMatches(u: Tables, p: string, n: string)
    requires Prefix(u, p) && Name(u, n)
    ensures MatchPath(u, UseName(p, n)) == Some((p, [n])) && '{' !in UseName(p, n)
  {
    hide LastWord;
    var s := (p + "::") + n;
    assert UseName(p, n) == "use " + (s + ";");
    InnerOf(s);
    LastWordOf(u, p + "::", n);
    var j := |p| + 2;
    assert s[j - 2..j] == "::" && s[..j - 2] == p && s[j..] == n;
  }

  // ---- white space -------------------------------------------------------------------------

  /** Words with one space between each two. */
  predicate Tidy(s: string) {
    && s != [] && !PyWhite(s[0]) && !PyWhite(s[|s| - 1])
    && forall i :: 0 <= i < |s| - 1 && PyWhite(s[i]) ==> s[i] == ' ' && !PyWhite(s[i + 1])
  }

  lemma {:induction false} TidyNormal(s: string)
    requires Tidy(s)
    ensures Words(s) != [] && SpaceJoin(Words(s)) == s
    decreases |s|
  {
    var n := RunLength(s);
    assert n > 0;
    if n == |s| {
      assert s[..n] == s && s[n..] == [];
    } else {
      assert s[n] == ' ' && s[n..][1..] == s[n + 1..];
      TidyTail(s, n + 1);
      TidyNormal(s[n + 1..]);
      CutAt(s, n);
    }
  }

  lemma CutAt(s: string, n: nat)
    requires n < |s|
    ensures s == s[..n] + ([s[n]] + s[n + 1..])
  {
  }

  lemma TidyTail(s: string, k: nat)
    requires Tidy(s) && k < |s| && !PyWhite(s[k])
    ensures Tidy(s[k..])
  {
    var u := s[k..];
    assert u[0] == s[k] && u[|u| - 1] == s[|s| - 1];
    forall i | 0 <= i < |u| - 1 && PyWhite(u[i])
      ensures u[i] == ' ' && !PyWhite(u[i + 1])
    {
      assert u[i] == s[k + i] && u[i + 1] == s[k + i + 1];
    }
  }

  lemma TidyConcat(a: string, b: string)
    requires Tidy(a) && Tidy(b)
    ensures Tidy(a + b)
  {
    var s := a + b;
    assert s[0] == a[0] && s[|s| - 1] == b[|b| - 1];
    forall i | 0 <= i < |s| - 1 && PyWhite(s[i])
      ensures s[i] == ' ' && !PyWhite(s[i + 1])
    {
      if i < |a| {
        assert s[i] == a[i];
      } else {
        assert s[i] == b[i - |a|] && s[i + 1] == b[i + 1 - |a|];
      }
    }
  }

  lemma TidySpaced(a: string, b: string)
    requires Tidy(a) && Tidy(b)
    ensures Tidy(a + (" " + b))
  {
    var s := a + (" " + b);
    assert s[0] == a[0] && s[|s| - 1] == b[|b| - 1] && s[|a|] == ' ';
    forall i | 0 <= i < |s| - 1 && PyWhite(s[i])
      ensures s[i] == ' ' && !PyWhite(s[i + 1])
    {
      if i < |a| {
        assert s[i] == a[i];
      } else if i == |a| {
        assert s[i + 1] == b[0];
      } else {
        assert s[i] == b[i - |a| - 1] && s[i + 1] == b[i - |a|];
      }
    }
  }

  /** One word is tidy. */
  lemma WordTidy(w: string)
    requires Unbroken(w)
    ensures Tidy(w)
  {
  }

  lemma {:induction false} ListTidy(u: Tables, ns: seq<string>)
    requires ns != [] && Names(u, ns)
    ensures Tidy(ListText(ns))
  {
    WordTidy(ns[0]);
    if |ns| > 1 {
      ListTidy(u, ns[1..]);
      WordTidy(",");
      TidySpaced(",", ListText(ns[1..]));
      TidyConcat(ns[0], "," + (" " + ListText(ns[1..])));
    }
  }

  lemma {:induction false} ListChars(u: Tables, ns: seq<string>)
    requires Names(u, ns)
    ensures AllList(u, ListText(ns)) && AllList(u, JoinedCells(ns))
  {
    if ns != [] {
      ListChars(u, ns[1..]);
    }
  }

  lemma UseNormal(rest: string)
    requires Tidy(rest)
    ensures SpaceJoin(Words("use " + rest)) == "use " + rest
  {
    WordTidy("use");
    TidySpaced("use", rest);
    assert "use" + (" " + rest) == "use " + rest;
    TidyNormal("use " + rest);
  }

  lemma ListNormal(u: Tables, p: string, ns: seq<string>)
    requires Prefix(u, p) && Names(u, ns)
    ensures SpaceJoin(Words(UseList(p, ListText(ns)))) == UseList(p, ListText(ns))
  {
    var head := p + "::{";
    WordTidy(head);
    WordTidy("};");
    if ns == [] {
      assert ListText(ns) + "};" == "};";
    } else {
      ListTidy(u, ns);
      TidyConcat(ListText(ns), "};");
    }
    TidyConcat(head, ListText(ns) + "};");
    ConcatAssoc(p, "::{", ListText(ns) + "};");
    UseNormal(p + ("::{" + (ListText(ns) + "};")));
  }

  lemma NameNormal(u: Tables, p: string, n: string)
    requires Prefix(u, p) && Name(u, n)
    ensures SpaceJoin(Words(UseName(p, n))) == UseName(p, n)
  {
    WordTidy(p + ("::" + (n + ";")));
    UseNormal(p + ("::" + (n + ";")));
  }

  lemma SelfNormal(u: Tables, p: string)
    requires Prefix(u, p)
    ensures SpaceJoin(Words(UseSelf(p))) == UseSelf(p) && '{' !in UseSelf(p)
  {
    WordTidy(p + ";");
    UseNormal(p + ";");
  }

  // ---- the wrapped form ----------------------------------------------------------------------

  function WithCommas(ns: seq<string>): (r: seq<string>)
    ensures |r| == |ns| && forall i :: 0 <= i < |ns| ==> r[i] == ns[i] + ","
  {
    seq(|ns|, i requires 0 <= i < |ns| => ns[i] + ",")
  }

  lemma CommasSnoc(ns: seq<string>)
    requires ns != []
    ensures WithCommas(ns) == WithCommas(ns[..|ns| - 1]) + [ns[|ns| - 1] + ","]
  {
  }

  lemma CommasAppend(a: seq<string>, b: seq<string>)
    ensures WithCommas(a + b) == WithCommas(a) + WithCommas(b)
  {
  }

  /** `s` starts with white space. */
  predicate Gap(s: string) {
    s != [] && PyWhite(s[0])
  }

  lemma CellThenWords(u: Tables, n: string, rest: string)
    requires Name(u, n) && Gap(rest)
    ensures Words(" " + (n + ",") + rest) == [n + ","] + Words(rest) && Gap(" " + (n + ",") + rest)
  {
    ConcatAssoc(" ", n + ",", rest);
    BlankThenWords(" ", n + "," + rest);
    WordThenWords(n + ",", rest);
  }

  lemma {:induction false} CellsWords(u: Tables, ns: seq<string>, rest: string)
    requires Names(u, ns) && Gap(rest)
    ensures Words(Cells(ns) + rest) == WithCommas(ns) + Words(rest)
    ensures Gap(Cells(ns) + rest)
    decreases |ns|
  {
    if ns == [] {
      assert Cells(ns) + rest == rest;
      assert WithCommas(ns) == [];
    } else {
      var init, n := ns[..|ns| - 1], ns[|ns| - 1];
      var cell := " " + (n + ",");
      CellThenWords(u, n, rest);
      CellsWords(u, init, cell + rest);
      ConcatAssoc(Cells(init), cell, rest);
      CommasSnoc(ns);
      AppendAssoc(WithCommas(init), [n + ","], Words(rest));
    }
  }

  lemma LineWords(u: Tables, ns: seq<string>, rest: string)
    requires Names(u, ns) && Gap(rest)
    ensures Words(LineOf(ns) + rest) == WithCommas(ns) + Words(rest)
    ensures Gap(LineOf(ns) + rest)
  {
    CellsWords(u, ns, rest);
    ConcatAssoc("   ", Cells(ns), rest);
    BlankThenWords("   ", Cells(ns) + rest);
  }

  function Flatten(groups: seq<seq<string>>): seq<string> {
    if groups == [] then [] else groups[0] + Flatten(groups[1..])
  }

  predicate AllNames(u: Tables, groups: seq<seq<string>>) {
    forall i :: 0 <= i < |groups| ==> Names(u, groups[i])
  }

  lemma JoinLines(g: seq<string>, gs: seq<seq<string>>)
    requires gs != []
    ensures Join(LinesOf([g] + gs)) == LineOf(g) + ("\n" + Join(LinesOf(gs)))
  {
    LinesCons(g, gs);
    assert LinesOf([g] + gs)[1..] == LinesOf(gs);
  }

  lemma {:induction false} LinesWords(u: Tables, groups: seq<seq<string>>, rest: string)
    requires groups != [] && AllNames(u, groups) && Gap(rest)
    ensures Words(Join(LinesOf(groups)) + rest) == WithCommas(Flatten(groups)) + Words(rest)
    ensures Gap(Join(LinesOf(groups)) + rest)
    decreases |groups|
  {
    var g, gs := groups[0], groups[1..];
    assert groups == [g] + gs;
    LinesCons(g, gs);
    if gs == [] {
      assert Join(LinesOf(groups)) == LineOf(g);
      assert Flatten(groups) == g;
      LineWords(u, g, rest);
    } else {
      var tail := Join(LinesOf(gs)) + rest;
      LinesWords(u, gs, rest);
      JoinLines(g, gs);
      ConcatAssoc(LineOf(g), "\n" + Join(LinesOf(gs)), rest);
      ConcatAssoc("\n", Join(LinesOf(gs)), rest);
      LineWords(u, g, "\n" + tail);
      BlankThenWords("\n", tail);
      CommasAppend(g, Flatten(gs));
    }
  }

  lemma {:induction false} WrapFlattens(u: Tables, ns: seq<string>, cur: seq<string>, width: nat)
    requires Names(u, ns) && Names(u, cur)
    ensures Wrap(ns, cur, width) != [] && Flatten(Wrap(ns, cur, width)) == cur + ns
    ensures AllNames(u, Wrap(ns, cur, width))
    decreases |ns|
  {
    if ns == [] {
      assert [cur][1..] == [];
    } else {
      assert ns == [ns[0]] + ns[1..];
      if |LineOf(cur)| + |ns[0]| + 2 > width {
        WrapFlattens(u, ns[1..], [ns[0]], width);
        assert Wrap(ns, cur, width)[1..] == Wrap(ns[1..], [ns[0]], width);
      } else {
        WrapFlattens(u, ns[1..], cur + [ns[0]], width);
      }
    }
  }

  lemma {:induction false} CellsJoin(ns: seq<string>)
    ensures JoinedCells(ns) + "};" == [' '] + SpaceJoin(WithCommas(ns) + ["};"])
    decreases |ns|
  {
    var words := WithCommas(ns) + ["};"];
    if ns == [] {
      assert words == ["};"];
    } else {
      CellsJoin(ns[1..]);
      assert words[0] == ns[0] + "," && words[1..] == WithCommas(ns[1..]) + ["};"];
      CellText(ns[0], JoinedCells(ns[1..]), SpaceJoin(words[1..]));
    }
  }

  lemma CellText(n: string, cells: string, joined: string)
    requires cells + "};" == [' '] + joined
    ensures " " + n + ([','] + cells) + "};" == [' '] + (n + "," + ([' '] + joined))
  {
    ConcatAssoc(" " + n, [','] + cells, "};");
    ConcatAssoc([','], cells, "};");
    ConcatAssoc(" ", n, [','] + (cells + "};"));
    ConcatAssoc(n, ",", cells + "};");
  }

  /** The words of `use`, one more word, and what follows on the next line. */
  lemma HeadWords(head: string, body: string)
    requires Unbroken(head)
    ensures Words("use" + (" " + (head + ("\n" + body)))) == ["use"] + ([head] + Words(body))
  {
    WordThenWords("use", " " + (head + ("\n" + body)));
    BlankThenWords(" ", head + ("\n" + body));
    WordThenWords(head, "\n" + body);
    BlankThenWords("\n", body);
  }

  lemma TailWords()
    ensures Words("\n" + "};") == ["};"] && Gap("\n" + "};")
  {
    BlankThenWords("\n", "};");
    WordThenWords("};", []);
    assert "};" + [] == "};";
  }

  lemma BodyWords(u: Tables, groups: seq<seq<string>>)
    requires groups != [] && AllNames(u, groups)
    ensures Words(Join(LinesOf(groups)) + ("\n" + "};")) == WithCommas(Flatten(groups)) + ["};"]
  {
    TailWords();
    LinesWords(u, groups, "\n" + "};");
  }

  lemma WrappedSpelling(p: string, lines: string)
    ensures "use " + (p + ("::{\n" + (lines + "\n};"))) == "use" + (" " + ((p + "::{") + ("\n" + (lines + ("\n" + "};")))))
  {
    ConcatAssoc("use", " ", (p + "::{") + ("\n" + (lines + ("\n" + "};"))));
    ConcatAssoc(p, "::{", "\n" + (lines + ("\n" + "};")));
    ConcatAssoc("::{", "\n", lines + ("\n" + "};"));
    assert "::{" + "\n" == "::{\n" && "\n" + "};" == "\n};" && "use" + " " == "use ";
  }

  /** Joined up again, a wrapped item is the plain list with its commas. */
  lemma WrappedNormal(u: Tables, p: string, ns: seq<string>, width: nat)
    requires Prefix(u, p) && Names(u, ns)
    ensures SpaceJoin(Words(WrappedText(p, ns, width))) == UseList(p, JoinedCells(ns))
  {
    hide WrappedText, Words, SpaceJoin, UseList, JoinedCells, WithCommas;
    WrappedWords(u, p, ns, width);
    HeadSpaced(p, ns);
  }

  lemma WrappedWords(u: Tables, p: string, ns: seq<string>, width: nat)
    requires Prefix(u, p) && Names(u, ns)
    ensures Words(WrappedText(p, ns, width)) == ["use"] + ([p + "::{"] + (WithCommas(ns) + ["};"]))
  {
    hide Wrap, LinesOf, Join, Words, Flatten, WithCommas;
    var groups := Wrap(ns, [], width);
    WrapFlattens(u, ns, [], width);
    assert [] + ns == ns;
    BodyWords(u, groups);
    WrappedSpelling(p, Join(LinesOf(groups)));
    HeadWords(p + "::{", Join(LinesOf(groups)) + ("\n" + "};"));
  }

  lemma HeadSpaced(p: string, ns: seq<string>)
    ensures SpaceJoin(["use"] + ([p + "::{"] + (WithCommas(ns) + ["};"]))) == UseList(p, JoinedCells(ns))
  {
    HeadJoins(p + "::{", WithCommas(ns) + ["};"]);
    CellsJoin(ns);
    ListSpelling(p, JoinedCells(ns));
  }

  lemma ListSpelling(p: string, body: string)
    ensures "use" + ([' '] + ((p + "::{") + (body + "};"))) == UseList(p, body)
  {
    ConcatAssoc("use", [' '], (p + "::{") + (body + "};"));
    ConcatAssoc(p, "::{", body + "};");
    assert "use" + [' '] == "use ";
  }

  lemma HeadJoins(head: string, rest: seq<string>)
    requires rest != []
    ensures SpaceJoin(["use"] + ([head] + rest)) == "use" + ([' '] + (head + ([' '] + SpaceJoin(rest))))
  {
    assert (["use"] + ([head] + rest))[1..] == [head] + rest;
    assert ([head] + rest)[1..] == rest;
  }

  // ---- main results --------------------------------------------------------------------------

  lemma SelfDiffers(u: Tables, p: string)
    requires Prefix(u, p)
    ensures ParseUse(u, UseSelf(p)) != Some((Some(p), ["self"]))
  {
    SelfNormal(u, p);
    NoBrace(u, UseSelf(p));
    InnerOf(p);
    if MatchPath(u, UseSelf(p)).Some? {
      assert |MatchPath(u, UseSelf(p)).value.0| < |p|;
    }
  }

  lemma OneOrdered(u: Tables, names: set<string>)
    requires forall n :: n in names ==> n != []
    ensures InOrder(u, names) == ["self"] <==> names == {"self"}
  {
    var ns := InOrder(u, names);
    if ns == ["self"] {
      assert forall n :: n in names ==> n in ns;
      assert "self" in ns;
    }
    if names == {"self"} {
      assert forall i :: 0 <= i < |ns| ==> ns[i] in ns;
      if |ns| > 1 {
        InOrderKeys(u, names, 0, 1);
      }
      assert "self" in ns;
    }
  }

  /**
   * Reading a printed item gives back its path and its names in order, on one line or wrapped at any
   * width: for every set of names but `{self}`, which is printed as the path alone.
   */
  lemma ParseOfFormat(u: Tables, p: string, names: set<string>, width: nat)
    requires Prefix(u, p) && forall n :: n in names ==> n != [] && AllWord(u, n)
    ensures ParseUse(u, Formatted(u, p, names, width)) == Some((Some(p), InOrder(u, names))) <==> names != {"self"}
  {
    var ns := InOrder(u, names);
    OneOrdered(u, names);
    assert Names(u, ns) by {
      assert forall i :: 0 <= i < |ns| ==> ns[i] in ns;
    }
    if ns == ["self"] {
      SelfDiffers(u, p);
    } else if |ns| == 1 {
      NameParses(u, p, ns[0]);
      assert ns == [ns[0]];
    } else {
      ListParses(u, p, ns);
      WrappedParses(u, p, ns, width);
    }
  }

  lemma NameParses(u: Tables, p: string, n: string)
    requires Prefix(u, p) && Name(u, n)
    ensures ParseUse(u, UseName(p, n)) == Some((Some(p), [n]))
  {
    NameNormal(u, p, n);
    PathMatches(u, p, n);
    NoBrace(u, UseName(p, n));
  }

  lemma ListParses(u: Tables, p: string, ns: seq<string>)
    requires Prefix(u, p) && Names(u, ns)
    ensures ParseUse(u, UseList(p, ListText(ns))) == Some((Some(p), ns))
  {
    ListNormal(u, p, ns);
    ListChars(u, ns);
    ListMatches(u, p, ListText(ns));
    NamesOfList(u, ns);
  }

  lemma WrappedParses(u: Tables, p: string, ns: seq<string>, width: nat)
    requires Prefix(u, p) && Names(u, ns)
    ensures ParseUse(u, WrappedText(p, ns, width)) == Some((Some(p), ns))
  {
    WrappedNormal(u, p, ns, width);
    ListChars(u, ns);
    ListMatches(u, p, JoinedCells(ns));
    NamesOfCells(u, ns);
  }

  /** Printing and reading, as the scripts do one after the other. */
  method FormatAndParse(u: Tables, p: string, names: set<string>, width: nat)
    returns (text: string, r: Option<(Option<string>, seq<string>)>)
    requires Prefix(u, p) && forall n :: n in names ==> n != [] && AllWord(u, n)
    ensures text == Formatted(u, p, names, width) && r == ParseUse(u, text)
    ensures r == Some((Some(p), InOrder(u, names))) <==> names != {"self"}
  {
    text := FmtUse(u, p, names, width);
    r := ParseUse(u, text);
    ParseOfFormat(u, p, names, width);
  }

  /** A group of names whose line keeps to the width, or that cannot be split further. */
  predicate Fits(g: seq<string>, width: nat) {
    |g| <= 1 || |LineOf(g)| <= width
  }

  /** The line of `g` has no room for the first name of `next`. */
  predicate Full(g: seq<string>, next: seq<string>, width: nat) {
    next != [] && |LineOf(g)| + |next[0]| + 2 > width
  }

  predicate Packed(gs: seq<seq<string>>, width: nat) {
    (forall i :: 0 <= i < |gs| ==> Fits(gs[i], width)) && forall i, j :: 0 <= i && j == i + 1 < |gs| ==> Full(gs[i], gs[j], width)
  }

  lemma PackedCons(g: seq<string>, gs: seq<seq<string>>, width: nat)
    requires Fits(g, width) && Packed(gs, width) && (gs != [] ==> Full(g, gs[0], width))
    ensures Packed([g] + gs, width)
  {
    var r := [g] + gs;
    forall i, j | 0 <= i && j == i + 1 < |r|
      ensures Full(r[i], r[j], width)
    {
      if i > 0 {
        assert r[i] == gs[i - 1] && r[j] == gs[j - 1];
        assert Full(gs[i - 1], gs[j - 1], width);
      }
    }
  }

  lemma {:induction false} WrapStartsWith(ns: seq<string>, cur: seq<string>, width: nat)
    requires cur != []
    ensures Wrap(ns, cur, width)[0] != [] && Wrap(ns, cur, width)[0][0] == cur[0]
    decreases |ns|
  {
    if ns != [] && |LineOf(cur)| + |ns[0]| + 2 <= width {
      WrapStartsWith(ns[1..], cur + [ns[0]], width);
    }
  }

  /**
   * Every wrapped line of two or more names keeps to the width, and a line ends only where the next
   * name would not fit; no line after the first is without a name.
   */
  lemma {:induction false} WrapPacks(ns: seq<string>, cur: seq<string>, width: nat)
    requires Fits(cur, width)
    ensures Packed(Wrap(ns, cur, width), width)
    decreases |ns|
  {
    if ns != [] {
      LineSnoc(cur, ns[0]);
      if |LineOf(cur)| + |ns[0]| + 2 > width {
        WrapPacks(ns[1..], [ns[0]], width);
        WrapStartsWith(ns[1..], [ns[0]], width);
        PackedCons(cur, Wrap(ns[1..], [ns[0]], width), width);
      } else {
        WrapPacks(ns[1..], cur + [ns[0]], width);
      }
    }
  }

  lemma {:induction false} FlattenHolds(groups: seq<seq<string>>, i: nat, x: string)
    requires i < |groups| && x in groups[i]
    ensures x in Flatten(groups)
  {
    if i > 0 {
      FlattenHolds(groups[1..], i - 1, x);
    }
  }

  lemma OnlyFirstEmpty(gs: seq<seq<string>>, width: nat, i: nat)
    requires Packed(gs, width) && 0 < i < |gs|
    ensures gs[i] != []
  {
    assert Full(gs[i - 1], gs[i], width);
  }

  /** The lines between the braces: too wide only around one name alone, blank only as the first. */
  lemma WrappedWidth(u: Tables, ns: seq<string>, width: nat, i: nat)
    requires Names(u, ns) && i < |Wrap(ns, [], width)|
    ensures var line := LinesOf(Wrap(ns, [], width))[i];
      || |line| <= width
      || (exists n :: n in ns && line == "   " + (" " + (n + ",")))
      || (i == 0 && line == "   ")
  {
    WrapPacks(ns, [], width);
    WrapFlattens(u, ns, [], width);
    var gs := Wrap(ns, [], width);
    var g := gs[i];
    assert Fits(g, width);
    assert LineOf([]) == "   ";
    if |g| == 1 {
      FlattenHolds(gs, i, g[0]);
      assert [] + ns == ns;
      assert g == [] + [g[0]];
      LineSnoc([], g[0]);
      assert LineOf(g) == "   " + (" " + (g[0] + ","));
    } else if i > 0 {
      OnlyFirstEmpty(gs, width, i);
    }
  }
}
