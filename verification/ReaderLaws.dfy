/**
 What the reader makes of documents that the writer does not write: comments, values spread over several lines
 in every style, tags, nulls, other keys, and each kind of malformed file.
 */
module ReaderLaws {
  import opened Wrappers
  import opened Text
  import opened Scalars
  import opened Baseline
  import opened Writer
  import opened Reader
  import opened FieldTrip
  import opened ScalarTrip
  import opened PlainTrip
  import opened BlockTrip
  import opened RowTrip
  import opened RoundTrip
  import opened VersionGate

  // ---- comments ----------------------------------------------------------------------------------

  lemma CommentStep(rx: Engine, st: State, raw: string)
    requires Trim(raw) == "---" || StartsWith(Trim(raw), "#")
    ensures Step(rx, st, raw) == Ok(st)
  {
    if StartsWith(Trim(raw), "#") {
      assert Trim(raw)[0..1][0] == '#';
    }
  }

  /** A comment line or document marker can stand between any two lines. */
  lemma CommentsTransparent(rx: Engine, a: seq<string>, raw: string, b: seq<string>)
    requires Trim(raw) == "---" || StartsWith(Trim(raw), "#")
    ensures Load(rx, a + ([raw] + b)) == Load(rx, a + b)
  {
    hide Step;
    RunAppend(rx, START, a, [raw] + b);
    RunAppend(rx, START, a, b);
    match Run(rx, START, a)
    case Err(_) =>
    case Ok(st) =>
      CommentStep(rx, st, raw);
      RunCons(rx, st, raw, b);
  }

  // ---- a document with one row ---------------------------------------------------------------------

  /** A row whose file value is spread over `rest`. */
  function OneRow(x: string, rest: seq<string>): seq<string> {
    ["---", "version: 1", "ignored:"] + (["- file: " + x] + (rest + ["  rule: r", "  count: 1"]))
  }

  /** The value that a field's lines read as. */
  function ValueRead(x: string, rest: seq<string>): Tail {
    var (head, kind) := ScalarHead(Trim(x));
    Absorb(HeadTail(head, kind), rest)
  }

  /** What follows the first row's file. */
  function Closing(value: Option<string>): Result<seq<Bucket>, LoadError> {
    match value case None => Err(MissingField(0, File)) case Some(v) => Ok([Bucket(v, "r", None, 1)])
  }

  lemma WordR()
    ensures ScalarHead(Trim("r")) == ("r", Plain) && UnyamlScalar("r") == "r"
    ensures ScalarHead(Trim("1")) == ("1", Plain) && UnyamlScalar("1") == "1"
    ensures StripCr("  rule: r") == "  rule: r" && StripCr("  count: 1") == "  count: 1"
  {
    NoComment("r");
    NoComment("1");
    TrimOfTrimmed("r");
    TrimOfTrimmed("1");
    PlainWord("r");
    PlainWord("1");
  }

  lemma MemberTexts()
    ensures "  rule: r" == "  " + ("rule" + ":") + (" " + "r") && "  count: 1" == "  " + ("count" + ":") + (" " + "1")
  {
  }

  /** The row once its rule and count have been read. */
  function Ended(r: Row): Row {
    SetField(SetField(r, Rule, "r", Plain), Count, "1", Plain)
  }

  lemma EndingRun(rx: Engine, st: State)
    requires InRow(st)
    ensures Run(rx, st, ["  rule: r", "  count: 1"]) == Ok(st.(cur := Some(Ended(st.cur.value))))
  {
    hide Step, ScalarHead, UnyamlScalar, Trim;
    WordR();
    MemberTexts();
    MemberLine(rx, st, "rule", "r");
    var mid := st.(cur := Some(SetField(st.cur.value, Rule, "r", Plain)));
    MemberLine(rx, mid, "count", "1");
    RunCons(rx, st, "  rule: r", ["  count: 1"]);
    RunOne(rx, mid, "  count: 1");
    assert ["  rule: r"] + ["  count: 1"] == ["  rule: r", "  count: 1"];
  }

  lemma EndedBucket(rx: Engine, r: Row)
    requires Message !in r.fields
    ensures IntoBucket(rx, Ended(r)) ==
            match FieldText(r, File) case None => Err(MissingField(r.idx, File)) case Some(v) => Ok(Bucket(v, "r", None, 1))
  {
    hide Trim, ScalarHead;
    WordR();
    OneIsCount();
    assert !IsNull("r");
  }

  lemma OneIsCount()
    ensures ParsePositive("1") == Some(1)
  {
    assert ParseDigits("1") == Some(1);
  }

  predicate NoCr(x: string) {
    x == [] || x[|x| - 1] != '\r'
  }

  /** The reader behind the item line. */
  function Opened(x: string): State {
    var (head, kind) := ScalarHead(Trim(x));
    InRows(VERSION_ONE).(cur := Some(SetField(NewRow(0), File, head, kind)), itemCol := 0, memberCol := 2)
  }

  lemma OpenedBy(rx: Engine, x: string)
    requires NoCr(x)
    ensures Step(rx, InRows(VERSION_ONE), "- file: " + x) == Ok(Opened(x))
  {
    var raw := "- file: " + x;
    assert StripCr(raw) == raw by {
      assert x != [] ==> raw[|raw| - 1] == x[|x| - 1];
    }
    ItemLine(rx, InRows(VERSION_ONE), x);
  }

  lemma HeadOpens(rx: Engine, lines: seq<string>)
    ensures Load(rx, ["---", "version: 1", "ignored:"] + lines) ==
            Ends(rx, Run(rx, InRows(VERSION_ONE), lines))
  {
    IgnoredOpens(rx, START.(version := VERSION_ONE));
    HeadRun(rx, "ignored:", InRows(VERSION_ONE), lines);
  }

  function JustOne(b: Result<Bucket, LoadError>): Result<seq<Bucket>, LoadError> {
    match b case Err(e) => Err(e) case Ok(v) => Ok([v])
  }

  lemma FinishRow(rx: Engine, st: State)
    requires st.version == VERSION_ONE && st.buckets == [] && st.cur.Some?
    ensures Finish(rx, st) == JustOne(IntoBucket(rx, st.cur.value))
  {
    VersionSupported();
    if IntoBucket(rx, st.cur.value).Ok? {
      assert st.buckets + [IntoBucket(rx, st.cur.value).value] == [IntoBucket(rx, st.cur.value).value];
    }
  }

  lemma OneRowLoads(rx: Engine, x: string, rest: seq<string>, r: Row)
    requires NoCr(x) && Run(rx, Opened(x), rest) == Ok(Opened(x).(cur := Some(r)))
    requires !r.quoteOpen && Message !in r.fields && r.idx == 0
    ensures Load(rx, OneRow(x, rest)) == Closing(FieldText(r, File))
  {
    hide Step, Run, Finish, IntoBucket, Opened, FieldText, Ended;
    var lines := rest + ["  rule: r", "  count: 1"];
    var item := "- file: " + x;
    var st := Opened(x).(cur := Some(r));
    assert st.buckets == [] && st.version == VERSION_ONE && InRow(st) by { OpenedShape(x); }
    HeadOpens(rx, [item] + lines);
    OpenedBy(rx, x);
    RunCons(rx, InRows(VERSION_ONE), item, lines);
    RunAppend(rx, Opened(x), rest, ["  rule: r", "  count: 1"]);
    EndingRun(rx, st);
    FinishRow(rx, st.(cur := Some(Ended(r))));
    EndedBucket(rx, r);
  }

  lemma OpenedShape(x: string)
    ensures var st := Opened(x);
            st.buckets == [] && st.version == VERSION_ONE && st.inIgnored && st.itemCol == 0 && st.memberCol == 2
  {
  }

  /** A row whose file is one field over lines that can only continue it. */
  lemma FieldLoads(rx: Engine, x: string, rest: seq<string>)
    requires NoCr(x) && ScalarHead(Trim(x)).0 != [] && !ValueRead(x, rest).open
    requires forall i :: 0 <= i < |rest| ==> Hangs(rest[i])
    ensures Load(rx, OneRow(x, rest)) == Closing(NonNull(ValueRead(x, rest).fv))
  {
    hide Absorb, ScalarHead, Trim, AbsorbLine;
    var (head, kind) := ScalarHead(Trim(x));
    var t := HeadTail(head, kind);
    var r := WithTail(NewRow(0), File, ValueRead(x, rest));
    HangLines(rx, Opened(x), NewRow(0), File, t, rest);
    OneRowLoads(rx, x, rest, r);
  }

  // ---- values over several lines ----------------------------------------------------------------------

  /** A continuation: blank lines, then a text on a line of its own. */
  datatype Piece = Piece(blanks: nat, text: string)

  function Lay(ps: seq<Piece>): seq<string> {
    if ps == [] then []
    else Lay(ps[..|ps| - 1]) + (Blanks(ps[|ps| - 1].blanks) + ["    " + ps[|ps| - 1].text])
  }

  /** A line break reads as one space, and blank lines as a line feed each. */
  function Gap(blanks: nat): string {
    if blanks == 0 then " " else Replicate('\n', blanks)
  }

  function Folded(ps: seq<Piece>): string {
    if ps == [] then [] else Folded(ps[..|ps| - 1]) + (Gap(ps[|ps| - 1].blanks) + ps[|ps| - 1].text)
  }

  predicate AllVisible(ps: seq<Piece>) {
    forall i :: 0 <= i < |ps| ==> PieceSurvives(ps[i].text)
  }

  lemma {:induction false} LayHangs(ps: seq<Piece>)
    ensures forall i :: 0 <= i < |Lay(ps)| ==> Hangs(Lay(ps)[i])
  {
    if ps != [] {
      LayHangs(ps[..|ps| - 1]);
      assert ("    " + ps[|ps| - 1].text)[..4] == Spaces(4);
    }
  }

  lemma {:induction false} AbsorbConcat(t: Tail, a: seq<string>, b: seq<string>)
    ensures Absorb(t, a + b) == Absorb(Absorb(t, a), b)
    decreases |b|
  {
    if b == [] {
      assert a + b == a;
    } else {
      AbsorbConcat(t, a, b[..|b| - 1]);
      assert (a + b)[..|a + b| - 1] == a + b[..|b| - 1];
    }
  }

  lemma {:induction false} AbsorbBlanks(t: Tail, n: nat)
    ensures Absorb(t, Blanks(n)) == t.(pending := t.pending + n)
  {
    if n > 0 {
      AbsorbBlanks(t, n - 1);
      assert Blanks(n)[..n - 1] == Blanks(n - 1);
      TrimOfTrimmed([]);
    }
  }

  /** The next break of the value is not escaped. */
  predicate Breakable(fv: FieldVal) {
    !fv.kind.Block? && (fv.kind.DoubleQuoted? ==> TrailingBackslashes(TrimEnd(fv.raw)) % 2 == 0)
  }

  lemma LineAbsorbed(t: Tail, text: string)
    requires Breakable(t.fv) && PieceSurvives(text)
    ensures var fv := t.fv.(raw := t.fv.raw + (Gap(t.pending) + text));
            AbsorbLine(t, "    " + text) == Tail(fv, t.open && !Closes(fv), 0)
  {
    hide TrimEnd, TrailingBackslashes, Closes;
    TrimPrefix("    ", text);
    TrimOfTrimmed(text);
    ConcatAssoc(t.fv.raw, Gap(t.pending), text);
  }

  /** One continuation of a plain or quoted value. */
  lemma PieceAbsorbed(t: Tail, p: Piece)
    requires t.pending == 0 && Breakable(t.fv) && PieceSurvives(p.text)
    ensures var fv := t.fv.(raw := t.fv.raw + (Gap(p.blanks) + p.text));
            Absorb(t, Blanks(p.blanks) + ["    " + p.text]) == Tail(fv, t.open && !Closes(fv), 0)
  {
    hide AbsorbLine, Closes, Breakable, PieceSurvives;
    var line := "    " + p.text;
    AbsorbConcat(t, Blanks(p.blanks), [line]);
    AbsorbBlanks(t, p.blanks);
    var mid := t.(pending := p.blanks);
    assert [line][..0] == [];
    assert Absorb(mid, [line]) == AbsorbLine(mid, line);
    LineAbsorbed(mid, p.text);
  }

  lemma {:induction false} PiecesAbsorbed(raw: string, ps: seq<Piece>)
    requires AllVisible(ps)
    ensures Absorb(HeadTail(raw, Plain), Lay(ps)) == HeadTail(raw + Folded(ps), Plain)
  {
    if ps == [] {
      assert raw + Folded(ps) == raw;
    } else {
      var front, last := ps[..|ps| - 1], ps[|ps| - 1];
      PiecesAbsorbed(raw, front);
      AbsorbConcat(HeadTail(raw, Plain), Lay(front), Blanks(last.blanks) + ["    " + last.text]);
      PieceAbsorbed(HeadTail(raw + Folded(front), Plain), last);
      ConcatAssoc(raw, Folded(front), Gap(last.blanks) + last.text);
    }
  }

  lemma FoldedEnds(w: string, ps: seq<Piece>)
    requires PlainValue(w) && AllVisible(ps)
    ensures var v := w + Folded(ps); v[0] == w[0] && Trimmed(v)
  {
    if ps != [] {
      var last := ps[|ps| - 1];
      assert (w + Folded(ps))[|w + Folded(ps)| - 1] == last.text[|last.text| - 1];
    }
  }

  /** A plain value folded over any number of lines, with any blank lines between them. */
  lemma PlainFoldLoads(rx: Engine, w: string, ps: seq<Piece>)
    requires PlainValue(w) && AllVisible(ps) && !IsNull(w + Folded(ps))
    ensures Load(rx, OneRow(w, Lay(ps))) == Ok([Bucket(w + Folded(ps), "r", None, 1)])
  {
    hide Lay, Absorb, HeadTail;
    var v := w + Folded(ps);
    PlainWord(w);
    TrimOfTrimmed(w);
    FoldedEnds(w, ps);
    TrimOfTrimmed(v);
    PiecesAbsorbed(w, ps);
    LayHangs(ps);
    PlainRead(v);
    FieldLoads(rx, w, Lay(ps));
  }

  lemma PlainRead(v: string)
    requires v != [] && Trimmed(v) && v[0] != '"' && v[0] != '\'' && !IsNull(v)
    ensures NonNull(HeadTail(v, Plain).fv) == Some(v) && !HeadTail(v, Plain).open
  {
    TrimOfTrimmed(v);
  }

  // ---- quoted values over several lines ------------------------------------------------------------------

  /** The pieces in their quoted spelling. */
  function Spelled(spell: string -> string, ps: seq<Piece>): (r: seq<Piece>)
    ensures |r| == |ps| && forall i :: 0 <= i < |r| ==> r[i] == Piece(ps[i].blanks, spell(ps[i].text))
  {
    seq(|ps|, i requires 0 <= i < |ps| => Piece(ps[i].blanks, spell(ps[i].text)))
  }

  lemma SpelledSnoc(spell: string -> string, ps: seq<Piece>)
    requires ps != []
    ensures Spelled(spell, ps)[..|ps| - 1] == Spelled(spell, ps[..|ps| - 1])
  {
  }

  /** As long as the quote stays open, every line is taken in whatever it looks like. */
  lemma {:induction false} QuotedAbsorbed(raw: string, kind: ScalarKind, qs: seq<Piece>)
    requires kind.DoubleQuoted? || kind.SingleQuoted?
    requires AllVisible(qs)
    requires forall n :: 0 <= n < |qs| ==>
               LeavesOpen(raw + Folded(qs[..n]), kind) && Breakable(FieldVal(raw + Folded(qs[..n]), kind, [], None))
    ensures Absorb(HeadTail(raw, kind), Lay(qs)) == HeadTail(raw + Folded(qs), kind)
  {
    hide LeavesOpen, Breakable;
    if qs == [] {
      assert raw + Folded(qs) == raw;
    } else {
      var front, last := qs[..|qs| - 1], qs[|qs| - 1];
      assert forall n :: 0 <= n < |front| ==> front[..n] == qs[..n];
      QuotedAbsorbed(raw, kind, front);
      var t := HeadTail(raw + Folded(front), kind);
      AbsorbConcat(HeadTail(raw, kind), Lay(front), Blanks(last.blanks) + ["    " + last.text]);
      assert qs[..|qs| - 1] == front;
      PieceAbsorbed(t, last);
      ConcatAssoc(raw, Folded(front), Gap(last.blanks) + last.text);
      OpenUnlessCloses(raw + Folded(qs), kind);
    }
  }

  lemma OpenUnlessCloses(raw: string, kind: ScalarKind)
    requires kind.DoubleQuoted? || kind.SingleQuoted?
    ensures LeavesOpen(raw, kind) <==> !Closes(FieldVal(raw, kind, [], None))
  {
  }

  lemma {:induction false} DoubledConcat(a: string, b: string)
    ensures Doubled(a + b) == Doubled(a) + Doubled(b)
  {
    if a == [] {
      assert a + b == b;
    } else {
      assert (a + b)[1..] == a[1..] + b;
      DoubledConcat(a[1..], b);
      ConcatAssoc(if a[0] == '\'' then "''" else [a[0]], Doubled(a[1..]), Doubled(b));
    }
  }

  lemma {:induction false} DoubledPlain(s: string)
    requires '\'' !in s
    ensures Doubled(s) == s
  {
    if s != [] {
      assert s == [s[0]] + s[1..];
      assert s[0] != '\'' && '\'' !in s[1..];
      DoubledPlain(s[1..]);
      assert Doubled(s) == [s[0]] + Doubled(s[1..]);
    }
  }

  lemma {:induction false} FoldedDoubled(ps: seq<Piece>)
    ensures Folded(Spelled(Doubled, ps)) == Doubled(Folded(ps))
  {
    if ps != [] {
      var front, last := ps[..|ps| - 1], ps[|ps| - 1];
      FoldedDoubled(front);
      SpelledSnoc(Doubled, ps);
      DoubledConcat(Folded(front), Gap(last.blanks) + last.text);
      DoubledConcat(Gap(last.blanks), last.text);
      DoubledPlain(Gap(last.blanks));
    }
  }

  lemma FoldedSnoc(qs: seq<Piece>, q: Piece)
    ensures Folded(qs + [q]) == Folded(qs) + (Gap(q.blanks) + q.text)
  {
    assert (qs + [q])[..|qs|] == qs;
  }

  /** The lines of a quoted value behind its first one; the last of them closes the quote. */
  function QuotedRest(spell: string -> string, quote: string, ps: seq<Piece>, last: Piece): (r: seq<Piece>)
    ensures |r| == |ps| + 1
  {
    Spelled(spell, ps) + [Piece(last.blanks, spell(last.text) + quote)]
  }

  lemma QuotedRestPrefix(spell: string -> string, quote: string, ps: seq<Piece>, last: Piece, n: nat)
    requires n <= |ps|
    ensures QuotedRest(spell, quote, ps, last)[..n] == Spelled(spell, ps[..n])
  {
  }

  /** A single-quoted value over any number of lines, whatever they look like, with any blank lines between them. */
  lemma SingleFoldLoads(rx: Engine, first: string, ps: seq<Piece>, last: Piece)
    requires first == [] || !IsWhite(first[|first| - 1])
    requires AllVisible(QuotedRest(Doubled, "'", ps, last))
    ensures Load(rx, OneRow("'" + Doubled(first), Lay(QuotedRest(Doubled, "'", ps, last)))) ==
            Ok([Bucket(first + Folded(ps + [last]), "r", None, 1)])
  {
    hide Lay, Absorb, LeavesOpen, Breakable, AllVisible, QuotedRest, Spelled, SqClosed, Trim, NonNull, Doubled, Folded, IsWhite;
    var x, qs, v := "'" + Doubled(first), QuotedRest(Doubled, "'", ps, last), first + Folded(ps + [last]);
    OpenHead(first);
    DoubledEnds(first);
    TrimOfTrimmed(x);
    forall n | 0 <= n < |qs|
      ensures LeavesOpen(x + Folded(qs[..n]), SingleQuoted) && Breakable(FieldVal(x + Folded(qs[..n]), SingleQuoted, [], None))
    {
      SingleStaysOpen(first, ps, last, n);
    }
    QuotedAbsorbed(x, SingleQuoted, qs);
    SingleWhole(first, ps, last);
    SingleHeadTail(v);
    LayHangs(qs);
    FieldLoads(rx, x, Lay(qs));
  }

  lemma DoubledEnds(s: string)
    requires s == [] || !IsWhite(s[|s| - 1])
    ensures Trimmed("'" + Doubled(s)) && NoCr("'" + Doubled(s))
  {
    if s == [] {
      assert Doubled(s) == [];
    } else {
      DoubledLast(s);
      EndsQuoted("'", Doubled(s));
    }
  }

  lemma DoubledLast(s: string)
    requires s != []
    ensures Doubled(s) != [] && Doubled(s)[|Doubled(s)| - 1] == s[|s| - 1]
  {
    var f, c := s[..|s| - 1], s[|s| - 1];
    assert s == f + [c];
    DoubledSnoc(f, c);
    DoubledOne(c);
  }

  lemma EndsQuoted(quote: string, d: string)
    requires quote == "'" || quote == "\""
    requires d != [] && !IsWhite(d[|d| - 1])
    ensures Trimmed(quote + d) && NoCr(quote + d)
  {
    assert (quote + d)[|quote + d| - 1] == d[|d| - 1];
  }

  lemma SingleStaysOpen(first: string, ps: seq<Piece>, last: Piece, n: nat)
    requires n <= |ps|
    ensures var raw := "'" + Doubled(first) + Folded(QuotedRest(Doubled, "'", ps, last)[..n]);
            LeavesOpen(raw, SingleQuoted) && Breakable(FieldVal(raw, SingleQuoted, [], None))
  {
    QuotedRestPrefix(Doubled, "'", ps, last, n);
    FoldedDoubled(ps[..n]);
    DoubledConcat(first, Folded(ps[..n]));
    ConcatAssoc("'", Doubled(first), Doubled(Folded(ps[..n])));
    OpenHead(first + Folded(ps[..n]));
  }

  lemma SingleWhole(first: string, ps: seq<Piece>, last: Piece)
    ensures "'" + Doubled(first) + Folded(QuotedRest(Doubled, "'", ps, last)) ==
            QuoteWith('\'', Doubled(first + Folded(ps + [last])))
  {
    hide Doubled, Folded;
    var gap, text := Gap(last.blanks), last.text;
    FoldedSnoc(Spelled(Doubled, ps), Piece(last.blanks, Doubled(text) + "'"));
    FoldedDoubled(ps);
    FoldedSnoc(ps, last);
    DoubledConcat(first, Folded(ps) + (gap + text));
    DoubledConcat(Folded(ps), gap + text);
    DoubledConcat(gap, text);
    DoubledPlain(gap);
    Reassociate("'", Doubled(first), Doubled(Folded(ps)), gap, Doubled(text));
  }

  lemma Reassociate(q: string, a: string, b: string, c: string, d: string)
    ensures q + a + (b + (c + (d + q))) == q + (a + (b + (c + d))) + q
  {
  }

  // ---- double quotes over several lines --------------------------------------------------------------------

  lemma {:induction false} EscapedThen(s: string, rest: string)
    ensures UnescapeDq(EscapeAll(s) + rest) == s + UnescapeDq(rest)
    ensures DqEnd(EscapeAll(s) + rest) == |EscapeAll(s)| + DqEnd(rest)
  {
    hide EscapeDq, DqEnd, UnescapeDq;
    if s == [] {
      assert EscapeAll(s) + rest == rest && s + UnescapeDq(rest) == UnescapeDq(rest);
    } else {
      EscapedThen(s[1..], rest);
      EscapeDqReads(s[0], EscapeAll(s[1..]) + rest);
      ConcatAssoc(EscapeDq(s[0]), EscapeAll(s[1..]), rest);
      ConcatAssoc([s[0]], s[1..], UnescapeDq(rest));
      assert s == [s[0]] + s[1..];
    }
  }

  lemma {:induction false} PlainThen(g: string, rest: string)
    requires '\\' !in g && '"' !in g
    ensures UnescapeDq(g + rest) == g + UnescapeDq(rest)
    ensures DqEnd(g + rest) == |g| + DqEnd(rest)
  {
    if g == [] {
      assert g + rest == rest;
    } else {
      assert (g + rest)[1..] == g[1..] + rest && g == [g[0]] + g[1..];
      PlainThen(g[1..], rest);
    }
  }

  /** The inside of a double-quoted value over several lines. */
  function Enc(first: string, ps: seq<Piece>): string {
    EscapeAll(first) + Folded(Spelled(EscapeAll, ps))
  }

  lemma EncSnoc(first: string, ps: seq<Piece>)
    requires ps != []
    ensures var last := ps[|ps| - 1];
            Enc(first, ps) == Enc(first, ps[..|ps| - 1]) + (Gap(last.blanks) + EscapeAll(last.text))
  {
    SpelledSnoc(EscapeAll, ps);
    ConcatAssoc(EscapeAll(first), Folded(Spelled(EscapeAll, ps[..|ps| - 1])),
                Gap(ps[|ps| - 1].blanks) + EscapeAll(ps[|ps| - 1].text));
  }

  lemma FourConcat(a: string, b: string, c: string, d: string)
    ensures a + (b + c) + d == a + (b + (c + d))
  {
  }

  lemma {:induction false} EncReads(first: string, ps: seq<Piece>, rest: string)
    ensures UnescapeDq(Enc(first, ps) + rest) == first + Folded(ps) + UnescapeDq(rest)
    ensures DqEnd(Enc(first, ps) + rest) == |Enc(first, ps)| + DqEnd(rest)
    decreases |ps|
  {
    hide UnescapeDq, DqEnd, EscapeAll, Gap;
    if ps == [] {
      EscapedThen(first, rest);
      assert Enc(first, ps) == EscapeAll(first) && first + Folded(ps) == first;
    } else {
      var front, last := ps[..|ps| - 1], ps[|ps| - 1];
      var gap := Gap(last.blanks);
      EncSnoc(first, ps);
      FourConcat(Enc(first, front), gap, EscapeAll(last.text), rest);
      EncReads(first, front, gap + (EscapeAll(last.text) + rest));
      GapPlain(last.blanks);
      PlainThen(gap, EscapeAll(last.text) + rest);
      EscapedThen(last.text, rest);
      Regroup(first, Folded(front), gap, last.text, UnescapeDq(rest));
    }
  }

  lemma GapPlain(n: nat)
    ensures '\\' !in Gap(n) && '"' !in Gap(n) && '\'' !in Gap(n) && Gap(n) != [] && AllWhite(Gap(n))
  {
  }

  lemma Regroup(a: string, b: string, c: string, d: string, e: string)
    ensures a + b + (c + (d + e)) == a + (b + (c + d)) + e
  {
  }

  lemma {:induction false} EscapeSnoc(s: string, c: char)
    ensures EscapeAll(s + [c]) == EscapeAll(s) + EscapeDq(c)
  {
    hide EscapeDq;
    if s == [] {
      assert s + [c] == [c] && [c][1..] == [];
      assert EscapeAll([c]) == EscapeDq(c) + EscapeAll([c][1..]);
    } else {
      assert (s + [c])[1..] == s[1..] + [c];
      EscapeSnoc(s[1..], c);
      ConcatAssoc(EscapeDq(s[0]), EscapeAll(s[1..]), EscapeDq(c));
    }
  }

  lemma PieceBackslashes(a: string, c: char)
    ensures TrailingBackslashes(a + EscapeDq(c)) == if c == '\\' then TrailingBackslashes(a) + 2 else 0
  {
    var s := a + EscapeDq(c);
    if c == '\\' {
      assert s[..|s| - 1] == a + "\\" && (a + "\\")[..|a|] == a;
    } else {
      LastEscaped(c);
      assert s[|s| - 1] == EscapeDq(c)[|EscapeDq(c)| - 1];
    }
  }

  lemma LastEscaped(c: char)
    requires c != '\\'
    ensures EscapeDq(c) != [] && EscapeDq(c)[|EscapeDq(c)| - 1] != '\\'
  {
    assert forall i :: 0 <= i < 16 ==> HEX[i] != '\\';
  }

  lemma NothingEscaped()
    ensures EscapeAll([]) == []
  {
  }

  /** Escaped text ends in an even number of backslashes. */
  lemma {:induction false} EvenBackslashes(a: string, s: string)
    requires TrailingBackslashes(a) % 2 == 0
    ensures TrailingBackslashes(a + EscapeAll(s)) % 2 == 0
  {
    hide EscapeDq, EscapeAll, TrailingBackslashes;
    if s == [] {
      NothingEscaped();
      assert a + [] == a;
    } else {
      var f, c := s[..|s| - 1], s[|s| - 1];
      assert s == f + [c];
      EscapeSnoc(f, c);
      EvenBackslashes(a, f);
      ConcatAssoc(a, EscapeAll(f), EscapeDq(c));
      PieceBackslashes(a + EscapeAll(f), c);
    }
  }

  lemma BlankNoBackslash(a: string, g: string)
    requires g != [] && '\\' !in g
    ensures TrailingBackslashes(a + g) == 0
  {
    assert (a + g)[|a + g| - 1] == g[|g| - 1];
  }

  /** No line of the value ends in white space. */
  predicate EndsVisibly(first: string, ps: seq<Piece>) {
    var t := if ps == [] then EscapeAll(first) else EscapeAll(ps[|ps| - 1].text);
    t == [] || !IsWhite(t[|t| - 1])
  }

  lemma EncBreakable(first: string, ps: seq<Piece>)
    requires EndsVisibly(first, ps) && (ps != [] ==> EscapeAll(ps[|ps| - 1].text) != [])
    ensures Breakable(FieldVal("\"" + Enc(first, ps), DoubleQuoted, [], None))
  {
    hide TrailingBackslashes, EscapeAll, Gap;
    var raw := "\"" + Enc(first, ps);
    BlankNoBackslash([], "\"");
    assert [] + "\"" == "\"";
    if ps == [] {
      assert raw == "\"" + EscapeAll(first);
      EvenBackslashes("\"", first);
    } else {
      var front, last := ps[..|ps| - 1], ps[|ps| - 1];
      var a := "\"" + Enc(first, front);
      EncSnoc(first, ps);
      GapPlain(last.blanks);
      BlankNoBackslash(a, Gap(last.blanks));
      EvenBackslashes(a + Gap(last.blanks), last.text);
      assert raw == a + Gap(last.blanks) + EscapeAll(last.text);
    }
    assert raw + [] == raw;
    assert !IsWhite(raw[|raw| - 1]);
    TrimEndSplit(raw, []);
  }

  lemma EncOpen(first: string, ps: seq<Piece>)
    ensures LeavesOpen("\"" + Enc(first, ps), DoubleQuoted)
    ensures ScalarHead("\"" + Enc(first, ps)) == ("\"" + Enc(first, ps), DoubleQuoted)
  {
    var raw := "\"" + Enc(first, ps);
    EncReads(first, ps, []);
    assert Enc(first, ps) + [] == Enc(first, ps) && raw[1..] == Enc(first, ps);
  }

  lemma NothingDecodes()
    ensures UnescapeDq([]) == [] && DqEnd("\"") == 0
  {
  }

  lemma EncWhole(first: string, ps: seq<Piece>)
    ensures var raw := QuoteWith('"', Enc(first, ps));
            DqClosed(raw) && !HeadTail(raw, DoubleQuoted).open && NonNull(HeadTail(raw, DoubleQuoted).fv) == Some(first + Folded(ps))
  {
    hide UnescapeDq, Enc, Folded;
    var raw := QuoteWith('"', Enc(first, ps));
    EncReads(first, ps, "\"");
    EncReads(first, ps, []);
    QuotedBody('"', Enc(first, ps));
    assert Enc(first, ps) + [] == Enc(first, ps);
    NothingDecodes();
    assert first + Folded(ps) + [] == first + Folded(ps);
    assert raw[1..] == Enc(first, ps) + "\"";
    assert raw[1..|raw| - 1] == Enc(first, ps);
  }

  lemma DoubleStaysOpen(first: string, ps: seq<Piece>, last: Piece, n: nat)
    requires n <= |ps| && EndsVisibly(first, []) && AllVisible(QuotedRest(EscapeAll, "\"", ps, last))
    ensures var raw := "\"" + EscapeAll(first) + Folded(QuotedRest(EscapeAll, "\"", ps, last)[..n]);
            LeavesOpen(raw, DoubleQuoted) && Breakable(FieldVal(raw, DoubleQuoted, [], None))
  {
    hide LeavesOpen, Breakable, EscapeAll;
    QuotedRestPrefix(EscapeAll, "\"", ps, last, n);
    ConcatAssoc("\"", EscapeAll(first), Folded(Spelled(EscapeAll, ps[..n])));
    if n > 0 {
      assert QuotedRest(EscapeAll, "\"", ps, last)[n - 1].text == EscapeAll(ps[n - 1].text);
    }
    EncBreakable(first, ps[..n]);
    EncOpen(first, ps[..n]);
  }

  lemma DoubleWhole(first: string, ps: seq<Piece>, last: Piece)
    ensures "\"" + EscapeAll(first) + Folded(QuotedRest(EscapeAll, "\"", ps, last)) == QuoteWith('"', Enc(first, ps + [last]))
  {
    hide EscapeAll, Gap;
    var all := ps + [last];
    EncSnoc(first, all);
    assert all[..|all| - 1] == ps;
    FoldedSnoc(Spelled(EscapeAll, ps), Piece(last.blanks, EscapeAll(last.text) + "\""));
    Reassociate("\"", EscapeAll(first), Folded(Spelled(EscapeAll, ps)), Gap(last.blanks), EscapeAll(last.text));
    FourWays(EscapeAll(first), Folded(Spelled(EscapeAll, ps)), Gap(last.blanks), EscapeAll(last.text));
  }

  lemma FourWays(a: string, b: string, c: string, d: string)
    ensures a + (b + (c + d)) == a + b + (c + d)
  {
  }

  /** A double-quoted value over any number of lines, whatever they look like, with any blank lines between them. */
  lemma DoubleFoldLoads(rx: Engine, first: string, ps: seq<Piece>, last: Piece)
    requires EndsVisibly(first, []) && AllVisible(QuotedRest(EscapeAll, "\"", ps, last))
    ensures Load(rx, OneRow("\"" + EscapeAll(first), Lay(QuotedRest(EscapeAll, "\"", ps, last)))) ==
            Ok([Bucket(first + Folded(ps + [last]), "r", None, 1)])
  {
    hide Lay, Absorb, LeavesOpen, Breakable, AllVisible, QuotedRest, Spelled, DqClosed, Trim, NonNull, EscapeAll, Folded, IsWhite;
    var x, qs, v := "\"" + EscapeAll(first), QuotedRest(EscapeAll, "\"", ps, last), first + Folded(ps + [last]);
    EncFirst(first);
    EncOpen(first, []);
    DoubleTrimmed(first);
    TrimOfTrimmed(x);
    forall n | 0 <= n < |qs|
      ensures LeavesOpen(x + Folded(qs[..n]), DoubleQuoted) && Breakable(FieldVal(x + Folded(qs[..n]), DoubleQuoted, [], None))
    {
      DoubleStaysOpen(first, ps, last, n);
    }
    QuotedAbsorbed(x, DoubleQuoted, qs);
    DoubleWhole(first, ps, last);
    EncWhole(first, ps + [last]);
    LayHangs(qs);
    FieldLoads(rx, x, Lay(qs));
  }

  lemma EncFirst(first: string)
    ensures Enc(first, []) == EscapeAll(first)
  {
    assert Spelled(EscapeAll, []) == [];
  }

  lemma DoubleTrimmed(first: string)
    requires EndsVisibly(first, [])
    ensures Trimmed("\"" + EscapeAll(first)) && NoCr("\"" + EscapeAll(first))
  {
    hide EscapeAll;
    if EscapeAll(first) == [] {
      assert "\"" + EscapeAll(first) == "\"";
    } else {
      EndsQuoted("\"", EscapeAll(first));
    }
  }

  /** A backslash at the end of a line: the break and the white space around it vanish. */
  lemma EscapedBreakLoads(rx: Engine, first: string, blanks: nat, second: string)
    requires PieceSurvives(EscapeAll(second) + "\"")
    ensures Load(rx, OneRow("\"" + EscapeAll(first) + "\\", Lay([Piece(blanks, EscapeAll(second) + "\"")]))) ==
            Ok([Bucket(first + second, "r", None, 1)])
  {
    hide Lay, Absorb, DqClosed, Trim, NonNull, EscapeAll, Folded, PieceSurvives, HeadTail, ScalarHead;
    var x, q := "\"" + EscapeAll(first) + "\\", Piece(blanks, EscapeAll(second) + "\"");
    GluedHead(first);
    GluedAbsorbed(first, q, second);
    GluedWhole(first, second);
    LayHangs([q]);
    assert NoCr(x);
    FieldLoads(rx, x, Lay([q]));
  }

  lemma GluedHead(first: string)
    ensures var x := "\"" + EscapeAll(first) + "\\";
            ScalarHead(Trim(x)) == (x, DoubleQuoted) && HeadTail(x, DoubleQuoted).open
  {
    hide EscapeAll;
    var x := "\"" + EscapeAll(first) + "\\";
    TrimOfTrimmed(x);
    EscapedThen(first, "\\");
    assert x[1..] == EscapeAll(first) + "\\";
    assert DqEnd("\\") == 2;
  }

  lemma OddBackslashes(first: string)
    ensures var x := "\"" + EscapeAll(first) + "\\";
            TrimEnd(x) == x && TrailingBackslashes(x) % 2 == 1 && x[..|x| - 1] == "\"" + EscapeAll(first)
  {
    hide EscapeAll;
    var a := "\"" + EscapeAll(first);
    var x := a + "\\";
    assert x[..|x| - 1] == a;
    BlankNoBackslash([], "\"");
    assert [] + "\"" == "\"";
    EvenBackslashes("\"", first);
    assert x + [] == x;
    TrimEndSplit(x, []);
  }

  lemma GluedAbsorbed(first: string, q: Piece, second: string)
    requires q.text == EscapeAll(second) + "\"" && PieceSurvives(q.text)
    ensures var x := "\"" + EscapeAll(first) + "\\";
            var fv := FieldVal("\"" + EscapeAll(first) + q.text, DoubleQuoted, [], None);
            Absorb(HeadTail(x, DoubleQuoted), Lay([q])) == Tail(fv, !Closes(fv), 0)
  {
    hide TrimEnd, TrailingBackslashes, Closes, EscapeAll;
    var x := "\"" + EscapeAll(first) + "\\";
    var t, line := HeadTail(x, DoubleQuoted), "    " + q.text;
    GluedHead(first);
    OddBackslashes(first);
    assert Lay([q]) == Blanks(q.blanks) + [line] by {
      assert [q][..0] == [];
      assert [] + (Blanks(q.blanks) + [line]) == Blanks(q.blanks) + [line];
    }
    AbsorbConcat(t, Blanks(q.blanks), [line]);
    AbsorbBlanks(t, q.blanks);
    assert [line][..0] == [];
    TrimPrefix("    ", q.text);
    TrimOfTrimmed(q.text);
  }

  lemma GluedWhole(first: string, second: string)
    ensures var raw := "\"" + EscapeAll(first) + (EscapeAll(second) + "\"");
            DqClosed(raw) && NonNull(FieldVal(raw, DoubleQuoted, [], None)) == Some(first + second)
  {
    hide EscapeAll, EscapeDq;
    EscapeConcat(first, second);
    DoubleQuotedRoundTrip(first + second, []);
    assert "\"" + EscapeAll(first) + (EscapeAll(second) + "\"") == QuoteWith('"', EscapeAll(first) + EscapeAll(second));
  }

  lemma {:induction false} EscapeConcat(a: string, b: string)
    ensures EscapeAll(a + b) == EscapeAll(a) + EscapeAll(b)
  {
    hide EscapeDq;
    if a == [] {
      assert a + b == b;
    } else {
      assert (a + b)[1..] == a[1..] + b;
      EscapeConcat(a[1..], b);
      ConcatAssoc(EscapeDq(a[0]), EscapeAll(a[1..]), EscapeAll(b));
    }
  }

  // ---- block values ----------------------------------------------------------------------------------------

  function Header(folded: bool, chomp: Chomp): string {
    (if folded then ">" else "|") + match chomp case Strip => "-" case Keep => "+" case Clip => ""
  }

  /** Two lines of a folded block run together, unless one of them is empty; a literal block keeps every break. */
  function BlockBody(folded: bool, texts: seq<string>): string
    requires texts != []
  {
    if |texts| == 1 then texts[0]
    else texts[0] + ((if folded && texts[0] != "" && texts[1] != "" then " " else "\n") + BlockBody(folded, texts[1..]))
  }

  function Between(folded: bool, a: string, b: string): string {
    if folded && b != [] && a != [] then " " else "\n"
  }

  lemma {:induction false} JoinFromLeft(texts: seq<string>, folded: bool)
    requires |texts| > 1
    ensures BlockJoin(texts, folded) == texts[0] + (Between(folded, texts[0], texts[1]) + BlockJoin(texts[1..], folded))
    decreases |texts|
  {
    var n := |texts| - 1;
    if n == 1 {
      assert texts[..1] == [texts[0]] && texts[1..] == [texts[1]];
      ConcatAssoc(texts[0], Between(folded, texts[0], texts[1]), texts[1]);
    } else {
      JoinFromLeft(texts[..n], folded);
      assert texts[..n][1..] == texts[1..][..n - 1];
      assert texts[1..][n - 1] == texts[n] && texts[1..][n - 2] == texts[n - 1];
      var sep := Between(folded, texts[n - 1], texts[n]);
      assert BlockJoin(texts, folded) == BlockJoin(texts[..n], folded) + sep + texts[n];
      assert BlockJoin(texts[1..], folded) == BlockJoin(texts[1..][..n - 1], folded) + sep + texts[n];
      RegroupFive(texts[0], Between(folded, texts[0], texts[1]), BlockJoin(texts[1..][..n - 1], folded), sep, texts[n]);
    }
  }

  lemma RegroupFive(a: string, b: string, c: string, d: string, e: string)
    ensures a + (b + c) + d + e == a + (b + (c + d + e))
  {
  }

  lemma {:induction false} JoinIsBody(texts: seq<string>, folded: bool)
    requires texts != []
    ensures BlockJoin(texts, folded) == BlockBody(folded, texts)
  {
    if |texts| > 1 {
      JoinFromLeft(texts, folded);
      JoinIsBody(texts[1..], folded);
    }
  }

  /** What may stand behind a block's header: anything that is no chomping mark. */
  predicate Note(chomp: Chomp, note: string) {
    note == "" || (!IsWhite(note[|note| - 1]) && (chomp == Clip ==> note[0] != '-' && note[0] != '+'))
  }

  lemma HeaderKind(folded: bool, chomp: Chomp, note: string)
    requires Note(chomp, note)
    ensures var h := Header(folded, chomp) + note; h != [] && NoCr(h) && ScalarHead(Trim(h)) == (h, Block(folded, chomp))
  {
    TrimOfTrimmed(Header(folded, chomp) + note);
  }

  lemma {:induction false} BodyEnds(folded: bool, texts: seq<string>)
    requires texts != [] && texts[|texts| - 1] != []
    ensures var b := BlockBody(folded, texts); b != [] && b[|b| - 1] == texts[|texts| - 1][|texts[|texts| - 1]| - 1]
  {
    if |texts| > 1 {
      BodyEnds(folded, texts[1..]);
    }
  }

  /** A block value in each of its six kinds, whatever stands behind its header. */
  lemma BlockLoads(rx: Engine, folded: bool, chomp: Chomp, note: string, texts: seq<string>)
    requires Note(chomp, note)
    requires TextsSurvive(texts) && texts != [] && texts[|texts| - 1] != [] && NoFeeds(texts)
    ensures Load(rx, OneRow(Header(folded, chomp) + note, StripAll(BlockLines(texts)))) ==
            Ok([Bucket(BlockBody(folded, texts) + if chomp.Strip? then "" else "\n", "r", None, 1)])
  {
    hide ValueRead, ScalarHead, TextsSurvive, BlockBody, Trim, Header, BlockLines, NonNull;
    BlockRead(folded, chomp, note, texts);
    BlockHangs(texts);
    FieldLoads(rx, Header(folded, chomp) + note, StripAll(BlockLines(texts)));
  }

  /** What the lines of a block read as. */
  lemma BlockRead(folded: bool, chomp: Chomp, note: string, texts: seq<string>)
    requires Note(chomp, note)
    requires TextsSurvive(texts) && texts != [] && texts[|texts| - 1] != [] && NoFeeds(texts)
    ensures var h, lines := Header(folded, chomp) + note, StripAll(BlockLines(texts));
            && NoCr(h) && ScalarHead(Trim(h)).0 != [] && !ValueRead(h, lines).open
            && NonNull(ValueRead(h, lines).fv) == Some(BlockBody(folded, texts) + if chomp.Strip? then "" else "\n")
  {
    hide Absorb, TextsSurvive, BlockBody, BlockJoin, Trim, Header, ScalarHead, BlockLines;
    var t := HeadTail(Header(folded, chomp) + note, Block(folded, chomp));
    HeaderKind(folded, chomp, note);
    AbsorbTexts(t, texts);
    BlockKindKept(t, StripAll(BlockLines(texts)));
    GrownWhole(Absorb(t, StripAll(BlockLines(texts))), texts);
    BlockValueIs(folded, chomp, texts);
  }

  lemma BlockValueIs(folded: bool, chomp: Chomp, texts: seq<string>)
    requires texts != [] && texts[|texts| - 1] != [] && NoFeeds(texts)
    ensures BlockValue(texts, folded, chomp) == BlockBody(folded, texts) + if chomp.Strip? then "" else "\n"
  {
    JoinIsBody(texts, folded);
    BodyEnds(folded, texts);
    assert BlockBody(folded, texts) + "" == BlockBody(folded, texts);
  }

  // ---- trailing line feeds ------------------------------------------------------------------------------------

  lemma {:induction false} FeedsOff(s: string) returns (n: nat)
    ensures s == StripFeeds(s) + Replicate('\n', n)
    ensures StripFeeds(s) == "" || StripFeeds(s)[|StripFeeds(s)| - 1] != '\n'
  {
    n := 0;
    if s != [] && s[|s| - 1] == '\n' {
      var m := FeedsOff(s[..|s| - 1]);
      n := m + 1;
      assert s == s[..|s| - 1] + ['\n'];
    }
  }

  /** The lines joined are a text and some line feeds; stripping leaves the text, clipping one feed, keeping all and one more. */
  lemma ChompIs(texts: seq<string>, folded: bool, chomp: Chomp) returns (text: string, n: nat)
    requires texts != []
    ensures BlockBody(folded, texts) == text + Replicate('\n', n) && (text == "" || text[|text| - 1] != '\n')
    ensures chomp == Strip ==> BlockValue(texts, folded, chomp) == text
    ensures chomp == Clip ==> BlockValue(texts, folded, chomp) == text + "\n"
    ensures chomp == Keep ==> BlockValue(texts, folded, chomp) == text + Replicate('\n', n) + "\n"
    ensures BlockValue([], folded, chomp) == ""
  {
    JoinIsBody(texts, folded);
    text := StripFeeds(BlockBody(folded, texts));
    n := FeedsOff(BlockBody(folded, texts));
  }

  lemma {:induction false} AllDropped(y: string, n: nat)
    requires ByteLen(y) <= n
    ensures DropBytes(y, n) == []
  {
    if y != [] {
      AllDropped(y[1..], n - Utf8Width(y[0]));
    }
  }

  lemma ShortDropped(y: string)
    requires ByteLen(y) <= 4
    ensures DropBytes("    " + y, 8) == []
  {
    AllDropped(y, 4);
    var s := "    " + y;
    assert s[1..] == "   " + y && ("   " + y)[1..] == "  " + y && ("  " + y)[1..] == " " + y && (" " + y)[1..] == y;
    assert DropBytes(s, 8) == DropBytes("   " + y, 7) == DropBytes("  " + y, 6) == DropBytes(" " + y, 5) == DropBytes(y, 4);
  }

  lemma DeepDropped(x: string)
    requires x != [] && !IsWhite(x[0])
    ensures Indent("        " + x) == 8 && DropBytes("        " + x, 8) == x
  {
    assert Spaces(8) == "        ";
    IndentOf(8, x);
    DropSpaces(8, x);
  }

  lemma {:induction false} DropSpaces(n: nat, x: string)
    ensures DropBytes(Spaces(n) + x, n) == x
  {
    if n == 0 {
      assert Spaces(0) + x == x;
    } else {
      assert (Spaces(n) + x)[1..] == Spaces(n - 1) + x;
      DropSpaces(n - 1, x);
    }
  }

  function Empties(n: nat): (r: seq<string>)
    ensures |r| == n && forall i :: 0 <= i < n ==> r[i] == ""
  {
    seq(n, _ => "")
  }

  function ShortLines(ys: seq<string>): (r: seq<string>)
    ensures |r| == |ys| && forall i :: 0 <= i < |r| ==> r[i] == "    " + ys[i]
  {
    seq(|ys|, i requires 0 <= i < |ys| => "    " + ys[i])
  }

  /** A block value of `x` and `n` empty lines, read at column 8. */
  function DeepTail(h: string, folded: bool, chomp: Chomp, x: string, n: nat): Tail {
    Tail(FieldVal(h, Block(folded, chomp), [x] + Empties(n), Some(8)), false, 0)
  }

  predicate AllShort(ys: seq<string>) {
    forall i :: 0 <= i < |ys| ==> PieceSurvives(ys[i]) && ByteLen(ys[i]) <= 4
  }

  lemma ShortAbsorbed(h: string, folded: bool, chomp: Chomp, x: string, n: nat, y: string)
    requires PieceSurvives(y) && ByteLen(y) <= 4
    ensures AbsorbLine(DeepTail(h, folded, chomp, x, n), "    " + y) == DeepTail(h, folded, chomp, x, n + 1)
  {
    hide DropBytes, ByteLen;
    TrimPrefix("    ", y);
    TrimOfTrimmed(y);
    ShortDropped(y);
    assert seq<string>(0, _ => []) == [];
    assert [x] + Empties(n) + [] + [""] == [x] + Empties(n + 1);
  }

  lemma {:induction false} ShortsAbsorbed(h: string, folded: bool, chomp: Chomp, x: string, ys: seq<string>)
    requires AllShort(ys) && PieceSurvives(x)
    ensures Absorb(HeadTail(h, Block(folded, chomp)), ["        " + x] + ShortLines(ys)) == DeepTail(h, folded, chomp, x, |ys|)
  {
    hide AbsorbLine, PieceSurvives, ByteLen, HeadTail, DeepTail;
    var t := HeadTail(h, Block(folded, chomp));
    if ys == [] {
      assert ["        " + x] + ShortLines(ys) == [] + ["        " + x];
      AbsorbSnoc(t, [], "        " + x);
      DeepAbsorbed(h, folded, chomp, x);
    } else {
      var front, last := ys[..|ys| - 1], ys[|ys| - 1];
      ShortsAbsorbed(h, folded, chomp, x, front);
      assert ["        " + x] + ShortLines(ys) == (["        " + x] + ShortLines(front)) + ["    " + last];
      AbsorbSnoc(t, ["        " + x] + ShortLines(front), "    " + last);
      ShortAbsorbed(h, folded, chomp, x, |front|, last);
    }
  }

  lemma DeepAbsorbed(h: string, folded: bool, chomp: Chomp, x: string)
    requires PieceSurvives(x)
    ensures AbsorbLine(HeadTail(h, Block(folded, chomp)), "        " + x) == DeepTail(h, folded, chomp, x, 0)
    ensures Absorb(HeadTail(h, Block(folded, chomp)), []) == HeadTail(h, Block(folded, chomp))
  {
    hide DropBytes, Indent;
    TrimPrefix("        ", x);
    TrimOfTrimmed(x);
    DeepDropped(x);
    assert [] + seq<string>(0, _ => []) + [x] == [x] + Empties(0);
  }

  lemma {:induction false} DeepBody(folded: bool, x: string, n: nat)
    ensures BlockBody(folded, [x] + Empties(n)) == x + Replicate('\n', n)
    decreases n
  {
    var texts := [x] + Empties(n);
    if n == 0 {
      assert texts == [x] && x + Replicate('\n', 0) == x;
    } else {
      assert texts[1..] == [""] + Empties(n - 1);
      DeepBody(folded, "", n - 1);
      assert x + ("\n" + ("" + Replicate('\n', n - 1))) == x + Replicate('\n', n);
    }
  }

  /** Lines that end left of a block's column are empty ones, and a trailing run of them is chomped as the header says. */
  lemma ShortLinesChomped(rx: Engine, folded: bool, chomp: Chomp, x: string, ys: seq<string>)
    requires PieceSurvives(x) && '\n' !in x && AllShort(ys)
    ensures Load(rx, OneRow(Header(folded, chomp), ["        " + x] + ShortLines(ys))) ==
            Ok([Bucket(if chomp == Strip then x else if chomp == Clip then x + "\n" else x + Replicate('\n', |ys|) + "\n",
                       "r", None, 1)])
  {
    hide ValueRead, ScalarHead, Trim, Header, NonNull, PieceSurvives, AllShort;
    var h := Header(folded, chomp);
    ShortRead(folded, chomp, x, ys);
    ShortHangs(x, ys);
    FieldLoads(rx, h, ["        " + x] + ShortLines(ys));
  }

  lemma ShortRead(folded: bool, chomp: Chomp, x: string, ys: seq<string>)
    requires PieceSurvives(x) && '\n' !in x && AllShort(ys)
    ensures var h, lines := Header(folded, chomp), ["        " + x] + ShortLines(ys);
            && NoCr(h) && ScalarHead(Trim(h)).0 != [] && !ValueRead(h, lines).open
            && NonNull(ValueRead(h, lines).fv) ==
               Some(if chomp == Strip then x else if chomp == Clip then x + "\n" else x + Replicate('\n', |ys|) + "\n")
  {
    hide Absorb, Trim, Header, HeadTail, PieceSurvives, ScalarHead, BlockValue, AllShort;
    var h := Header(folded, chomp);
    HeaderKind(folded, chomp, "");
    assert h + "" == h;
    ShortsAbsorbed(h, folded, chomp, x, ys);
    ShortHangs(x, ys);
    ShortValue(folded, chomp, x, |ys|);
  }

  lemma ShortValue(folded: bool, chomp: Chomp, x: string, n: nat)
    requires x != "" && x[|x| - 1] != '\n'
    ensures BlockValue([x] + Empties(n), folded, chomp) ==
            if chomp == Strip then x else if chomp == Clip then x + "\n" else x + Replicate('\n', n) + "\n"
  {
    hide BlockBody, BlockValue;
    DeepBody(folded, x, n);
    var text, m := ChompIs([x] + Empties(n), folded, chomp);
    SameText(x, n, text, m);
  }

  lemma SameText(x: string, m: nat, text: string, n: nat)
    requires x != "" && x[|x| - 1] != '\n' && (text == "" || text[|text| - 1] != '\n')
    requires x + Replicate('\n', m) == text + Replicate('\n', n)
    ensures text == x && m == n
  {
    var s := x + Replicate('\n', m);
    assert s[|x| - 1] != '\n' && (text == "" || s[|text| - 1] != '\n');
    assert forall i :: |x| <= i < |s| ==> s[i] == '\n';
    assert forall i :: |text| <= i < |s| ==> s[i] == '\n';
    assert text == s[..|x|] && x == s[..|x|];
  }

  lemma ShortHangs(x: string, ys: seq<string>)
    requires PieceSurvives(x) && '\n' !in x
    ensures var rest := ["        " + x] + ShortLines(ys); forall i :: 0 <= i < |rest| ==> Hangs(rest[i])
    ensures x != "" && x[|x| - 1] != '\n'
  {
    assert ("        " + x)[..4] == Spaces(4);
    forall i | 0 <= i < |ys|
      ensures ("    " + ys[i])[..4] == Spaces(4)
    {
    }
    assert x[|x| - 1] in x;
  }

  // ---- comments, tags and nulls ------------------------------------------------------------------------------

  /** Only the head of a value counts. */
  lemma SameHead(rx: Engine, x: string, y: string, rest: seq<string>)
    requires NoCr(x) && NoCr(y) && ScalarHead(Trim(x)) == ScalarHead(Trim(y))
    ensures Load(rx, OneRow(x, rest)) == Load(rx, OneRow(y, rest))
  {
    hide Step, Run, Finish, ScalarHead, Trim;
    var below := rest + ["  rule: r", "  count: 1"];
    HeadOpens(rx, ["- file: " + x] + below);
    HeadOpens(rx, ["- file: " + y] + below);
    OpenedBy(rx, x);
    OpenedBy(rx, y);
    RunCons(rx, InRows(VERSION_ONE), "- file: " + x, below);
    RunCons(rx, InRows(VERSION_ONE), "- file: " + y, below);
  }

  /** A comment behind a plain value. */
  lemma PlainCommentIgnored(rx: Engine, w: string, remark: string, rest: seq<string>)
    requires PlainValue(w) && Trimmed("#" + remark)
    ensures Load(rx, OneRow(w + (" #" + remark), rest)) == Load(rx, OneRow(w, rest))
  {
    hide Trim, ScalarHead, PlainValue, Load, OneRow;
    var x := w + (" #" + remark);
    CommentTrimmed(w, remark);
    TrimOfTrimmed(x);
    CommentedHead(w, remark);
    WordHeadIs(w);
    SameHead(rx, x, w, rest);
  }

  lemma CommentTrimmed(w: string, remark: string)
    requires PlainValue(w) && Trimmed("#" + remark)
    ensures var x := w + (" #" + remark); Trimmed(x) && NoCr(x) && Trimmed(w) && NoCr(w)
  {
    var x := w + (" #" + remark);
    assert x[0] == w[0] && x[|x| - 1] == ("#" + remark)[|remark|];
  }

  lemma WordHeadIs(w: string)
    requires PlainValue(w)
    ensures ScalarHead(Trim(w)) == (w, Plain)
  {
    hide Trim, ScalarHead;
    TrimOfTrimmed(w);
    PlainWord(w);
  }

  /** A comment behind a closed quote. */
  lemma QuoteCommentIgnored(rx: Engine, v: string, q: string, remark: string, rest: seq<string>)
    requires q == QuoteWith('"', EscapeAll(v)) || q == QuoteWith('\'', Doubled(v))
    requires Trimmed("#" + remark)
    ensures Load(rx, OneRow(q + (" #" + remark), rest)) == Load(rx, OneRow(q, rest))
  {
    hide DqClosed, SqClosed, EscapeAll, Doubled, Trim, ScalarHead;
    var tail := " #" + remark;
    assert tail[0] == ' ' && tail[|tail| - 1] == ("#" + remark)[|remark|];
    assert q + [] == q;
    DoubleQuotedRoundTrip(v, tail);
    DoubleQuotedRoundTrip(v, []);
    SingleQuotedRoundTrip(v, tail);
    SingleQuotedRoundTrip(v, []);
    TrimOfTrimmed(q);
    TrimOfTrimmed(q + tail);
    SameHead(rx, q + tail, q, rest);
  }

  /** A tag before a value is dropped. */
  lemma TagIgnored(rx: Engine, tag: string, value: string, rest: seq<string>)
    requires ' ' !in tag && '\t' !in tag && value != [] && Trimmed(value) && value[0] != '#' && value[0] != '!'
    ensures Load(rx, OneRow("!" + tag + (" " + value), rest)) == Load(rx, OneRow(value, rest))
  {
    hide ScalarHead, Trim, Load, OneRow;
    TagHead(tag, value);
    SameHead(rx, "!" + tag + (" " + value), value, rest);
  }

  lemma TagHead(tag: string, value: string)
    requires ' ' !in tag && '\t' !in tag && value != [] && Trimmed(value) && value[0] != '#' && value[0] != '!'
    ensures var x := "!" + tag + (" " + value); NoCr(x) && NoCr(value) && ScalarHead(Trim(x)) == ScalarHead(Trim(value))
  {
    hide Trim, TrimStart, FindBlank, ScalarHead;
    var x := "!" + tag + (" " + value);
    assert x[0] == '!' && x[|x| - 1] == value[|value| - 1];
    TrimOfTrimmed(x);
    TrimOfTrimmed(value);
    FindBlankAfter(tag, " " + value);
    UntagAt(tag, " " + value);
    TrimPrefix(" ", value);
    assert [] + value == value;
    TrimStartSplit([], value);
    HeadByUntagged(x, value);
  }

  lemma HeadByUntagged(x: string, y: string)
    requires x != [] && x[0] != '#' && y != [] && y[0] != '#' && Untagged(x) == Untagged(y)
    ensures ScalarHead(x) == ScalarHead(y)
  {
    hide Untagged, KindOf, PlainSpan, QuotedSpan;
  }

  /** Nothing, a comment, a bare tag, `~` and `null` are no value. */
  predicate NullText(x: string) {
    x == "" || x[0] == '#' || (x[0] == '!' && ' ' !in x && '\t' !in x) || x == "~" || Lower(x) == "null"
  }

  lemma {:induction false} NoBlank(s: string)
    requires ' ' !in s && '\t' !in s
    ensures FindBlank(s) == None
  {
    if s != [] {
      NoBlank(s[1..]);
    }
  }

  lemma NullHead(x: string)
    requires Trimmed(x) && NullText(x)
    ensures var (head, kind) := ScalarHead(Trim(x)); kind == Plain && (head == [] || (IsNull(head) && UnyamlScalar(head) == head))
  {
    TrimOfTrimmed(x);
    if x != [] && x[0] == '!' && ' ' !in x && '\t' !in x {
      NoBlank(x[1..]);
    } else if x != [] && x[0] != '#' {
      NullWord(x);
    }
  }

  lemma NullWord(x: string)
    requires x == "~" || Lower(x) == "null"
    ensures ScalarHead(x) == (x, Plain) && IsNull(x) && UnyamlScalar(x) == x
  {
    assert Lower("null") == "null";
    forall i | 0 <= i < |x|
      ensures x[i] != ' ' && !IsWhite(x[i]) && x[i] !in {'#', '!', '"', '\'', '|', '>'}
    {
      assert Lower(x) == "null" ==> Lower(x)[i] == LowerChar(x[i]);
    }
    NoComment(x);
    PlainWord(x);
    if Lower(x) == "null" {
      assert forall i :: 0 <= i < |x| ==> LowerChar(x[i]) == Lower(x)[i] && LowerChar("null"[i]) == "null"[i];
    }
  }

  /** A null is no file. */
  lemma NullFileRefused(rx: Engine, x: string)
    requires Trimmed(x) && NullText(x)
    ensures Load(rx, OneRow(x, [])) == Err(MissingField(0, File))
  {
    hide ScalarHead, Trim, NullText, Step, Finish;
    NullHead(x);
    var (head, kind) := ScalarHead(Trim(x));
    assert NoCr(x);
    var r := SetField(NewRow(0), File, head, kind);
    assert Opened(x).(cur := Some(r)) == Opened(x);
    OneRowLoads(rx, x, [], r);
  }
}
