/** Which `version:` lines the reader accepts: the number one, written plainly, and nothing else. */
module VersionGate {
  import opened Wrappers
  import opened Text
  import opened Scalars
  import opened Baseline
  import opened Writer
  import opened Reader
  import opened RowTrip
  import opened RoundTrip

  // ---- spellings of one ------------------------------------------------------------------------

  predicate AllZeros(d: string) {
    forall i :: 0 <= i < |d| ==> d[i] == '0'
  }

  /** Zeros and a final one, behind an optional plus. */
  predicate SpellsOne(w: string) {
    var d := if w != [] && w[0] == '+' then w[1..] else w;
    d != [] && d[|d| - 1] == '1' && AllZeros(d[..|d| - 1])
  }

  lemma {:induction false} DigitsOfZero(d: string)
    ensures ParseDigits(d) == Some(0) <==> d != [] && AllZeros(d)
  {
    if d != [] {
      DigitsOfZero(d[..|d| - 1]);
      assert d == d[..|d| - 1] + [d[|d| - 1]];
    }
  }

  lemma DigitsOfOne(d: string)
    ensures ParseDigits(d) == Some(1) <==> d != [] && d[|d| - 1] == '1' && AllZeros(d[..|d| - 1])
  {
    if |d| > 1 {
      DigitsOfZero(d[..|d| - 1]);
    }
  }

  lemma OneIff(w: string)
    ensures SupportedVersion(Some((w, false))) <==> SpellsOne(w)
  {
    DigitsOfOne(if w != [] && w[0] == '+' then w[1..] else w);
  }

  lemma NumberOne(n: nat)
    ensures SpellsOne(Decimal(n)) <==> n == 1
  {
    DecimalReads(n);
    var d := Decimal(n);
    assert IsDigit(d[0]);
    DigitsOfOne(d);
  }

  // ---- a document with another version line ------------------------------------------------------

  lemma VersionStep(rx: Engine, tail: string)
    requires Trimmed("version:" + tail)
    ensures Step(rx, START, "version:" + tail) == Ok(START.(version := Some(VersionValue(tail))))
  {
    var raw := "version:" + tail;
    assert raw[7..8] == ":" && raw[..8] == "version:" && raw[8..] == tail;
    assert At(raw, ":", 7);
    TopLine(rx, START, raw);
  }

  /** The line that opens the rows. */
  function Opener(rows: seq<Bucket>): string {
    if rows == [] then "ignored: []" else "ignored:"
  }

  lemma OpenerStep(rx: Engine, st: State, rows: seq<Bucket>)
    requires st.cur.None?
    ensures Step(rx, st, Opener(rows)) == Ok(st.(inIgnored := rows != []))
  {
    IgnoredOpens(rx, st);
    IgnoredEmpty(rx, st);
  }

  lemma BodyLoads(rx: Engine, styler: Styler, version: Option<(string, bool)>, rows: seq<Bucket>)
    requires AllFit(styler, rows)
    ensures var st := START.(version := version);
            Then(rx, Step(rx, st, Opener(rows)), StripAll(AllRowLines(styler, rows))) ==
            if rows == [] then Ok(st) else Behind(rx, styler, version, rows)
  {
    OpenerStep(rx, START.(version := version), rows);
    if rows == [] {
      assert StripAll(AllRowLines(styler, rows)) == [];
    } else {
      RowsRun(rx, styler, version, rows);
    }
  }

  /** What the rows make of a version that has been read. */
  function Gated(back: Result<seq<Bucket>, LoadError>, accepted: bool): Result<seq<Bucket>, LoadError> {
    match back case Err(e) => Err(e) case Ok(bs) => if accepted then Ok(bs) else Err(UnsupportedVersion)
  }

  /** The outcome of a run over all lines. */
  function Ends(rx: Engine, end: Result<State, LoadError>): Result<seq<Bucket>, LoadError> {
    match end case Err(e) => Err(e) case Ok(st) => Finish(rx, st)
  }

  lemma FinishGated(rx: Engine, styler: Styler, version: Option<(string, bool)>, rows: seq<Bucket>)
    ensures Ends(rx, if rows == [] then Ok(START.(version := version)) else Behind(rx, styler, version, rows)) ==
            Gated(RowsBack(rx, styler, rows), SupportedVersion(version))
  {
    if rows != [] {
      FlushBehind(rx, styler, version, rows);
    }
  }

  lemma StripThree(a: string, b: string, c: string, rest: seq<string>)
    requires StripCr(a) == a && StripCr(b) == b && StripCr(c) == c
    ensures StripAll([a, b, c] + rest) == [a] + ([b] + ([c] + StripAll(rest)))
  {
    StripCons(a, [b, c] + rest);
    StripCons(b, [c] + rest);
    StripCons(c, rest);
    assert [a, b, c] + rest == [a] + ([b, c] + rest) && [b, c] + rest == [b] + ([c] + rest);
  }

  lemma StripTrimmed(raw: string)
    requires Trimmed(raw)
    ensures StripCr(raw) == raw
  {
  }

  /** The written document with another version line. */
  function WithVersion(styler: Styler, rows: seq<Bucket>, line: string): seq<string> {
    ["---", line, Opener(rows)] + AllRowLines(styler, rows)
  }

  lemma RunOpening(rx: Engine, line: string, st: State, opener: string, body: seq<string>)
    requires Step(rx, START, line) == Ok(st)
    ensures Run(rx, START, ["---"] + ([line] + ([opener] + body))) == Then(rx, Step(rx, st, opener), body)
  {
    hide Step;
    MarkerLine(rx, START);
    RunCons(rx, START, "---", [line] + ([opener] + body));
    RunCons(rx, START, line, [opener] + body);
    RunCons(rx, st, opener, body);
  }

  lemma OpenerPlain(rows: seq<Bucket>)
    ensures StripCr(Opener(rows)) == Opener(rows) && StripCr("---") == "---"
  {
  }

  lemma VersionLoads(rx: Engine, styler: Styler, rows: seq<Bucket>, tail: string)
    requires AllFit(styler, rows) && Trimmed("version:" + tail)
    ensures Load(rx, StripAll(WithVersion(styler, rows, "version:" + tail))) ==
            Gated(RowsBack(rx, styler, rows), SupportedVersion(Some(VersionValue(tail))))
  {
    hide Step, Run, Finish, RowsBack, AllRowLines, StripAll, AllFit, SupportedVersion, VersionValue, Opener, Behind, Then;
    var line, version := "version:" + tail, Some(VersionValue(tail));
    StripTrimmed(line);
    OpenerPlain(rows);
    StripThree("---", line, Opener(rows), AllRowLines(styler, rows));
    VersionStep(rx, tail);
    RunOpening(rx, line, START.(version := version), Opener(rows), StripAll(AllRowLines(styler, rows)));
    BodyLoads(rx, styler, version, rows);
    FinishGated(rx, styler, version, rows);
  }

  // ---- which versions pass -------------------------------------------------------------------------

  /** A plain value: nothing in it is a comment, a quote, a tag or a block header. */
  predicate PlainValue(w: string) {
    w != [] && Trimmed(w) && !Contains(w, " #") && w[0] !in {'#', '!', '"', '\'', '|', '>'}
  }

  lemma SpacedTrimmed(w: string)
    requires w != [] && Trimmed(w)
    ensures Trimmed("version:" + (" " + w)) && TrimStart(" " + w) == w
  {
    hide TrimStart, Trim;
    TrimPrefix(" ", w);
    assert [] + w == w;
    TrimStartSplit([], w);
    KeyTrimmed("version:", " " + w);
  }

  lemma KeyTrimmed(key: string, value: string)
    requires key != [] && !IsWhite(key[0]) && value != [] && !IsWhite(value[|value| - 1])
    ensures Trimmed(key + value)
  {
  }

  /** A plain version passes exactly when it spells one; otherwise a document that would load is refused. */
  lemma PlainVersionIff(rx: Engine, styler: Styler, rows: seq<Bucket>, w: string)
    requires AllFit(styler, rows) && PlainValue(w)
    ensures Load(rx, StripAll(WithVersion(styler, rows, "version:" + (" " + w)))) ==
            Gated(RowsBack(rx, styler, rows), SpellsOne(w))
  {
    SpacedTrimmed(w);
    PlainWord(w);
    OneIff(w);
    VersionLoads(rx, styler, rows, " " + w);
  }

  lemma DecimalPlain(n: nat)
    ensures PlainValue(Decimal(n))
  {
    DecimalReads(n);
    DigitsNoComment(Decimal(n));
    assert IsDigit(Decimal(n)[0]) && IsDigit(Decimal(n)[|Decimal(n)| - 1]);
  }

  /** Version one loads, and every other number is refused, whatever rows the document holds. */
  lemma VersionNumber(rx: Engine, styler: Styler, rows: seq<Bucket>, n: nat)
    requires AllFit(styler, rows)
    ensures Load(rx, StripAll(WithVersion(styler, rows, "version:" + (" " + Decimal(n))))) ==
            Gated(RowsBack(rx, styler, rows), n == 1)
  {
    DecimalPlain(n);
    NumberOne(n);
    PlainVersionIff(rx, styler, rows, Decimal(n));
  }

  /** The empty document, spelled out. */
  lemma EmptyVersionNumber(rx: Engine, n: nat)
    ensures Load(rx, ["---", "version: " + Decimal(n), "ignored: []"]) == if n == 1 then Ok([]) else Err(UnsupportedVersion)
  {
    var lines := ["---", "version: " + Decimal(n), "ignored: []"];
    ConcatAssoc("version:", " ", Decimal(n));
    assert "version:" + " " == "version: ";
    DecimalPlain(n);
    SpacedTrimmed(Decimal(n));
    StripTrimmed("version:" + (" " + Decimal(n)));
    OpenerPlain([]);
    assert WithVersion(_ => Double, [], "version: " + Decimal(n)) == lines;
    assert StripAll(lines) == lines;
    VersionNumber(rx, _ => Double, [], n);
  }

  /** Quoted versions are strings, whatever they hold. */
  lemma QuotedVersionRefused(rx: Engine, styler: Styler, rows: seq<Bucket>, v: string, q: string)
    requires AllFit(styler, rows) && (q == QuoteWith('"', EscapeAll(v)) || q == QuoteWith('\'', Doubled(v)))
    ensures Load(rx, StripAll(WithVersion(styler, rows, "version:" + (" " + q)))) == Gated(RowsBack(rx, styler, rows), false)
  {
    SpacedTrimmed(q);
    assert q + [] == q;
    DoubleQuotedRoundTrip(v, []);
    SingleQuotedRoundTrip(v, []);
    VersionLoads(rx, styler, rows, " " + q);
  }

  /** So are tagged ones. */
  lemma TaggedVersionRefused(rx: Engine, styler: Styler, rows: seq<Bucket>, w: string)
    requires AllFit(styler, rows) && Trimmed("!" + w)
    ensures Load(rx, StripAll(WithVersion(styler, rows, "version:" + (" " + ("!" + w))))) == Gated(RowsBack(rx, styler, rows), false)
  {
    SpacedTrimmed("!" + w);
    VersionLoads(rx, styler, rows, " " + ("!" + w));
  }

  /** A comment behind the version does not matter. */
  lemma CommentedVersion(rx: Engine, styler: Styler, rows: seq<Bucket>, w: string, remark: string)
    requires AllFit(styler, rows) && PlainValue(w) && Trimmed("#" + remark)
    ensures Load(rx, StripAll(WithVersion(styler, rows, "version:" + (" " + (w + (" #" + remark)))))) ==
            Gated(RowsBack(rx, styler, rows), SpellsOne(w))
  {
    var value := w + (" #" + remark);
    assert value[0] == w[0] && value[|value| - 1] == ("#" + remark)[|remark|];
    SpacedTrimmed(value);
    CommentedHead(w, remark);
    PlainWord(w);
    OneIff(w);
    VersionLoads(rx, styler, rows, " " + value);
  }

  /** A plain value ends at its comment. */
  lemma CommentedHead(w: string, remark: string)
    requires PlainValue(w)
    ensures ScalarHead(w + (" #" + remark)) == (w, Plain)
  {
    var value := w + (" #" + remark);
    assert At(value, " #", |w|);
    forall j: nat | j < |w|
      ensures !At(value, " #", j)
    {
      if j + 2 <= |w| {
        assert value[j..j + 2] == w[j..j + 2];
        assert !At(w, " #", j);
      } else {
        assert value[j..j + 2][0] == w[j];
      }
    }
    assert Contains(value, " #");
    assert value[..|w|] == w;
    assert w + [] == w;
    TrimEndSplit(w, []);
  }

  /** Without a version a document that would load is refused. */
  lemma NoVersionRefused(rx: Engine, styler: Styler, rows: seq<Bucket>)
    requires AllFit(styler, rows)
    ensures Load(rx, StripAll(["---", Opener(rows)] + AllRowLines(styler, rows))) == Gated(RowsBack(rx, styler, rows), false)
  {
    hide Step, Run, RowsBack, AllRowLines, AllFit, Behind;
    var body := StripAll(AllRowLines(styler, rows));
    OpenerPlain(rows);
    assert StripAll(["---", Opener(rows)] + AllRowLines(styler, rows)) == ["---"] + ([Opener(rows)] + body);
    MarkerLine(rx, START);
    RunCons(rx, START, "---", [Opener(rows)] + body);
    RunCons(rx, START, Opener(rows), body);
    assert START == START.(version := None);
    BodyLoads(rx, styler, None, rows);
    FinishGated(rx, styler, None, rows);
  }
}
