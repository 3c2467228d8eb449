/** The top level of a baseline file, and rows of the wrong shape: what is passed over, and what is refused and how. */
module FileLaws {
  import opened Wrappers
  import opened Text
  import opened Scalars
  import opened Baseline
  import opened Writer
  import opened Reader
  import opened FieldTrip
  import opened RowTrip
  import opened RoundTrip
  import opened VersionGate
  import opened ReaderLaws
  import opened RowLaws

  // ---- keys at the margin -----------------------------------------------------------------------------

  function TopText(m: Member): string {
    m.key + (":" + (" " + m.word))
  }

  function TopTexts(ms: seq<Member>): (r: seq<string>)
    ensures |r| == |ms| && forall i :: 0 <= i < |r| ==> r[i] == TopText(ms[i])
  {
    seq(|ms|, i requires 0 <= i < |ms| => TopText(ms[i]))
  }

  /** Keys of any name but `ignored`. */
  predicate OtherKeys(ms: seq<Member>) {
    forall i :: 0 <= i < |ms| ==> Wordy(ms[i]) && ms[i].key != "ignored"
  }

  lemma KeyStarts(key: string, rest: string, name: string)
    requires ':' !in key && ':' !in name
    ensures StartsWith(key + (":" + rest), name + ":") <==> key == name
  {
    var s, p := key + (":" + rest), name + ":";
    if StartsWith(s, p) {
      assert s[0..|p|] == p;
      var below := s[|p|..];
      assert s == p + below;
      ConcatAssoc(name, ":", below);
      FindColon(name, below);
      FindColon(key, rest);
      assert key == s[..|key|] && name == s[..|name|];
    }
    if key == name {
      assert s[0..|p|] == p;
    }
  }

  /** The version after one more key. */
  function VersionAfter(version: Option<(string, bool)>, m: Member): Option<(string, bool)> {
    if m.key == "version" then Some((m.word, false)) else version
  }

  lemma WordValue(w: string)
    requires PlainValue(w)
    ensures VersionValue(" " + w) == (w, false)
    ensures TrimStart(" " + w) == w
  {
    SpacedTrimmed(w);
    PlainWord(w);
  }

  lemma TopStep(rx: Engine, st: State, m: Member)
    requires Wordy(m) && m.key != "ignored" && st.cur.None?
    ensures Step(rx, st, TopText(m)) == Ok(st.(inIgnored := false, version := VersionAfter(st.version, m)))
  {
    hide Step, VersionValue;
    var raw := TopText(m);
    TopShape(m);
    TopLine(rx, st, raw);
    KeyStarts(m.key, " " + m.word, "version");
    KeyStarts(m.key, " " + m.word, "ignored");
    assert "version" + ":" == "version:" && "ignored" + ":" == "ignored:";
    if m.key == "version" {
      assert raw[8..] == " " + m.word;
      WordValue(m.word);
    }
  }

  lemma TopShape(m: Member)
    requires Wordy(m)
    ensures var raw := TopText(m); Trimmed(raw) && raw != [] && raw[0] != '-' && raw[0] != '#' && Contains(raw, ":")
  {
    var raw := TopText(m);
    assert raw[|m.key|..|m.key| + 1] == ":";
    assert At(raw, ":", |m.key|);
    assert raw[0] == m.key[0] && raw[|raw| - 1] == m.word[|m.word| - 1];
  }

  lemma {:induction false} TopRun(rx: Engine, ms: seq<Member>) returns (version: Option<(string, bool)>)
    requires OtherKeys(ms)
    ensures Run(rx, START, TopTexts(ms)) == Ok(START.(version := version))
    decreases |ms|
  {
    hide Step, VersionAfter;
    if ms == [] {
      version := None;
    } else {
      var front, last := ms[..|ms| - 1], ms[|ms| - 1];
      var before := TopRun(rx, front);
      version := VersionAfter(before, last);
      assert TopTexts(ms) == TopTexts(front) + [TopText(last)];
      TopStep(rx, START.(version := before), last);
      RunAppend(rx, START, TopTexts(front), [TopText(last)]);
      RunOne(rx, START.(version := before), TopText(last));
    }
  }

  lemma BehindKeys(rx: Engine, ms: seq<Member>, line: string, rest: seq<string>) returns (st: State)
    requires OtherKeys(ms)
    ensures st.cur.None? && !st.inIgnored
    ensures Load(rx, TopTexts(ms) + ([line] + rest)) == Ends(rx, Then(rx, Step(rx, st, line), rest))
    ensures Load(rx, TopTexts(ms) + rest) == Ends(rx, Run(rx, st, rest))
  {
    hide Step, Run, Finish;
    var version := TopRun(rx, ms);
    st := START.(version := version);
    RunAppend(rx, START, TopTexts(ms), [line] + rest);
    RunAppend(rx, START, TopTexts(ms), rest);
    RunCons(rx, st, line, rest);
  }

  /** A sequence at the top level is no baseline. */
  lemma TopLevelArrayRefused(rx: Engine, ms: seq<Member>, x: string, rest: seq<string>)
    requires OtherKeys(ms) && x != [] && Trimmed(x) && x[0] != '-'
    ensures Load(rx, TopTexts(ms) + (["- " + x] + rest)) == Err(TopLevelArray)
    ensures Load(rx, TopTexts(ms) + (["-"] + rest)) == Err(TopLevelArray)
  {
    var st := BehindKeys(rx, ms, "- " + x, rest);
    DashStep(rx, st, x);
    var st2 := BehindKeys(rx, ms, "-", rest);
    DashStep(rx, st2, x);
  }

  lemma DashStep(rx: Engine, st: State, x: string)
    requires st.cur.None? && !st.inIgnored && x != [] && Trimmed(x) && x[0] != '-'
    ensures Step(rx, st, "- " + x) == Err(TopLevelArray) && Step(rx, st, "-") == Err(TopLevelArray)
  {
    var raw := "- " + x;
    assert raw[0] == '-' && raw[1] == ' ' && raw[2] == x[0] && raw[|raw| - 1] == x[|x| - 1];
    assert raw[..2] == "- ";
    MarginDash(rx, st, raw);
    MarginDash(rx, st, "-");
  }

  lemma MarginDash(rx: Engine, st: State, raw: string)
    requires st.cur.None? && !st.inIgnored && raw != [] && Trimmed(raw) && raw[0] == '-' && raw != "---"
    requires raw == "-" || OpensItem(raw)
    ensures Step(rx, st, raw) == Err(TopLevelArray)
  {
    hide Trim, Indent, TrimStart;
    TrimOfTrimmed(raw);
    assert raw == Spaces(0) + raw;
    IndentOf(0, raw);
  }

  /** Text at the margin without a colon is no baseline either. */
  lemma TopLevelStringRefused(rx: Engine, ms: seq<Member>, w: string, rest: seq<string>)
    requires OtherKeys(ms) && w != [] && Trimmed(w) && w[0] != '-' && w[0] != '#' && ':' !in w
    ensures Load(rx, TopTexts(ms) + ([w] + rest)) == Err(TopLevelString)
  {
    var st := BehindKeys(rx, ms, w, rest);
    TrimOfTrimmed(w);
    StartsOff(w);
    NotAnItem(w);
    NoColon(w);
  }

  /** What is nested under another key is passed over, sequences too. */
  lemma NestedIgnored(rx: Engine, ms: seq<Member>, raw: string, rest: seq<string>)
    requires OtherKeys(ms) && raw != [] && raw[0] == ' '
    ensures Load(rx, TopTexts(ms) + ([raw] + rest)) == Load(rx, TopTexts(ms) + rest)
  {
    var st := BehindKeys(rx, ms, raw, rest);
    NestedStep(rx, st, raw);
  }

  lemma NestedStep(rx: Engine, st: State, raw: string)
    requires st.cur.None? && !st.inIgnored && raw != [] && raw[0] == ' '
    ensures Step(rx, st, raw) == Ok(st)
  {
    assert raw[0..1] == " ";
    if Trim(raw) != [] {
      var k := LeadWhite(raw, 0);
      assert k > 0;
      assert raw[..|raw| - |TrimStart(raw)|] == raw[..k];
      assert Indent(raw) >= k;
    }
  }

  /** Text that starts with a dash and is no item is passed over outside the rows. */
  lemma DashTextIgnored(rx: Engine, ms: seq<Member>, raw: string, rest: seq<string>)
    requires OtherKeys(ms) && Trimmed(raw) && |raw| > 1 && raw[0] == '-' && raw[1] != ' '
    ensures Load(rx, TopTexts(ms) + ([raw] + rest)) == Load(rx, TopTexts(ms) + rest)
  {
    var st := BehindKeys(rx, ms, raw, rest);
    DashTextStep(rx, st, raw);
  }

  lemma DashTextStep(rx: Engine, st: State, raw: string)
    requires st.cur.None? && !st.inIgnored && Trimmed(raw) && |raw| > 1 && raw[0] == '-' && raw[1] != ' '
    ensures Step(rx, st, raw) == Ok(st)
  {
    hide Trim, Indent;
    TrimOfTrimmed(raw);
    assert raw[0..2][1] == raw[1];
    assert raw[0..1] == "-";
  }

  /** `ignored:` takes rows on the lines below it, an empty array or a null, and nothing else. */
  lemma IgnoredForms(rx: Engine, ms: seq<Member>, w: string)
    requires OtherKeys(ms) && PlainValue(w)
    ensures Load(rx, TopTexts(ms) + (["ignored:" + (" " + w)] + [])) ==
            if w == "[]" || w == "~" || Lower(w) == "null" then Load(rx, TopTexts(ms)) else Err(IgnoredNotArray)
  {
    hide Lower, Step;
    var raw := "ignored:" + (" " + w);
    var st := BehindKeys(rx, ms, raw, []);
    SpacedIgnored(w);
    IgnoredLine(rx, st, " " + w);
    WordValue(w);
    PlainWord(w);
    NullSpelled(w);
    assert TopTexts(ms) + [] == TopTexts(ms);
    assert st.(inIgnored := false) == st;
  }

  lemma SpacedIgnored(w: string)
    requires w != [] && Trimmed(w)
    ensures Trimmed("ignored:" + (" " + w))
  {
    KeyTrimmed("ignored:", " " + w);
  }

  /** A quoted value is a string. */
  lemma QuotedIgnoredRefused(rx: Engine, ms: seq<Member>, v: string, q: string, rest: seq<string>)
    requires OtherKeys(ms) && (q == QuoteWith('"', EscapeAll(v)) || q == QuoteWith('\'', Doubled(v)))
    ensures Load(rx, TopTexts(ms) + (["ignored:" + (" " + q)] + rest)) == Err(IgnoredNotArray)
  {
    hide Step, EscapeAll, Doubled;
    var raw := "ignored:" + (" " + q);
    var st := BehindKeys(rx, ms, raw, rest);
    SpacedIgnored(q);
    IgnoredLine(rx, st, " " + q);
    SpacedTrimmed(q);
    assert q + [] == q;
    DoubleQuotedRoundTrip(v, []);
    SingleQuotedRoundTrip(v, []);
  }

  /** Behind an inline value of `ignored:` there can be no rows. */
  lemma RowsBehindNullRefused(rx: Engine, ms: seq<Member>, w: string, x: string, rest: seq<string>)
    requires OtherKeys(ms) && PlainValue(w) && (w == "[]" || w == "~" || Lower(w) == "null")
    requires x != [] && Trimmed(x) && x[0] != '-'
    ensures Load(rx, TopTexts(ms) + (["ignored:" + (" " + w)] + (["- " + x] + rest))) == Err(TopLevelArray)
  {
    hide Lower, Step;
    var raw := "ignored:" + (" " + w);
    var st := BehindKeys(rx, ms, raw, ["- " + x] + rest);
    SpacedIgnored(w);
    IgnoredLine(rx, st, " " + w);
    WordValue(w);
    PlainWord(w);
    NullSpelled(w);
    assert st.(inIgnored := false) == st;
    RunCons(rx, st, "- " + x, rest);
    DashStep(rx, st, x);
  }

  /** The version may follow the rows. */
  lemma VersionLast(rx: Engine, styler: Styler, rows: seq<Bucket>, w: string)
    requires AllFit(styler, rows) && PlainValue(w)
    ensures Load(rx, ["ignored:"] + (StripAll(AllRowLines(styler, rows)) + ["version:" + (" " + w)])) ==
            Gated(RowsBack(rx, styler, rows), SpellsOne(w))
  {
    hide Step, Run, Finish, AllFit, RowsBack, Behind, SupportedVersion;
    var body, line := StripAll(AllRowLines(styler, rows)), "version:" + (" " + w);
    IgnoredOpens(rx, START);
    RunCons(rx, START, "ignored:", body + [line]);
    assert START.(inIgnored := true) == InRows(None);
    RunAppend(rx, InRows(None), body, [line]);
    RowsRun(rx, styler, None, rows);
    BehindAtRow(rx, styler, None, rows);
    FlushBehind(rx, styler, None, rows);
    OneIff(w);
    match Behind(rx, styler, None, rows)
    case Err(_) =>
    case Ok(st) =>
      VersionFlushes(rx, st, w);
      RunOne(rx, st, line);
      LastEnds(rx, st, w);
  }

  lemma VersionFlushes(rx: Engine, st: State, w: string)
    requires AtRow(st) && PlainValue(w)
    ensures Step(rx, st, "version:" + (" " + w)) ==
            match Flush(rx, st) case Err(e) => Err(e) case Ok(fl) => Ok(fl.(inIgnored := false, version := Some((w, false))))
  {
    hide Step, VersionValue;
    var raw := "version:" + (" " + w);
    SpacedTrimmed(w);
    assert raw[7..8] == ":" && raw[0..8] == "version:" && raw[8..] == " " + w;
    assert At(raw, ":", 7);
    MarginKey(rx, st, raw);
    WordValue(w);
  }

  /** A key at the margin ends the row before it. */
  lemma MarginKey(rx: Engine, st: State, raw: string)
    requires AtRow(st) && raw != [] && Trimmed(raw) && raw[0] != '-' && raw[0] != '#' && Contains(raw, ":")
    ensures Step(rx, st, raw) == match Flush(rx, st) case Err(e) => Err(e) case Ok(fl) => TopLevelKey(fl, raw)
  {
    hide Trim, Indent, TrimStart, TopLevelKey, IntoBucket;
    TrimOfTrimmed(raw);
    StartsOff(raw);
    NotAnItem(raw);
  }

  lemma LastEnds(rx: Engine, st: State, w: string)
    requires AtRow(st) && PlainValue(w)
    ensures Flush(rx, st).Err? ==> Ends(rx, Step(rx, st, "version:" + (" " + w))) == Err(Flush(rx, st).error)
    ensures Flush(rx, st).Ok? ==>
              Ends(rx, Step(rx, st, "version:" + (" " + w))) ==
              Gated(Ok(Flush(rx, st).value.buckets), SupportedVersion(Some((w, false))))
  {
    hide Step, IntoBucket, SupportedVersion;
    VersionFlushes(rx, st, w);
  }

  // ---- rows of the wrong shape ----------------------------------------------------------------------------

  lemma RowsThen(rx: Engine, styler: Styler, rows: seq<Bucket>, lines: seq<string>)
    requires AllFit(styler, rows)
    ensures Load(rx, ["---", "version: 1", "ignored:"] + (StripAll(AllRowLines(styler, rows)) + lines)) ==
            Ends(rx, Then(rx, Behind(rx, styler, VERSION_ONE, rows), lines))
  {
    hide Run, Finish;
    var before := StripAll(AllRowLines(styler, rows));
    HeadOpens(rx, before + lines);
    RunAppend(rx, InRows(VERSION_ONE), before, lines);
    RowsRun(rx, styler, VERSION_ONE, rows);
  }

  function Failed(back: Result<seq<Bucket>, LoadError>, error: nat -> LoadError): Result<seq<Bucket>, LoadError> {
    match back case Err(e) => Err(e) case Ok(bs) => Err(error(|bs|))
  }

  lemma KeyEnds(rx: Engine, st: State, m: Member)
    requires AtRow(st) && Wordy(m) && m.key != "ignored"
    ensures var r := Step(rx, st, TopText(m));
            if Flush(rx, st).Err? then r == Err(Flush(rx, st).error) else r.Ok? && r.value.cur.None? && !r.value.inIgnored
  {
    hide Step, VersionValue, IntoBucket;
    var raw := TopText(m);
    TopShape(m);
    MarginKey(rx, st, raw);
    KeyStarts(m.key, " " + m.word, "ignored");
    assert "ignored" + ":" == "ignored:";
  }

  /** Any other key at the margin ends the rows: no more of them may follow. */
  lemma KeyEndsRows(rx: Engine, styler: Styler, rows: seq<Bucket>, m: Member, x: string, rest: seq<string>)
    requires AllFit(styler, rows) && Wordy(m) && m.key != "ignored" && x != [] && Trimmed(x) && x[0] != '-'
    ensures Load(rx, ["---", "version: 1", "ignored:"]
                     + (StripAll(AllRowLines(styler, rows)) + ([TopText(m)] + (["- " + x] + rest)))) ==
            Failed(RowsBack(rx, styler, rows), (_: nat) => TopLevelArray)
  {
    hide Step, Run, AllFit, RowsBack, Behind, Finish, AtRow;
    var tail := ["- " + x] + rest;
    RowsThen(rx, styler, rows, [TopText(m)] + tail);
    BehindAtRow(rx, styler, VERSION_ONE, rows);
    FlushBehind(rx, styler, VERSION_ONE, rows);
    match Behind(rx, styler, VERSION_ONE, rows)
    case Err(_) =>
    case Ok(st) =>
      RunCons(rx, st, TopText(m), tail);
      KeyEnds(rx, st, m);
      var r := Step(rx, st, TopText(m));
      if r.Ok? {
        RunCons(rx, r.value, "- " + x, rest);
        DashStep(rx, r.value, x);
      }
  }

  /** An item without a colon is no row; it is counted from the rows before it. */
  lemma RowNotHashRefused(rx: Engine, styler: Styler, rows: seq<Bucket>, w: string, rest: seq<string>)
    requires AllFit(styler, rows) && w != [] && Trimmed(w) && ':' !in w && w[0] != '-'
    ensures Load(rx, ["---", "version: 1", "ignored:"] + (StripAll(AllRowLines(styler, rows)) + (["- " + w] + rest))) ==
            Failed(RowsBack(rx, styler, rows), (idx: nat) => RowNotHash(idx))
  {
    hide Step, Run, AllFit, RowsBack, Behind, Finish;
    RowsThen(rx, styler, rows, ["- " + w] + rest);
    BehindAtRow(rx, styler, VERSION_ONE, rows);
    FlushBehind(rx, styler, VERSION_ONE, rows);
    match Behind(rx, styler, VERSION_ONE, rows)
    case Err(_) =>
    case Ok(st) =>
      RunCons(rx, st, "- " + w, rest);
      BareItem(rx, st, w);
  }

  lemma NoColon(w: string)
    requires ':' !in w
    ensures Find(w, ":") == None
  {
    forall i: nat
      ensures !At(w, ":", i)
    {
      if i + 1 <= |w| {
        assert w[i..i + 1][0] == w[i];
      }
    }
  }

  lemma BareItem(rx: Engine, st: State, w: string)
    requires AtRow(st) && w != [] && Trimmed(w) && ':' !in w && w[0] != '-'
    ensures Step(rx, st, "- " + w) ==
            match Flush(rx, st) case Err(e) => Err(e) case Ok(fl) => Err(RowNotHash(|fl.buckets|))
  {
    hide Step, Trim, Indent, Find;
    DashShape(w);
    NoColon(w);
    ItemApply(rx, st, "- " + w, w);
  }

  lemma DashShape(w: string)
    requires w != [] && Trimmed(w)
    ensures var raw := "- " + w; Trim(raw) == raw && Indent(raw) == 0 && StartsWith(raw, "-")
  {
    hide Trim, Indent;
    var raw := "- " + w;
    assert raw[0] == '-' && raw[|raw| - 1] == w[|w| - 1] && raw[..1] == "-";
    TrimOfTrimmed(raw);
    assert raw == Spaces(0) + raw;
    IndentOf(0, raw);
  }

  /** A member line without a colon is malformed. */
  lemma MalformedRefused(rx: Engine, styler: Styler, rows: seq<Bucket>, file: string, ms: seq<Member>, w: string, rest: seq<string>)
    requires AllFit(styler, rows) && PlainValue(file) && AllWordy(ms)
    requires w != [] && Trimmed(w) && ':' !in w && w != "---" && w[0] != '#' && !(|w| >= 2 && w[..2] == "- ")
    ensures Load(rx, ["---", "version: 1", "ignored:"]
                     + (StripAll(AllRowLines(styler, rows)) + (ItemLines(file, ms) + (["  " + w] + rest)))) ==
            Failed(RowsBack(rx, styler, rows), (_: nat) => MalformedEntry(w))
  {
    hide Step, Run, AllFit, RowsBack, Behind, Finish, Reads, ItemLines;
    var tail := ["  " + w] + rest;
    RowsThen(rx, styler, rows, ItemLines(file, ms) + tail);
    BehindAtRow(rx, styler, VERSION_ONE, rows);
    FlushBehind(rx, styler, VERSION_ONE, rows);
    match Behind(rx, styler, VERSION_ONE, rows)
    case Err(_) =>
    case Ok(st) =>
      RunAppend(rx, st, ItemLines(file, ms), tail);
      if Flush(rx, st).Err? {
        ItemRefused(rx, st, file, ms);
      } else {
        MalformedEnds(rx, st, file, ms, w, rest);
      }
  }

  lemma MalformedEnds(rx: Engine, st: State, file: string, ms: seq<Member>, w: string, rest: seq<string>)
    requires AtRow(st) && PlainValue(file) && AllWordy(ms) && Flush(rx, st).Ok?
    requires w != [] && Trimmed(w) && ':' !in w && w != "---" && w[0] != '#' && !(|w| >= 2 && w[..2] == "- ")
    ensures Then(rx, Run(rx, st, ItemLines(file, ms)), ["  " + w] + rest) == Err(MalformedEntry(w))
  {
    hide Step, Run, ItemLines;
    var r := ItemRun(rx, st, file, ms);
    FlushKeeps(rx, st);
    var mid := Flush(rx, st).value.(cur := Some(r), itemCol := 0, memberCol := 2);
    RunCons(rx, mid, "  " + w, rest);
    var raw := "  " + w;
    TrimPrefix("  ", w);
    TrimOfTrimmed(w);
    assert raw == Spaces(2) + w;
    IndentOf(2, w);
    assert raw[0..1] == " ";
    NoColon(w);
    BareMember(rx, mid, raw, w);
  }

  lemma BareMember(rx: Engine, st: State, raw: string, w: string)
    requires InRow(st) && Trim(raw) == w && Indent(raw) == 2 && StartsWith(raw, " ")
    requires w != [] && w != "---" && w[0] != '#' && !(|w| >= 2 && w[..2] == "- ") && Find(w, ":") == None
    ensures Step(rx, st, raw) == Err(MalformedEntry(w))
  {
    hide Trim, Indent, Find, Flush;
  }


  /** A quoted count is a string. */
  lemma QuotedCountRefused(rx: Engine, file: string, rule: string, v: string, q: string)
    requires PlainValue(file) && PlainValue(rule) && Present(Some(file)).Some? && Present(Some(rule)).Some?
    requires q == QuoteWith('"', EscapeAll(v)) || (q == QuoteWith('\'', Doubled(v)))
    ensures Load(rx, ["---", "version: 1", "ignored:"] + (ItemLines(file, [Member("rule", rule)]) + ["  count: " + q])) ==
            Err(BadCount(0))
  {
    hide Step, Run, Finish, ItemLines, EscapeAll, Doubled, PlainValue, ScalarHead, Trim, DqClosed, SqClosed, Present;
    var ms := [Member("rule", rule)];
    var all := [Member("file", file)] + ms;
    var st := InRows(VERSION_ONE);
    assert AllWordy(ms) by { assert KeyWord("rule"); }
    HeadOpens(rx, ItemLines(file, ms) + ["  count: " + q]);
    var r := ItemRun(rx, st, file, ms);
    var mid := st.(cur := Some(r), itemCol := 0, memberCol := 2);
    RunAppend(rx, st, ItemLines(file, ms), ["  count: " + q]);
    QuotedCountLine(rx, mid, v, q);
    RunOne(rx, mid, "  count: " + q);
    QuotedCountEnds(rx, r, file, rule, q, ScalarHead(Trim(q)).1);
    var end := mid.(cur := Some(SetField(r, Count, q, ScalarHead(Trim(q)).1)));
    FinishRow(rx, end);
  }

  lemma QuotedCountHead(v: string, q: string)
    requires q == QuoteWith('"', EscapeAll(v)) || q == QuoteWith('\'', Doubled(v))
    ensures ScalarHead(Trim(q)).0 == q && !ScalarHead(Trim(q)).1.Plain?
  {
    hide EscapeAll, Doubled, Trim, ScalarHead, DqClosed, SqClosed;
    assert q + [] == q;
    DoubleQuotedRoundTrip(v, []);
    SingleQuotedRoundTrip(v, []);
    TrimOfTrimmed(q);
  }

  lemma QuotedCountLine(rx: Engine, st: State, v: string, q: string)
    requires InRow(st) && (q == QuoteWith('"', EscapeAll(v)) || q == QuoteWith('\'', Doubled(v)))
    ensures ScalarHead(Trim(q)).0 == q && !ScalarHead(Trim(q)).1.Plain?
    ensures Step(rx, st, "  count: " + q) == Ok(st.(cur := Some(SetField(st.cur.value, Count, q, ScalarHead(Trim(q)).1))))
  {
    hide Step, EscapeAll, Doubled, Trim, ScalarHead, KeyWord;
    QuotedCountHead(v, q);
    var raw := "  count: " + q;
    assert StripCr(raw) == raw by { assert raw[|raw| - 1] == q[|q| - 1]; }
    assert raw == "  " + ("count" + ":") + (" " + q) by { assert "  count: " == "  " + ("count" + ":") + " "; }
    MemberWord("count");
    MemberLine(rx, st, "count", q);
  }

  lemma QuotedCountEnds(rx: Engine, r: Row, file: string, rule: string, q: string, kind: ScalarKind)
    requires Reads(r, 0, [Member("file", file)] + [Member("rule", rule)]) && q != [] && !kind.Plain?
    requires PlainValue(file) && PlainValue(rule) && Present(Some(file)).Some? && Present(Some(rule)).Some?
    ensures IntoBucket(rx, SetField(r, Count, q, kind)) == Err(BadCount(0))
  {
    hide PlainValue, Decode;
    var all := [Member("file", file)] + [Member("rule", rule)];
    assert all[..1] == [Member("file", file)];
    LastOfOne(Member("file", file), "file");
    WordText(r, File, Some(file));
    WordText(r, Rule, Some(rule));
  }

  // ---- the lines of a text ------------------------------------------------------------------------------

  /**
   A text is cut at its line feeds, and a carriage return before one goes with it. What stands behind the last feed is
   a line of its own, as it is, unless it is nothing.
   */
  lemma {:induction false} TextLines(a: seq<string>, b: string)
    requires NoFeeds(a) && '\n' !in b
    ensures Lines(Unlines(a) + b) == StripAll(a) + (if b == "" then [] else [b])
  {
    hide Lines, StripCr, StripAll;
    if a == [] {
      assert Unlines(a) + b == b;
      LastLine(b);
      assert [] + (if b == "" then [] else [b]) == if b == "" then [] else [b];
    } else {
      var rest := Unlines(a[1..]) + b;
      assert Unlines(a) + b == a[0] + "\n" + rest;
      FirstLine(a[0], rest);
      TextLines(a[1..], b);
      StripFirst(a);
      AppendAssoc([StripCr(a[0])], StripAll(a[1..]), if b == "" then [] else [b]);
    }
  }

  lemma StripFirst(a: seq<string>)
    requires a != []
    ensures StripAll(a) == [StripCr(a[0])] + StripAll(a[1..])
  {
    assert a == [a[0]] + a[1..];
    StripCons(a[0], a[1..]);
  }

  lemma FirstLine(a: string, rest: string)
    requires '\n' !in a
    ensures Lines(a + "\n" + rest) == [StripCr(a)] + Lines(rest)
  {
    hide StripCr, LineEnd;
    var s := a + "\n" + rest;
    LineEndOf(a, rest);
    assert s[..|a|] == a && s[|a| + 1..] == rest;
  }

  lemma LastLine(b: string)
    requires '\n' !in b
    ensures Lines(b) == if b == "" then [] else [b]
  {
    forall i | 0 <= i < |b|
      ensures b[i] != '\n'
    {
      assert b[i] in b;
    }
  }
}
