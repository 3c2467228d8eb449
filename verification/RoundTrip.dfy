/**
 Writing a baseline and reading it back: what every document loads as, and exactly
 which baselines come back unchanged.
 */
module RoundTrip {
  import opened Wrappers
  import opened Text
  import opened Scalars
  import opened Baseline
  import opened Writer
  import opened Reader
  import opened FieldTrip
  import opened ScalarTrip
  import opened BlockTrip
  import opened RowTrip
  import opened WhiteStart

  // ---- the document ------------------------------------------------------------------------------

  predicate AllFit(styler: Styler, rows: seq<Bucket>) {
    forall i :: 0 <= i < |rows| ==> RowFits(styler, rows[i])
  }

  /** What written rows load as, one after the other. */
  function RowsBack(rx: Engine, styler: Styler, rows: seq<Bucket>): Result<seq<Bucket>, LoadError> {
    if rows == [] then Ok([])
    else
      var n := |rows| - 1;
      var before :- RowsBack(rx, styler, rows[..n]);
      var b :- IntoBucket(rx, RowRead(styler, |before|, rows[n]));
      Ok(before + [b])
  }

  function InRows(version: Option<(string, bool)>): State {
    State(version, [], None, true, 0, 0)
  }

  /** The reader behind the last written row, that row still pending. */
  function Behind(rx: Engine, styler: Styler, version: Option<(string, bool)>, rows: seq<Bucket>): Result<State, LoadError> {
    if rows == [] then Ok(InRows(version))
    else
      var n := |rows| - 1;
      var before :- RowsBack(rx, styler, rows[..n]);
      Ok(State(version, before, Some(RowRead(styler, |before|, rows[n])), true, 0, 2))
  }

  lemma FlushBehind(rx: Engine, styler: Styler, version: Option<(string, bool)>, rows: seq<Bucket>)
    ensures match Behind(rx, styler, version, rows)
            case Err(e) => RowsBack(rx, styler, rows) == Err(e)
            case Ok(st) =>
              match RowsBack(rx, styler, rows)
              case Err(e) => Flush(rx, st) == Err(e)
              case Ok(bs) => Flush(rx, st).Ok? && Flush(rx, st).value.buckets == bs
                             && Flush(rx, st).value.version == version && Flush(rx, st).value.inIgnored
  {
  }

  lemma RowNotOpen(styler: Styler, idx: nat, b: Bucket)
    requires RowFits(styler, b)
    ensures !RowRead(styler, idx, b).quoteOpen
  {
    DecimalReads(b.count);
    assert Decimal(b.count) != [];
  }

  /** What a run over more lines does, from the outcome of the first ones. */
  lemma RunOn(rx: Engine, st: State, a: seq<string>, b: seq<string>, behind: Result<State, LoadError>)
    requires Run(rx, st, a) == behind
    ensures Run(rx, st, a + b) == Then(rx, behind, b)
  {
    RunAppend(rx, st, a, b);
  }

  lemma RowLinesSnoc(styler: Styler, rows: seq<Bucket>)
    requires rows != []
    ensures StripAll(AllRowLines(styler, rows)) ==
            StripAll(AllRowLines(styler, rows[..|rows| - 1])) + StripAll(RowLines(styler, rows[|rows| - 1]))
  {
    StripAppend(AllRowLines(styler, rows[..|rows| - 1]), RowLines(styler, rows[|rows| - 1]));
  }

  lemma BehindAtRow(rx: Engine, styler: Styler, version: Option<(string, bool)>, rows: seq<Bucket>)
    requires AllFit(styler, rows)
    ensures Behind(rx, styler, version, rows).Ok? ==> AtRow(Behind(rx, styler, version, rows).value)
  {
    if rows != [] && Behind(rx, styler, version, rows).Ok? {
      RowNotOpen(styler, |Behind(rx, styler, version, rows).value.buckets|, rows[|rows| - 1]);
    }
  }

  /** One more row behind the rows already read. */
  lemma RowBehind(rx: Engine, styler: Styler, version: Option<(string, bool)>, rows: seq<Bucket>)
    requires AllFit(styler, rows) && rows != []
    ensures match Behind(rx, styler, version, rows[..|rows| - 1])
            case Err(e) => Behind(rx, styler, version, rows) == Err(e)
            case Ok(st) => Run(rx, st, StripAll(RowLines(styler, rows[|rows| - 1]))) == Behind(rx, styler, version, rows)
  {
    var front := rows[..|rows| - 1];
    FlushBehind(rx, styler, version, front);
    BehindAtRow(rx, styler, version, front);
    match Behind(rx, styler, version, front)
    case Err(_) =>
    case Ok(st) => RowRun(rx, st, styler, rows[|rows| - 1]);
  }

  lemma {:induction false} RowsRun(rx: Engine, styler: Styler, version: Option<(string, bool)>, rows: seq<Bucket>)
    requires AllFit(styler, rows)
    ensures Run(rx, InRows(version), StripAll(AllRowLines(styler, rows))) == Behind(rx, styler, version, rows)
    decreases |rows|
  {
    if rows == [] {
      assert StripAll(AllRowLines(styler, rows)) == [];
    } else {
      var front := rows[..|rows| - 1];
      RowsRun(rx, styler, version, front);
      RowLinesSnoc(styler, rows);
      RunOn(rx, InRows(version), StripAll(AllRowLines(styler, front)), StripAll(RowLines(styler, rows[|rows| - 1])),
            Behind(rx, styler, version, front));
      RowBehind(rx, styler, version, rows);
    }
  }

  // ---- the head of the document ------------------------------------------------------------------

  const VERSION_ONE: Option<(string, bool)> := Some(("1", false))

  lemma MarkerLine(rx: Engine, st: State)
    ensures Step(rx, st, "---") == Ok(st)
  {
    TrimOfTrimmed("---");
  }

  lemma TopLine(rx: Engine, st: State, raw: string)
    requires Trimmed(raw) && raw != [] && st.cur.None?
    requires raw[0] != '-' && raw[0] != '#' && Contains(raw, ":")
    ensures Step(rx, st, raw) == TopLevelKey(st, raw)
  {
    TrimOfTrimmed(raw);
    assert raw[0..1][0] == raw[0];
    NotAnItem(raw);
    StartsOff(raw);
  }

  /** A line at the margin that is not an item, a comment or the marker. */
  lemma StartsOff(raw: string)
    requires raw != [] && !IsWhite(raw[0]) && raw[0] != '-' && raw[0] != '#'
    ensures !Skipped(raw) && !StartsWith(raw, " ") && !StartsWith(raw, "-") && Indent(raw) == 0
  {
    assert raw[0..1][0] == raw[0];
    assert LeadWhite(raw, 0) == 0;
    assert raw[..0] == [];
  }

  lemma PlainWord(w: string)
    requires Trimmed(w) && !Contains(w, " #")
    requires w == [] || w[0] !in {'#', '!', '"', '\'', '|', '>'}
    ensures ScalarHead(w) == (w, Plain) && UnyamlScalar(w) == w
  {
    TrimOfTrimmed(w);
    assert w + [] == w;
    TrimEndSplit(w, []);
  }

  lemma NoComment(w: string)
    requires forall i :: 0 <= i < |w| ==> w[i] != ' '
    ensures !Contains(w, " #")
  {
    forall i: nat | i + 2 <= |w|
      ensures !At(w, " #", i)
    {
      assert w[i..i + 2][0] == w[i];
    }
  }

  lemma VersionText()
    ensures VersionValue(" 1") == ("1", false)
  {
    hide TrimStart;
    assert " 1" == " " + "1";
    TrimPrefix(" ", "1");
    assert [] + "1" == "1";
    TrimStartSplit([], "1");
    NoComment("1");
    PlainWord("1");
  }

  lemma VersionSupported()
    ensures SupportedVersion(VERSION_ONE)
  {
    assert ParseDigits("1") == Some(1);
  }

  lemma VersionLine(rx: Engine)
    ensures Step(rx, START, "version: 1") == Ok(START.(version := VERSION_ONE))
    ensures SupportedVersion(VERSION_ONE)
  {
    var raw := "version: 1";
    assert At(raw, ":", 7);
    TopLine(rx, START, raw);
    assert At(raw, "version:", 0);
    assert raw[8..] == " 1";
    VersionText();
    VersionSupported();
  }

  lemma IgnoredLine(rx: Engine, st: State, tail: string)
    requires st.cur.None? && Trimmed("ignored:" + tail)
    ensures Step(rx, st, "ignored:" + tail) == TopLevelKey(st, "ignored:" + tail)
    ensures TopLevelKey(st, "ignored:" + tail) ==
            match IgnoredValue(tail) case Err(e) => Err(e) case Ok(open) => Ok(st.(inIgnored := open))
  {
    var raw := "ignored:" + tail;
    assert raw[0] == 'i';
    assert raw[7..8] == ":";
    assert At(raw, ":", 7);
    TopLine(rx, st, raw);
    assert raw[0..8] == "ignored:";
    assert raw[8..] == tail;
    assert "ignored:"[0] != "version:"[0];
  }

  lemma IgnoredOpens(rx: Engine, st: State)
    requires st.cur.None?
    ensures Step(rx, st, "ignored:") == Ok(st.(inIgnored := true))
  {
    assert "ignored:" + [] == "ignored:";
    IgnoredLine(rx, st, []);
    NoComment([]);
    PlainWord([]);
    assert TrimStart([]) == [];
  }

  lemma IgnoredBrackets()
    ensures IgnoredValue(" []") == Ok(false)
  {
    hide TrimStart;
    assert " []" == " " + "[]";
    TrimPrefix(" ", "[]");
    assert [] + "[]" == "[]";
    TrimStartSplit([], "[]");
    NoComment("[]");
    PlainWord("[]");
  }

  lemma IgnoredEmpty(rx: Engine, st: State)
    requires st.cur.None?
    ensures Step(rx, st, "ignored: []") == Ok(st.(inIgnored := false))
  {
    assert "ignored:" + " []" == "ignored: []";
    IgnoredLine(rx, st, " []");
    IgnoredBrackets();
  }

  lemma ThreeLines(a: string, b: string, c: string, rest: seq<string>)
    ensures [a, b, c] + rest == [a] + ([b] + ([c] + rest))
  {
  }

  lemma {:induction false} RunThree(rx: Engine, st: State, a: string, b: string, c: string, rest: seq<string>,
                                    st1: State, st2: State, st3: State)
    requires Step(rx, st, a) == Ok(st1) && Step(rx, st1, b) == Ok(st2) && Step(rx, st2, c) == Ok(st3)
    ensures Run(rx, st, [a, b, c] + rest) == Run(rx, st3, rest)
  {
    ThreeLines(a, b, c, rest);
    RunCons(rx, st, a, [b] + ([c] + rest));
    RunCons(rx, st1, b, [c] + rest);
    RunCons(rx, st2, c, rest);
  }

  lemma {:induction false} HeadRun(rx: Engine, last: string, st: State, rest: seq<string>)
    requires Step(rx, START.(version := VERSION_ONE), last) == Ok(st)
    ensures Run(rx, START, ["---", "version: 1", last] + rest) == Run(rx, st, rest)
  {
    MarkerLine(rx, START);
    VersionLine(rx);
    RunThree(rx, START, "---", "version: 1", last, rest, START, START.(version := VERSION_ONE), st);
  }

  lemma StripHead(last: string, rest: seq<string>)
    requires last != [] && last[|last| - 1] != '\r'
    ensures StripAll(["---", "version: 1", last] + rest) == ["---", "version: 1", last] + StripAll(rest)
  {
    assert StripCr("---") == "---" && StripCr("version: 1") == "version: 1" && StripCr(last) == last;
  }

  lemma EmptyLoads(rx: Engine)
    ensures Load(rx, StripAll(["---", "version: 1", "ignored: []"])) == Ok([])
  {
    var start := START.(version := VERSION_ONE);
    VersionLine(rx);
    IgnoredEmpty(rx, start);
    HeadRun(rx, "ignored: []", start.(inIgnored := false), []);
    StripHead("ignored: []", []);
    assert ["---", "version: 1", "ignored: []"] + [] == ["---", "version: 1", "ignored: []"];
  }

  lemma RowsLoad(rx: Engine, styler: Styler, rows: seq<Bucket>)
    requires AllFit(styler, rows)
    ensures Load(rx, StripAll(["---", "version: 1", "ignored:"] + AllRowLines(styler, rows))) == RowsBack(rx, styler, rows)
  {
    hide AllFit, StripAll, RowRead, Step, Decode;
    var start := START.(version := VERSION_ONE);
    VersionLine(rx);
    IgnoredOpens(rx, start);
    HeadRun(rx, "ignored:", InRows(VERSION_ONE), StripAll(AllRowLines(styler, rows)));
    StripHead("ignored:", AllRowLines(styler, rows));
    RowsRun(rx, styler, VERSION_ONE, rows);
    FlushBehind(rx, styler, VERSION_ONE, rows);
  }

  /**
   What a written baseline loads as, without any precondition on whether its values
   survive: the rows it reads back as, or the first row's error.
   */
  lemma DocumentLoads(rx: Engine, styler: Styler, rows: seq<Bucket>)
    requires AllFit(styler, rows)
    ensures Load(rx, StripAll(DocumentLines(styler, rows))) == RowsBack(rx, styler, rows)
  {
    if rows == [] {
      EmptyLoads(rx);
    } else {
      RowsLoad(rx, styler, rows);
    }
  }

  // ---- exactly the baselines that come back ----------------------------------------------------------

  /** The row's values survive their styles, its pattern compiles and its count is one the reader accepts. */
  predicate RowSurvives(rx: Engine, styler: Styler, b: Bucket) {
    && ScalarSurvives(styler(b.file), 8, b.file)
    && ScalarSurvives(styler(b.rule), 8, b.rule)
    && (b.message.Some? ==>
          ScalarSurvives(styler(b.message.value), 11, b.message.value) && rx.compiles(b.message.value))
    && 0 < b.count < 0x8000_0000_0000_0000
  }

  lemma RowFields(styler: Styler, idx: nat, b: Bucket)
    ensures var r := RowRead(styler, idx, b);
            && FieldText(r, File) == ReadBack(styler(b.file), 8, b.file)
            && FieldText(r, Rule) == ReadBack(styler(b.rule), 8, b.rule)
            && FieldText(r, Message) == (if b.message.None? then None else ReadBack(styler(b.message.value), 11, b.message.value))
            && CountOf(r) == if 0 < b.count < 0x8000_0000_0000_0000 then Some(b.count) else None
  {
    var base := MessageRead(styler, HeadRead(styler, idx, b), b.message);
    HeadFields(styler, idx, b);
    CountFields(base, b.count);
  }

  lemma HeadFields(styler: Styler, idx: nat, b: Bucket)
    ensures var r := MessageRead(styler, HeadRead(styler, idx, b), b.message);
            && FieldText(r, File) == ReadBack(styler(b.file), 8, b.file)
            && FieldText(r, Rule) == ReadBack(styler(b.rule), 8, b.rule)
            && FieldText(r, Message) == (if b.message.None? then None else ReadBack(styler(b.message.value), 11, b.message.value))
  {
    var r := HeadRead(styler, idx, b);
    TailField(NewRow(idx), File, ReadTail(styler(b.file), 8, b.file));
    TailField(WithTail(NewRow(idx), File, ReadTail(styler(b.file), 8, b.file)), Rule, ReadTail(styler(b.rule), 8, b.rule));
    if b.message.Some? {
      TailField(r, Message, ReadTail(styler(b.message.value), 11, b.message.value));
    }
  }

  lemma TailField(r: Row, f: Field, t: Tail)
    ensures FieldText(WithTail(r, f, t), f) == NonNull(t.fv)
    ensures forall g: Field :: g != f ==> FieldText(WithTail(r, f, t), g) == FieldText(r, g)
  {
  }

  lemma CountFields(r: Row, n: nat)
    ensures var r' := SetField(r, Count, Decimal(n), Plain);
            && CountOf(r') == (if 0 < n < 0x8000_0000_0000_0000 then Some(n) else None)
            && forall g: Field :: g != Count ==> FieldText(r', g) == FieldText(r, g)
  {
    CountReads(n);
  }

  lemma RowBackIff(rx: Engine, styler: Styler, idx: nat, b: Bucket)
    requires RowFits(styler, b)
    ensures IntoBucket(rx, RowRead(styler, idx, b)) == Ok(b) <==> RowSurvives(rx, styler, b)
  {
    hide RowRead, ScalarSurvives, FieldText, CountOf, NonNull, ReadTail, Trim;
    RowFields(styler, idx, b);
    ScalarTripIff(styler(b.file), 8, b.file);
    ScalarTripIff(styler(b.rule), 8, b.rule);
    if b.message.Some? {
      ScalarTripIff(styler(b.message.value), 11, b.message.value);
    }
  }

  lemma RowsBackStep(rx: Engine, styler: Styler, rows: seq<Bucket>)
    requires rows != []
    ensures var n := |rows| - 1;
            RowsBack(rx, styler, rows) == Ok(rows) <==>
            RowsBack(rx, styler, rows[..n]) == Ok(rows[..n]) && IntoBucket(rx, RowRead(styler, n, rows[n])) == Ok(rows[n])
  {
    var n := |rows| - 1;
    assert rows == rows[..n] + [rows[n]];
    match RowsBack(rx, styler, rows[..n])
    case Err(_) =>
    case Ok(before) =>
      match IntoBucket(rx, RowRead(styler, |before|, rows[n]))
      case Err(_) =>
      case Ok(b) => AppendSame(rows[..n], rows[n], before, b);
  }

  predicate AllRowsSurvive(rx: Engine, styler: Styler, rows: seq<Bucket>) {
    forall b :: b in rows ==> RowSurvives(rx, styler, b)
  }

  lemma {:induction false} RowsBackIff(rx: Engine, styler: Styler, rows: seq<Bucket>)
    requires AllFit(styler, rows)
    ensures RowsBack(rx, styler, rows) == Ok(rows) <==> AllRowsSurvive(rx, styler, rows)
    decreases |rows|
  {
    if rows != [] {
      var n := |rows| - 1;
      RowsBackStep(rx, styler, rows);
      RowsBackIff(rx, styler, rows[..n]);
      RowBackIff(rx, styler, n, rows[n]);
      SurviveSnoc(rx, styler, rows);
    }
  }

  lemma SurviveSnoc(rx: Engine, styler: Styler, rows: seq<Bucket>)
    requires rows != []
    ensures var n := |rows| - 1;
            AllRowsSurvive(rx, styler, rows) <==> AllRowsSurvive(rx, styler, rows[..n]) && RowSurvives(rx, styler, rows[n])
  {
    var n := |rows| - 1;
    assert rows == rows[..n] + [rows[n]];
  }

  // ---- the whole round trip ------------------------------------------------------------------------------

  predicate AllChosen(styler: Styler, rows: seq<Bucket>) {
    forall i :: 0 <= i < |rows| ==> RowChosen(styler, rows[i])
  }

  lemma StylesFit(letters: Letters, rows: seq<Bucket>)
    ensures AllChosen(StyleBy(letters), rows)
  {
    forall i | 0 <= i < |rows|
      ensures RowChosen(StyleBy(letters), rows[i])
    {
      StyleFits(letters, rows[i].file);
      StyleFits(letters, rows[i].rule);
      if rows[i].message.Some? {
        StyleFits(letters, rows[i].message.value);
      }
    }
  }

  lemma {:induction false} BackLength(rx: Engine, styler: Styler, rows: seq<Bucket>)
    ensures RowsBack(rx, styler, rows).Ok? ==> |RowsBack(rx, styler, rows).value| == |rows|
  {
    if rows != [] {
      BackLength(rx, styler, rows[..|rows| - 1]);
    }
  }

  lemma LostFirst(rx: Engine, styler: Styler, version: Option<(string, bool)>, front: seq<Bucket>, b: Bucket)
    requires AllFit(styler, front) && RowChosen(styler, b) && !RowFits(styler, b)
    ensures Behind(rx, styler, version, front).Ok? ==>
              LostAfter(rx, Run(rx, Behind(rx, styler, version, front).value, StripAll(RowLines(styler, b))), front + [b])
  {
    hide Run, RowLines;
    FlushBehind(rx, styler, version, front);
    BehindAtRow(rx, styler, version, front);
    BackLength(rx, styler, front);
    match Behind(rx, styler, version, front)
    case Err(_) =>
    case Ok(st) => SpoiledRow(rx, st, styler, front, b);
  }

  /** Rows of which some value starts with white space in the plain style. */
  lemma {:induction false} LostRows(rx: Engine, styler: Styler, version: Option<(string, bool)>, rows: seq<Bucket>)
    requires AllChosen(styler, rows) && !AllFit(styler, rows)
    ensures LostAfter(rx, Run(rx, InRows(version), StripAll(AllRowLines(styler, rows))), rows)
    decreases |rows|
  {
    var front, b := rows[..|rows| - 1], rows[|rows| - 1];
    FrontLast(rows);
    var lines := StripAll(AllRowLines(styler, front));
    RowLinesSnoc(styler, rows);
    RunOn(rx, InRows(version), lines, StripAll(RowLines(styler, b)), Run(rx, InRows(version), lines));
    if AllFit(styler, front) {
      RowsRun(rx, styler, version, front);
      LostFirst(rx, styler, version, front, b);
    } else {
      LostRows(rx, styler, version, front);
      match Run(rx, InRows(version), lines) {
        case Err(_) =>
        case Ok(st) => LostRow(rx, st, styler, front, b);
      }
    }
  }

  lemma LostLoads(rx: Engine, styler: Styler, rows: seq<Bucket>)
    requires AllChosen(styler, rows) && !AllFit(styler, rows)
    ensures Load(rx, StripAll(DocumentLines(styler, rows))) != Ok(rows)
  {
    hide AllFit, StripAll, Step;
    var start := START.(version := VERSION_ONE);
    VersionLine(rx);
    IgnoredOpens(rx, start);
    HeadRun(rx, "ignored:", InRows(VERSION_ONE), StripAll(AllRowLines(styler, rows)));
    StripHead("ignored:", AllRowLines(styler, rows));
    LostRows(rx, styler, VERSION_ONE, rows);
  }

  lemma LostDies(rx: Engine, styler: Styler, rows: seq<Bucket>)
    requires AllChosen(styler, rows) && !AllFit(styler, rows)
    ensures !AllRowsSurvive(rx, styler, rows)
  {
    var i :| 0 <= i < |rows| && !RowFits(styler, rows[i]);
    var b := rows[i];
    assert b in rows;
    if !Fits(styler(b.file), b.file) {
      SpoiledDies(styler(b.file), 8, b.file);
    } else if !Fits(styler(b.rule), b.rule) {
      SpoiledDies(styler(b.rule), 8, b.rule);
    } else {
      SpoiledDies(styler(b.message.value), 11, b.message.value);
    }
  }

  // ---- lines of the document ------------------------------------------------------------------------------

  lemma PieceFeeds(s: string, col: nat)
    requires '\n' !in s
    ensures NoFeeds(Fold(s, col))
    decreases |s|
  {
    if s != [] {
      assert '\n' !in s[1..];
      if s[0] == ' ' && col > MARGIN {
        PieceFeeds(s[1..], HANG);
      } else {
        PieceFeeds(s[1..], col + 1);
      }
    }
  }

  lemma HexFeeds(n: nat)
    requires n < 256
    ensures '\n' !in HexPair(n)
  {
    assert forall i :: 0 <= i < 16 ==> HEX[i] != '\n';
  }

  lemma EscapedFeeds(c: char)
    ensures '\n' !in EscapeDq(c)
  {
    hide HexPair;
    if IsControl(c) {
      HexFeeds(c as int);
    }
  }

  lemma {:induction false} EscapeFeeds(s: string)
    ensures '\n' !in EscapeAll(s)
  {
    if s != [] {
      EscapeFeeds(s[1..]);
      EscapedFeeds(s[0]);
    }
  }

  lemma TextFeeds(style: Style, width: nat, v: string)
    requires Chosen(style, v)
    ensures '\n' !in FieldTexts(style, width, v).0
  {
    match style
    case Literal =>
    case Double => EscapeFeeds(v);
    case TaggedSingle => DoubledKeeps(v, '\n');
    case Single => SplitPieces(QuoteWith('\'', Doubled(v)), '\n');
    case PlainStyle => PieceFeeds(v, width);
  }

  lemma LiteralFeeds(v: string)
    requires v != []
    ensures NoFeeds(BlockLines(BlockTexts(v)))
  {
    BlockTextsSpell(v);
  }

  lemma RestFeeds(style: Style, width: nat, v: string)
    requires Chosen(style, v)
    ensures NoFeeds(FieldTexts(style, width, v).1)
  {
    match style
    case Literal => LiteralFeeds(v);
    case Double =>
    case TaggedSingle =>
    case Single => SplitPieces(QuoteWith('\'', Doubled(v)), '\n');
    case PlainStyle => PieceFeeds(v, width);
  }

  lemma FieldFeeds(styler: Styler, prefix: string, v: string)
    requires Chosen(styler(v), v) && '\n' !in prefix
    ensures NoFeeds(FieldLines(styler, prefix, v))
  {
    TextFeeds(styler(v), |prefix|, v);
    RestFeeds(styler(v), |prefix|, v);
  }

  lemma RowFeeds(styler: Styler, b: Bucket)
    requires RowChosen(styler, b)
    ensures NoFeeds(RowLines(styler, b))
  {
    hide FieldLines;
    FieldFeeds(styler, "- file: ", b.file);
    FieldFeeds(styler, "  rule: ", b.rule);
    if b.message.Some? {
      FieldFeeds(styler, "  message: ", b.message.value);
    }
    DecimalReads(b.count);
  }

  lemma {:induction false} RowsFeeds(styler: Styler, rows: seq<Bucket>)
    requires AllChosen(styler, rows)
    ensures NoFeeds(AllRowLines(styler, rows))
    decreases |rows|
  {
    if rows != [] {
      RowsFeeds(styler, rows[..|rows| - 1]);
      RowFeeds(styler, rows[|rows| - 1]);
    }
  }

  /** Reading the written text splits it at the lines that were written. */
  lemma DocumentSplits(styler: Styler, rows: seq<Bucket>)
    requires AllChosen(styler, rows)
    ensures Lines(Unlines(DocumentLines(styler, rows))) == StripAll(DocumentLines(styler, rows))
  {
    DocumentFeeds(styler, rows);
    LinesOfUnlines(DocumentLines(styler, rows));
  }

  lemma HeadFeeds(last: string, rest: seq<string>)
    requires '\n' !in last && NoFeeds(rest)
    ensures NoFeeds(["---", "version: 1", last] + rest)
  {
    forall i | 0 <= i < 3
      ensures '\n' !in ["---", "version: 1", last][i]
    {
    }
  }

  lemma DocumentFeeds(styler: Styler, rows: seq<Bucket>)
    requires AllChosen(styler, rows)
    ensures NoFeeds(DocumentLines(styler, rows))
  {
    RowsFeeds(styler, rows);
    HeadFeeds("ignored: []", []);
    HeadFeeds("ignored:", AllRowLines(styler, rows));
    assert ["---", "version: 1", "ignored: []"] + [] == ["---", "version: 1", "ignored: []"];
  }

  /**
   The round trip, exactly: a written baseline loads as the same rows in the same
   order if and only if every value survives its style, every pattern compiles and
   every count is positive and fits a signed 64-bit integer.
   */
  lemma BaselineRoundTripIff(rx: Engine, letters: Letters, rows: seq<Bucket>)
    ensures Load(rx, Lines(Unlines(DocumentLines(StyleBy(letters), rows)))) == Ok(rows) <==>
            AllRowsSurvive(rx, StyleBy(letters), rows)
  {
    var styler := StyleBy(letters);
    StylesFit(letters, rows);
    DocumentSplits(styler, rows);
    if AllFit(styler, rows) {
      DocumentLoads(rx, styler, rows);
      RowsBackIff(rx, styler, rows);
    } else {
      LostLoads(rx, styler, rows);
      LostDies(rx, styler, rows);
    }
  }

  /** Write a baseline and read the text back. */
  method SaveAndLoad(rx: Engine, letters: Letters, rows: seq<Bucket>)
    returns (text: string, r: Result<seq<Bucket>, LoadError>)
    ensures text == Unlines(DocumentLines(StyleBy(letters), rows)) && r == Load(rx, Lines(text))
    ensures AllFit(StyleBy(letters), rows) ==> r == RowsBack(rx, StyleBy(letters), rows)
    ensures r == Ok(rows) <==> AllRowsSurvive(rx, StyleBy(letters), rows)
  {
    text := ToYaml(letters, rows);
    r := Parse(rx, text);
    StylesFit(letters, rows);
    DocumentSplits(StyleBy(letters), rows);
    BaselineRoundTripIff(rx, letters, rows);
    if AllFit(StyleBy(letters), rows) {
      DocumentLoads(rx, StyleBy(letters), rows);
    }
  }
}
