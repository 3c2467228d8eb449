/** Reading back one scalar in whatever style, one field and one row over all the lines they were written on. */
module RowTrip {
  import opened Wrappers
  import opened Text
  import opened Scalars
  import opened Baseline
  import opened Writer
  import opened Reader
  import opened FieldTrip
  import opened ScalarTrip
  import opened PlainTrip
  import opened BlockTrip

  // ---- one scalar, whatever its style ---------------------------------------------------

  /** The style is one that the writer could have chosen for the value. */
  predicate Fits(style: Style, v: string) {
    match style
    case Literal => v != []
    case Single => LineEnd(v) + 1 >= |v|
    case PlainStyle => PlainFit(v)
    case TaggedSingle => v == "<<"
    case Double => true
  }

  /**
   When a value comes back: a folded plain scalar needs visible text on both sides of
   every break, a single-quoted one must not end in a line feed, a literal block needs
   every line to survive; double-quoted values always do.
   */
  predicate ScalarSurvives(style: Style, width: nat, v: string) {
    match style
    case Literal => LiteralSurvives(v)
    case Single => '\n' !in v
    case PlainStyle => PlainSurvives(Fold(v, width))
    case _ => true
  }

  lemma ScalarTripIff(style: Style, width: nat, v: string)
    requires Fits(style, v)
    ensures ReadBack(style, width, v) == Some(v) <==> ScalarSurvives(style, width, v)
    ensures !ReadTail(style, width, v).open
    ensures ScalarHead(Trim(FieldTexts(style, width, v).0)).0 != []
  {
    match style
    case Literal => LiteralTripIff(width, v);
    case TaggedSingle => TaggedTrip(width, v);
    case Double => DoubleTrip(width, v);
    case PlainStyle => PlainTripIff(width, v);
    case Single =>
      if '\n' in v {
        SingleFeedFails(width, v);
      } else {
        SingleTrip(width, v);
      }
  }

  // ---- one field ---------------------------------------------------------------------------

  lemma StripHangs(p: string)
    ensures Hangs(StripCr(Spaces(HANG) + p))
  {
    var s := Spaces(HANG) + p;
    assert s[..4] == Spaces(4);
    assert p == [] ==> s[|s| - 1] == Spaces(HANG)[3];
    assert StripCr(s) == s || StripCr(s) == Spaces(HANG) + p[..|p| - 1];
  }

  /** The lines behind a field's first line can only continue it. */
  lemma RestHangs(style: Style, width: nat, v: string)
    requires Fits(style, v) && (style == Single ==> '\n' !in v)
    ensures var rest := StripAll(FieldTexts(style, width, v).1);
            forall i :: 0 <= i < |rest| ==> Hangs(rest[i])
  {
    match style
    case Literal => BlockHangs(BlockTexts(v));
    case PlainStyle => PiecesHang(Fold(v, width)[1..]);
    case Single => SingleTrip(width, v);
    case _ =>
  }

  lemma BlockHangs(texts: seq<string>)
    ensures forall i :: 0 <= i < |texts| ==> Hangs(StripCr(BlockLines(texts)[i]))
  {
    forall i | 0 <= i < |texts|
      ensures Hangs(StripCr(BlockLines(texts)[i]))
    {
      StripHangs(texts[i]);
    }
  }

  lemma PiecesHang(texts: seq<string>)
    ensures forall i :: 0 <= i < |texts| ==> Hangs(StripCr(Hang(texts)[i]))
  {
    forall i | 0 <= i < |texts|
      ensures Hangs(StripCr(Hang(texts)[i]))
    {
      StripHangs(texts[i]);
    }
  }

  /** The lines behind a field's first line leave the reader with what `ReadTail` says. */
  lemma RestRun(rx: Engine, st: State, r: Row, f: Field, style: Style, width: nat, v: string, t: Tail)
    requires Fits(style, v) && st.inIgnored && st.itemCol == 0 && st.memberCol == 2
    requires st.cur == Some(WithTail(r, f, t))
    requires var (head, kind) := ScalarHead(Trim(FieldTexts(style, width, v).0)); t == HeadTail(head, kind)
    ensures Run(rx, st, StripAll(FieldTexts(style, width, v).1)) ==
            Ok(st.(cur := Some(WithTail(r, f, ReadTail(style, width, v)))))
  {
    hide Trim, FieldTexts, TrimEnd;
    var rest := FieldTexts(style, width, v).1;
    if style == Single && '\n' in v {
      SingleFeedFails(width, v);
      assert StripAll(rest) == ["'"];
      TrimOfTrimmed("'");
      HangLine(rx, st, r, f, t, "'");
      RunOne(rx, st, "'");
      assert ["'"][..0] == [];
      assert Absorb(t, ["'"]) == AbsorbLine(t, "'");
    } else {
      RestHangs(style, width, v);
      HangLines(rx, st, r, f, t, StripAll(rest));
    }
  }

  lemma StripCons(line: string, rest: seq<string>)
    ensures StripAll([line] + rest) == [StripCr(line)] + StripAll(rest)
  {
  }

  lemma {:induction false} RunCons(rx: Engine, st: State, line: string, rest: seq<string>)
    ensures Run(rx, st, [line] + rest) == Then(rx, Step(rx, st, line), rest)
  {
    RunAppend(rx, st, [line], rest);
    RunOne(rx, st, line);
  }

  function MemberPrefix(key: string): string {
    "  " + (key + ":") + " "
  }

  /** A member field, over all its lines. */
  lemma MemberRun(rx: Engine, st: State, styler: Styler, key: string, v: string)
    requires InRow(st) && IsMemberKey(key) && Fits(styler(v), v)
    ensures var width := |MemberPrefix(key)|;
            Run(rx, st, StripAll(FieldLines(styler, MemberPrefix(key), v))) ==
            Ok(st.(cur := Some(WithTail(st.cur.value, FieldOf(key), ReadTail(styler(v), width, v)))))
  {
    hide KeyWord, IsMemberKey, Trim, ScalarHead;
    var width, style := |MemberPrefix(key)|, styler(v);
    MemberWord(key);
    var (first, rest) := FieldTexts(style, width, v);
    var (head, kind) := ScalarHead(Trim(first));
    ScalarTripIff(style, width, v);
    StripCons(MemberPrefix(key) + first, rest);
    ConcatAssoc("  " + (key + ":"), " ", first);
    RunCons(rx, st, StripCr(MemberPrefix(key) + first), StripAll(rest));
    MemberLine(rx, st, key, first);
    var t := HeadTail(head, kind);
    assert SetField(st.cur.value, FieldOf(key), head, kind) == WithTail(st.cur.value, FieldOf(key), t);
    var begun := st.(cur := Some(WithTail(st.cur.value, FieldOf(key), t)));
    RestRun(rx, begun, st.cur.value, FieldOf(key), style, width, v, t);
  }

  predicate AtRow(st: State) {
    st.inIgnored && (st.cur.Some? ==> !st.cur.value.quoteOpen && st.itemCol == 0)
  }

  /** The first field of a row: the row before it is flushed and a new one begins. */
  lemma FileRun(rx: Engine, st: State, styler: Styler, v: string)
    requires AtRow(st) && Fits(styler(v), v)
    ensures Run(rx, st, StripAll(FieldLines(styler, "- file: ", v))) ==
            match Flush(rx, st)
            case Err(e) => Err(e)
            case Ok(fl) =>
              Ok(fl.(cur := Some(WithTail(NewRow(|fl.buckets|), File, ReadTail(styler(v), 8, v))), itemCol := 0, memberCol := 2))
  {
    var style := styler(v);
    var (first, rest) := FieldTexts(style, 8, v);
    var (head, kind) := ScalarHead(Trim(first));
    ScalarTripIff(style, 8, v);
    StripCons("- file: " + first, rest);
    RunCons(rx, st, StripCr("- file: " + first), StripAll(rest));
    ItemLine(rx, st, first);
    match Flush(rx, st)
    case Err(_) =>
    case Ok(fl) =>
      var r, t := NewRow(|fl.buckets|), HeadTail(head, kind);
      assert SetField(r, File, head, kind) == WithTail(r, File, t);
      var begun := fl.(cur := Some(WithTail(r, File, t)), itemCol := 0, memberCol := 2);
      RestRun(rx, begun, r, File, style, 8, v, t);
  }

  // ---- counts --------------------------------------------------------------------------------

  predicate AllDigits(s: string) {
    forall i :: 0 <= i < |s| ==> IsDigit(s[i])
  }

  lemma {:induction false} DecimalReads(n: nat)
    ensures AllDigits(Decimal(n)) && ParseDigits(Decimal(n)) == Some(n)
    decreases n
  {
    hide Decimal;
    var last := DecimalParts(n);
    if n >= 10 {
      DecimalReads(n / 10);
    }
  }

  lemma DigitsHead(d: string)
    requires AllDigits(d) && d != []
    ensures ScalarHead(Trim(d)) == (d, Plain) && UnyamlScalar(d) == d
  {
    TrimOfTrimmed(d);
    DigitsNoComment(d);
    assert d + [] == d;
    TrimEndSplit(d, []);
  }

  /** A written count reads back exactly when it is positive and fits a signed 64-bit integer. */
  lemma CountReads(n: nat)
    ensures ScalarHead(Trim(Decimal(n))) == (Decimal(n), Plain)
    ensures ParsePositive(UnyamlScalar(Decimal(n))) == if 0 < n < 0x8000_0000_0000_0000 then Some(n) else None
  {
    DecimalReads(n);
    DigitsHead(Decimal(n));
  }

  lemma DigitsNoComment(d: string)
    requires AllDigits(d)
    ensures !Contains(d, " #")
  {
    forall i: nat | i + 2 <= |d|
      ensures !At(d, " #", i)
    {
      assert d[i..i + 2][0] == d[i];
    }
  }

  // ---- one row ---------------------------------------------------------------------------------

  predicate RowFits(styler: Styler, b: Bucket) {
    && Fits(styler(b.file), b.file)
    && Fits(styler(b.rule), b.rule)
    && (b.message.Some? ==> Fits(styler(b.message.value), b.message.value))
  }

  function HeadRead(styler: Styler, idx: nat, b: Bucket): Row {
    var r := WithTail(NewRow(idx), File, ReadTail(styler(b.file), 8, b.file));
    WithTail(r, Rule, ReadTail(styler(b.rule), 8, b.rule))
  }

  function MessageRead(styler: Styler, r: Row, message: Option<string>): Row {
    match message
    case None => r
    case Some(m) => WithTail(r, Message, ReadTail(styler(m), 11, m))
  }

  /** The row accumulator after a written row. */
  function RowRead(styler: Styler, idx: nat, b: Bucket): Row {
    SetField(MessageRead(styler, HeadRead(styler, idx, b), b.message), Count, Decimal(b.count), Plain)
  }

  lemma Prefixes()
    ensures MemberPrefix("rule") == "  rule: " && MemberPrefix("message") == "  message: "
  {
  }

  lemma RunRule(rx: Engine, st: State, styler: Styler, v: string)
    requires InRow(st) && Fits(styler(v), v)
    ensures Run(rx, st, StripAll(FieldLines(styler, "  rule: ", v))) ==
            Ok(st.(cur := Some(WithTail(st.cur.value, Rule, ReadTail(styler(v), 8, v)))))
    ensures !ReadTail(styler(v), 8, v).open
  {
    Prefixes();
    MemberRun(rx, st, styler, "rule", v);
    ScalarTripIff(styler(v), 8, v);
  }

  lemma RunPattern(rx: Engine, st: State, styler: Styler, v: string)
    requires InRow(st) && Fits(styler(v), v)
    ensures Run(rx, st, StripAll(FieldLines(styler, "  message: ", v))) ==
            Ok(st.(cur := Some(WithTail(st.cur.value, Message, ReadTail(styler(v), 11, v)))))
    ensures !ReadTail(styler(v), 11, v).open
  {
    Prefixes();
    MemberRun(rx, st, styler, "message", v);
    ScalarTripIff(styler(v), 11, v);
  }

  lemma RunMessage(rx: Engine, st: State, styler: Styler, message: Option<string>)
    requires InRow(st) && (message.Some? ==> Fits(styler(message.value), message.value))
    ensures Run(rx, st, StripAll(MessageLines(styler, message))) ==
            Ok(st.(cur := Some(MessageRead(styler, st.cur.value, message))))
    ensures !MessageRead(styler, st.cur.value, message).quoteOpen
  {
    if message.Some? {
      RunPattern(rx, st, styler, message.value);
    }
  }

  lemma RunCount(rx: Engine, st: State, n: nat)
    requires InRow(st)
    ensures Run(rx, st, StripAll([CountLine(n)])) ==
            Ok(st.(cur := Some(SetField(st.cur.value, Count, Decimal(n), Plain))))
  {
    hide Step, ScalarHead, Trim, StripCr, CountLine, Decimal, IntoBucket;
    CountSpelling(n);
    MemberLine(rx, st, "count", Decimal(n));
    CountReads(n);
    RunOne(rx, st, StripCr(CountLine(n)));
    StripOneLine(CountLine(n));
  }

  lemma CountSpelling(n: nat)
    ensures CountLine(n) == "  " + ("count" + ":") + (" " + Decimal(n))
  {
    hide Decimal;
    ConcatAssoc("  ", "count" + ":", " " + Decimal(n));
    ConcatAssoc("count", ":", " " + Decimal(n));
    ConcatAssoc("  " + "count" + ":", " ", Decimal(n));
    assert "  " + ("count" + ":") + " " == "  count: ";
  }

  lemma StripOneLine(line: string)
    ensures StripAll([line]) == [StripCr(line)]
  {
  }

  lemma StripAppend(a: seq<string>, b: seq<string>)
    ensures StripAll(a + b) == StripAll(a) + StripAll(b)
  {
  }

  lemma StripRow(styler: Styler, b: Bucket)
    ensures StripAll(RowLines(styler, b)) ==
            StripAll(FieldLines(styler, "- file: ", b.file)) + StripAll(FieldLines(styler, "  rule: ", b.rule))
            + StripAll(MessageLines(styler, b.message)) + StripAll([CountLine(b.count)])
  {
    var file, rule := FieldLines(styler, "- file: ", b.file), FieldLines(styler, "  rule: ", b.rule);
    var message := MessageLines(styler, b.message);
    StripAppend(file + rule + message, [CountLine(b.count)]);
    StripAppend(file + rule, message);
    StripAppend(file, rule);
  }

  /** The members of a row, once its file has been read. */
  lemma MembersRun(rx: Engine, st: State, styler: Styler, b: Bucket) returns (st1: State, st2: State)
    requires InRow(st) && Fits(styler(b.rule), b.rule)
    requires b.message.Some? ==> Fits(styler(b.message.value), b.message.value)
    ensures Run(rx, st, StripAll(FieldLines(styler, "  rule: ", b.rule))) == Ok(st1)
    ensures Run(rx, st1, StripAll(MessageLines(styler, b.message))) == Ok(st2)
    ensures var r := WithTail(st.cur.value, Rule, ReadTail(styler(b.rule), 8, b.rule));
            var r' := SetField(MessageRead(styler, r, b.message), Count, Decimal(b.count), Plain);
            Run(rx, st2, StripAll([CountLine(b.count)])) == Ok(st.(cur := Some(r'))) && !r'.quoteOpen
  {
    RunRule(rx, st, styler, b.rule);
    st1 := st.(cur := Some(WithTail(st.cur.value, Rule, ReadTail(styler(b.rule), 8, b.rule))));
    RunMessage(rx, st1, styler, b.message);
    st2 := st1.(cur := Some(MessageRead(styler, st1.cur.value, b.message)));
    RunCount(rx, st2, b.count);
  }

  /** A row over all its lines. */
  lemma RowRun(rx: Engine, st: State, styler: Styler, b: Bucket)
    requires AtRow(st) && RowFits(styler, b)
    ensures Run(rx, st, StripAll(RowLines(styler, b))) ==
            match Flush(rx, st)
            case Err(e) => Err(e)
            case Ok(fl) => Ok(fl.(cur := Some(RowRead(styler, |fl.buckets|, b)), itemCol := 0, memberCol := 2))
    ensures Flush(rx, st).Ok? ==> !RowRead(styler, |Flush(rx, st).value.buckets|, b).quoteOpen
  {
    StripRow(styler, b);
    RunFour(rx, st, StripAll(FieldLines(styler, "- file: ", b.file)), StripAll(FieldLines(styler, "  rule: ", b.rule)),
            StripAll(MessageLines(styler, b.message)), StripAll([CountLine(b.count)]));
    FileRun(rx, st, styler, b.file);
    ScalarTripIff(styler(b.file), 8, b.file);
    FlushKeeps(rx, st);
    match Flush(rx, st)
    case Err(_) =>
    case Ok(fl) =>
      var r1 := WithTail(NewRow(|fl.buckets|), File, ReadTail(styler(b.file), 8, b.file));
      var st2, st3 := MembersRun(rx, fl.(cur := Some(r1), itemCol := 0, memberCol := 2), styler, b);
  }

  lemma FlushKeeps(rx: Engine, st: State)
    ensures Flush(rx, st).Ok? ==>
              && Flush(rx, st).value.inIgnored == st.inIgnored
              && Flush(rx, st).value.version == st.version
              && Flush(rx, st).value.cur.None?
  {
  }

  lemma {:induction false} RunFour(rx: Engine, st: State, a: seq<string>, b: seq<string>, c: seq<string>, d: seq<string>)
    ensures Run(rx, st, a + b + c + d) == Then(rx, Then(rx, Then(rx, Run(rx, st, a), b), c), d)
  {
    RunAppend(rx, st, a + b + c, d);
    RunAppend(rx, st, a + b, c);
    RunAppend(rx, st, a, b);
  }
}
