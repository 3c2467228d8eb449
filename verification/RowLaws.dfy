/** Rows with any members in any order, and files that are no baselines: what loads, and which error comes first. */
module RowLaws {
  import opened Wrappers
  import opened Text
  import opened Scalars
  import opened Baseline
  import opened Writer
  import opened Reader
  import opened FieldTrip
  import opened RowTrip
  import opened RoundTrip
  import opened VersionGate
  import opened ReaderLaws
  import WhiteStart

  // ---- positive counts -----------------------------------------------------------------------------

  /** The digits of `n` behind any zeros, and an optional plus before them. */
  ghost predicate SpellsCount(c: string, n: nat) {
    exists k: nat :: c == Replicate('0', k) + Decimal(n) || c == "+" + (Replicate('0', k) + Decimal(n))
  }

  lemma {:induction false} ZerosRead(k: nat, n: nat)
    requires n > 0
    ensures ParseDigits(Replicate('0', k) + Decimal(n)) == Some(n)
    decreases n
  {
    hide Decimal;
    var d := Decimal(n);
    var last := DecimalParts(n);
    var s := Replicate('0', k) + d;
    assert s[|s| - 1] == last;
    assert s[..|s| - 1] == Replicate('0', k) + d[..|d| - 1];
    if n >= 10 {
      ZerosRead(k, n / 10);
    } else {
      assert s[..|s| - 1] == Replicate('0', k);
      if k > 0 {
        DigitsOfZero(Replicate('0', k));
      }
    }
  }

  lemma {:induction false} ReadHasZeros(s: string, n: nat) returns (k: nat)
    requires ParseDigits(s) == Some(n) && n > 0
    ensures s == Replicate('0', k) + Decimal(n)
    decreases |s|
  {
    hide Decimal;
    var front, c := s[..|s| - 1], s[|s| - 1];
    assert s == front + [c];
    var last := DecimalParts(n);
    if front == [] {
      k := 0;
      assert n < 10;
      assert Replicate('0', 0) + Decimal(n) == Decimal(n);
      assert [] + [last] == [last];
      DigitIs(c, last, n);
    } else {
      var m := ParseDigits(front).value;
      assert n == 10 * m + (c as int - '0' as int);
      assert n % 10 == c as int - '0' as int && n / 10 == m;
      DigitIs(c, last, n);
      if m == 0 {
        DigitsOfZero(front);
        k := |front|;
        assert front == Replicate('0', k);
        assert [] + [last] == [last];
      } else {
        k := ReadHasZeros(front, m);
        ConcatAssoc(Replicate('0', k), Decimal(m), [c]);
      }
    }
  }

  lemma DigitIs(c: char, last: char, n: nat)
    requires IsDigit(c) && c as int - '0' as int == n % 10 && last as int - '0' as int == n % 10
    ensures c == last
  {
  }

  /** A count is accepted exactly when it spells a positive number that fits 64 bits. */
  lemma CountIff(c: string, n: nat)
    ensures ParsePositive(c) == Some(n) <==> 0 < n < 0x8000_0000_0000_0000 && SpellsCount(c, n)
  {
    hide Decimal, ParseDigits;
    var d := if c != [] && c[0] == '+' then c[1..] else c;
    if ParsePositive(c) == Some(n) {
      var k := ReadHasZeros(d, n);
      assert c == d || c == "+" + d;
    }
    if 0 < n < 0x8000_0000_0000_0000 && SpellsCount(c, n) {
      var k: nat :| c == Replicate('0', k) + Decimal(n) || c == "+" + (Replicate('0', k) + Decimal(n));
      ZerosRead(k, n);
      NoPlus(k, n);
      assert d == Replicate('0', k) + Decimal(n);
    }
  }

  lemma NoPlus(k: nat, n: nat)
    ensures var s := Replicate('0', k) + Decimal(n); s != [] && s[0] != '+'
  {
    DecimalReads(n);
    var s := Replicate('0', k) + Decimal(n);
    if k == 0 {
      assert s == Decimal(n);
      assert IsDigit(Decimal(n)[0]);
    } else {
      assert s[0] == '0';
    }
  }

  // ---- rows of words ---------------------------------------------------------------------------------

  /** A member line: its key, and a plain word behind it. */
  datatype Member = Member(key: string, word: string)

  predicate Wordy(m: Member) {
    KeyWord(m.key) && PlainValue(m.word)
  }

  predicate AllWordy(ms: seq<Member>) {
    forall i :: 0 <= i < |ms| ==> Wordy(ms[i])
  }

  function LineOf(m: Member): string {
    "  " + (m.key + ":") + (" " + m.word)
  }

  function LinesOf(ms: seq<Member>): (r: seq<string>)
    ensures |r| == |ms| && forall i :: 0 <= i < |r| ==> r[i] == LineOf(ms[i])
  {
    seq(|ms|, i requires 0 <= i < |ms| => LineOf(ms[i]))
  }

  /** The word behind the last line with this key. */
  function LastOf(ms: seq<Member>, key: string): Option<string> {
    if ms == [] then None
    else if ms[|ms| - 1].key == key then Some(ms[|ms| - 1].word)
    else LastOf(ms[..|ms| - 1], key)
  }

  function Present(w: Option<string>): Option<string> {
    if w.Some? && !(w.value == "~" || Lower(w.value) == "null") then w else None
  }

  /**
   What a row of words loads as. The file is asked for first, then the rule, the count and the pattern;
   nulls are absent, the last of several lines with one key counts, and other keys do not matter.
   */
  function RowResult(rx: Engine, idx: nat, ms: seq<Member>): Result<Bucket, LoadError> {
    var file, rule, message := Present(LastOf(ms, "file")), Present(LastOf(ms, "rule")), Present(LastOf(ms, "message"));
    var count := LastOf(ms, "count");
    if file.None? then Err(MissingField(idx, File))
    else if rule.None? then Err(MissingField(idx, Rule))
    else if count.None? || ParsePositive(count.value).None? then Err(BadCount(idx))
    else if message.Some? && !rx.compiles(message.value) then Err(BadRegexp(idx, message.value))
    else Ok(Bucket(file.value, rule.value, message, ParsePositive(count.value).value))
  }

  predicate HoldsWord(r: Row, f: Field, w: Option<string>) {
    if w.None? then f !in r.fields else f in r.fields && r.fields[f] == FieldVal(w.value, Plain, [], None)
  }

  /** The reader's row after these lines. */
  predicate Reads(r: Row, idx: nat, ms: seq<Member>) {
    && r.idx == idx && !r.quoteOpen
    && HoldsWord(r, File, LastOf(ms, "file")) && HoldsWord(r, Rule, LastOf(ms, "rule"))
    && HoldsWord(r, Message, LastOf(ms, "message")) && HoldsWord(r, Count, LastOf(ms, "count"))
  }

  lemma WordHead(w: string)
    requires PlainValue(w)
    ensures ScalarHead(Trim(w)) == (w, Plain) && UnyamlScalar(w) == w
  {
    PlainWord(w);
    TrimOfTrimmed(w);
  }

  lemma ReadsNext(r: Row, idx: nat, ms: seq<Member>, m: Member)
    requires Reads(r, idx, ms) && Wordy(m)
    ensures Reads(SetField(r, FieldOf(m.key), m.word, Plain), idx, ms + [m])
  {
    hide KeyWord;
    assert (ms + [m])[..|ms|] == ms;
  }

  lemma MemberStep(rx: Engine, st: State, m: Member)
    requires InRow(st) && Wordy(m)
    ensures Step(rx, st, LineOf(m)) == Ok(st.(cur := Some(SetField(st.cur.value, FieldOf(m.key), m.word, Plain))))
  {
    hide Step, Trim, ScalarHead;
    WordHead(m.word);
    var line := LineOf(m);
    assert line[|line| - 1] == m.word[|m.word| - 1];
    assert StripCr(line) == line;
    MemberLine(rx, st, m.key, m.word);
  }

  lemma LinesSnoc(ms: seq<Member>)
    requires ms != []
    ensures LinesOf(ms) == LinesOf(ms[..|ms| - 1]) + [LineOf(ms[|ms| - 1])]
  {
  }

  lemma {:induction false} MembersStep(rx: Engine, st: State, idx: nat, before: seq<Member>, ms: seq<Member>) returns (r: Row)
    requires InRow(st) && AllWordy(ms) && Reads(st.cur.value, idx, before)
    ensures Run(rx, st, LinesOf(ms)) == Ok(st.(cur := Some(r))) && Reads(r, idx, before + ms)
    decreases |ms|
  {
    hide Step, Reads, Wordy;
    if ms == [] {
      r := st.cur.value;
      assert before + ms == before;
    } else {
      var front, last := ms[..|ms| - 1], ms[|ms| - 1];
      var mid := MembersStep(rx, st, idx, before, front);
      var next := st.(cur := Some(mid));
      ReadsOpen(mid, idx, before + front);
      MemberStep(rx, next, last);
      ReadsNext(mid, idx, before + front, last);
      r := SetField(mid, FieldOf(last.key), last.word, Plain);
      LinesSnoc(ms);
      RunAppend(rx, st, LinesOf(front), [LineOf(last)]);
      RunOne(rx, next, LineOf(last));
      assert before + front + [last] == before + ms;
    }
  }

  lemma ReadsOpen(r: Row, idx: nat, ms: seq<Member>)
    requires Reads(r, idx, ms)
    ensures !r.quoteOpen
  {
  }

  lemma WordText(r: Row, f: Field, w: Option<string>)
    requires HoldsWord(r, f, w) && (w.Some? ==> PlainValue(w.value))
    ensures FieldText(r, f) == Present(w)
    ensures f == Count ==> CountOf(r) == if w.None? then None else ParsePositive(w.value)
  {
    if w.Some? {
      WordHead(w.value);
      NullSpelled(w.value);
    }
  }

  lemma NullSpelled(w: string)
    ensures IsNull(w) <==> w == "" || w == "~" || Lower(w) == "null"
  {
    assert Lower("null") == "null";
    if EqIgnoreCase(w, "null") {
      WhiteStart.LowerIgnoresCase(w, "null");
    }
    if Lower(w) == "null" {
      assert forall i :: 0 <= i < |w| ==> LowerChar(w[i]) == Lower(w)[i] && LowerChar("null"[i]) == "null"[i];
    }
  }

  lemma {:induction false} LastWordy(ms: seq<Member>, key: string)
    requires AllWordy(ms)
    ensures LastOf(ms, key).Some? ==> PlainValue(LastOf(ms, key).value)
  {
    if ms != [] && ms[|ms| - 1].key != key {
      LastWordy(ms[..|ms| - 1], key);
    } else if ms != [] {
      assert Wordy(ms[|ms| - 1]);
    }
  }

  lemma ReadsResult(rx: Engine, r: Row, idx: nat, ms: seq<Member>)
    requires Reads(r, idx, ms) && AllWordy(ms)
    ensures IntoBucket(rx, r) == RowResult(rx, idx, ms)
  {
    hide FieldText, CountOf, Present, PlainValue, HoldsWord, ParsePositive;
    LastWordy(ms, "file");
    LastWordy(ms, "rule");
    LastWordy(ms, "message");
    LastWordy(ms, "count");
    WordText(r, File, LastOf(ms, "file"));
    WordText(r, Rule, LastOf(ms, "rule"));
    WordText(r, Message, LastOf(ms, "message"));
    WordText(r, Count, LastOf(ms, "count"));
  }

  /** The lines of a row: the file on the line of the dash. */
  function ItemLines(file: string, ms: seq<Member>): seq<string> {
    ["- file: " + file] + LinesOf(ms)
  }

  function Appended(back: Result<seq<Bucket>, LoadError>, last: nat -> Result<Bucket, LoadError>): Result<seq<Bucket>, LoadError> {
    match back
    case Err(e) => Err(e)
    case Ok(bs) => match last(|bs|) case Err(e) => Err(e) case Ok(b) => Ok(bs + [b])
  }

  lemma FirstWord(file: string, idx: nat)
    requires PlainValue(file)
    ensures Reads(SetField(NewRow(idx), File, file, Plain), idx, [Member("file", file)])
  {
    LastOfOne(Member("file", file), "file");
    LastOfOne(Member("file", file), "rule");
    LastOfOne(Member("file", file), "message");
    LastOfOne(Member("file", file), "count");
  }

  lemma LastOfOne(m: Member, key: string)
    ensures LastOf([m], key) == if m.key == key then Some(m.word) else None
  {
    assert [m][..0] == [];
    assert LastOf([], key) == None;
  }

  lemma ItemRun(rx: Engine, st: State, file: string, ms: seq<Member>) returns (r: Row)
    requires AtRow(st) && PlainValue(file) && AllWordy(ms) && Flush(rx, st).Ok?
    ensures var fl := Flush(rx, st).value;
            && Run(rx, st, ItemLines(file, ms)) == Ok(fl.(cur := Some(r), itemCol := 0, memberCol := 2))
            && Reads(r, |fl.buckets|, [Member("file", file)] + ms)
  {
    hide Step, Reads, LinesOf, Trim, ScalarHead;
    var fl := Flush(rx, st).value;
    var line := "- file: " + file;
    assert line[|line| - 1] == file[|file| - 1];
    assert StripCr(line) == line;
    WordHead(file);
    ItemLine(rx, st, file);
    FlushKeeps(rx, st);
    FirstWord(file, |fl.buckets|);
    var begun := fl.(cur := Some(SetField(NewRow(|fl.buckets|), File, file, Plain)), itemCol := 0, memberCol := 2);
    r := MembersStep(rx, begun, |fl.buckets|, [Member("file", file)], ms);
    RunCons(rx, st, line, LinesOf(ms));
  }

  lemma ItemRefused(rx: Engine, st: State, file: string, ms: seq<Member>)
    requires AtRow(st) && PlainValue(file) && Flush(rx, st).Err?
    ensures Run(rx, st, ItemLines(file, ms)) == Err(Flush(rx, st).error)
  {
    hide Step, LinesOf, Trim, ScalarHead;
    var line := "- file: " + file;
    assert line[|line| - 1] == file[|file| - 1];
    assert StripCr(line) == line;
    ItemLine(rx, st, file);
    RunCons(rx, st, line, LinesOf(ms));
  }

  function ResultAt(rx: Engine, ms: seq<Member>): nat -> Result<Bucket, LoadError> {
    (idx: nat) => RowResult(rx, idx, ms)
  }

  /** Behind any written rows, a row of words in any order and with any keys loads as `RowResult` says. */
  lemma WordRowLoads(rx: Engine, styler: Styler, rows: seq<Bucket>, file: string, ms: seq<Member>)
    requires AllFit(styler, rows) && PlainValue(file) && AllWordy(ms)
    ensures Load(rx, ["---", "version: 1", "ignored:"] + (StripAll(AllRowLines(styler, rows)) + ItemLines(file, ms))) ==
            Appended(RowsBack(rx, styler, rows), ResultAt(rx, [Member("file", file)] + ms))
  {
    hide Step, Run, Finish, Reads, RowResult, IntoBucket, ItemLines, RowsBack, AllFit, Behind;
    var before := StripAll(AllRowLines(styler, rows));
    HeadOpens(rx, before + ItemLines(file, ms));
    RunAppend(rx, InRows(VERSION_ONE), before, ItemLines(file, ms));
    RowsRun(rx, styler, VERSION_ONE, rows);
    FlushBehind(rx, styler, VERSION_ONE, rows);
    BehindAtRow(rx, styler, VERSION_ONE, rows);
    match Behind(rx, styler, VERSION_ONE, rows)
    case Err(_) =>
    case Ok(st) =>
      WordRowEnds(rx, st, file, ms);
  }

  lemma WordRowEnds(rx: Engine, st: State, file: string, ms: seq<Member>)
    requires AtRow(st) && PlainValue(file) && AllWordy(ms) && (Flush(rx, st).Ok? ==> Flush(rx, st).value.version == VERSION_ONE)
    ensures Flush(rx, st).Err? ==> Ends(rx, Run(rx, st, ItemLines(file, ms))) == Err(Flush(rx, st).error)
    ensures Flush(rx, st).Ok? ==>
              Ends(rx, Run(rx, st, ItemLines(file, ms))) ==
              Appended(Ok(Flush(rx, st).value.buckets), ResultAt(rx, [Member("file", file)] + ms))
  {
    hide Step, Run, Reads, RowResult, ItemLines;
    if Flush(rx, st).Err? {
      ItemRefused(rx, st, file, ms);
    } else {
      var r := ItemRun(rx, st, file, ms);
      var all := [Member("file", file)] + ms;
      assert AllWordy(all) by { WordyFile(file, ms); }
      ReadsResult(rx, r, |Flush(rx, st).value.buckets|, all);
      VersionSupported();
    }
  }

  lemma WordyFile(file: string, ms: seq<Member>)
    requires PlainValue(file) && AllWordy(ms)
    ensures AllWordy([Member("file", file)] + ms)
  {
    assert Wordy(Member("file", file));
  }
}
