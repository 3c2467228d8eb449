/** Rows at any columns, with blank lines anywhere: where lines stand matters only as far as told here. */
module ColumnLaws {
  import opened Wrappers
  import opened Text
  import opened Scalars
  import opened Baseline
  import opened Reader
  import opened FieldTrip
  import opened BlockTrip
  import opened RowTrip
  import opened RoundTrip
  import opened VersionGate
  import opened ReaderLaws
  import opened RowLaws

  /** A member line behind some blank lines, at a column. */
  datatype Spot = Spot(blanks: nat, col: nat, member: Member)

  /** A row: the column of its dash, the gap behind the dash, its file, and its other members. */
  datatype Placed = Placed(col: nat, gap: nat, file: string, spots: seq<Spot>)

  function KeyText(key: string, word: string): string {
    key + ":" + (" " + word)
  }

  function SpotLines(s: Spot): seq<string> {
    Blanks(s.blanks) + [Spaces(s.col) + KeyText(s.member.key, s.member.word)]
  }

  function SpotsLines(ss: seq<Spot>): seq<string> {
    if ss == [] then [] else SpotsLines(ss[..|ss| - 1]) + SpotLines(ss[|ss| - 1])
  }

  function PlacedLines(p: Placed): seq<string> {
    [Spaces(p.col) + ("- " + (Spaces(p.gap) + KeyText("file", p.file)))] + SpotsLines(p.spots)
  }

  function AllLines(ps: seq<Placed>): seq<string> {
    if ps == [] then [] else AllLines(ps[..|ps| - 1]) + PlacedLines(ps[|ps| - 1])
  }

  function Members(ss: seq<Spot>): (r: seq<Member>)
    ensures |r| == |ss| && forall i :: 0 <= i < |r| ==> r[i] == ss[i].member
  {
    seq(|ss|, i requires 0 <= i < |ss| => ss[i].member)
  }

  /** Members stand to the right of the margin, and not to the right of the row's file. */
  predicate WellPlaced(p: Placed) {
    PlainValue(p.file)
    && forall i :: 0 <= i < |p.spots| ==> Wordy(p.spots[i].member) && 0 < p.spots[i].col <= p.col + 2 + p.gap
  }

  /** No row is further to the right than the one before it. */
  predicate Columns(ps: seq<Placed>) {
    (forall i :: 0 <= i < |ps| ==> WellPlaced(ps[i])) && forall i :: 0 < i < |ps| ==> ps[i].col <= ps[i - 1].col
  }

  /** What the rows load as, by their members alone. */
  function Back(rx: Engine, ps: seq<Placed>): Result<seq<Bucket>, LoadError> {
    if ps == [] then Ok([])
    else
      var n := |ps| - 1;
      var before :- Back(rx, ps[..n]);
      var b :- RowResult(rx, |before|, [Member("file", ps[n].file)] + Members(ps[n].spots));
      Ok(before + [b])
  }

  // ---- one line -----------------------------------------------------------------------------------------

  lemma FileWord()
    ensures KeyWord("file") && FieldOf("file") == File
  {
  }

  lemma WordApplies(r: Row, key: string, w: string, rowHead: bool)
    requires KeyWord(key) && PlainValue(w)
    ensures Apply(r, KeyText(key, w), rowHead) == Ok(SetField(r, FieldOf(key), w, Plain))
    ensures Trimmed(KeyText(key, w)) && KeyText(key, w)[0] == key[0]
  {
    hide ScalarHead, Trim, TrimStart;
    var value := " " + w;
    ConcatAssoc(key, ":", value);
    assert value[|value| - 1] == w[|w| - 1];
    assert value + [] == value;
    TrimEndSplit(value, []);
    WordHead(w);
    ApplyKey(r, key, w, rowHead);
  }

  lemma ItemShape(k: nat, gap: nat, text: string)
    requires text != [] && Trimmed(text) && text[0] != '-'
    ensures var item := "- " + (Spaces(gap) + text);
            && Trim(Spaces(k) + item) == item && Indent(Spaces(k) + item) == k
            && Indent(Spaces(gap) + text) == gap && TrimStart(Spaces(gap) + text) == text
            && !Skipped(item) && (StartsWith(Spaces(k) + item, " ") || StartsWith(Spaces(k) + item, "-"))
  {
    hide Trim, TrimStart, Indent;
    var item := "- " + (Spaces(gap) + text);
    assert item[0] == '-' && item[1] == ' ' && item[|item| - 1] == text[|text| - 1];
    assert (Spaces(k) + item)[..1] == if k == 0 then "-" else " ";
    TrimOfTrimmed(item);
    TrimPrefix(Spaces(k), item);
    IndentOf(k, item);
    IndentOf(gap, text);
    TrimStartSplit(Spaces(gap), text);
  }

  /** The reader can take a row whose dash stands at this column. */
  predicate Ready(st: State, col: nat) {
    st.inIgnored && (st.cur.Some? ==> !st.cur.value.quoteOpen && col <= st.itemCol)
  }

  lemma DashOpens(rx: Engine, st: State, raw: string, rest: string)
    requires Ready(st, Indent(raw))
    requires Trim(raw) == "- " + rest && !Skipped("- " + rest) && (StartsWith(raw, " ") || StartsWith(raw, "-"))
    ensures Step(rx, st, raw) == NewItem(rx, st, Indent(raw), rest)
  {
    hide Trim, Indent, Skipped, NewItem;
    var item := "- " + rest;
    assert item[..2] == "- " && item[2..] == rest;
  }

  /** The state behind a dash with this file. */
  function Begun(fl: State, p: Placed): State {
    fl.(cur := Some(SetField(NewRow(|fl.buckets|), File, p.file, Plain)), itemCol := p.col, memberCol := p.col + 2 + p.gap)
  }

  function AfterItem(flushed: Result<State, LoadError>, p: Placed): Result<State, LoadError> {
    match flushed case Err(e) => Err(e) case Ok(fl) => Ok(Begun(fl, p))
  }

  lemma ItemPlaced(rx: Engine, st: State, p: Placed)
    requires Ready(st, p.col) && PlainValue(p.file)
    ensures Step(rx, st, Spaces(p.col) + ("- " + (Spaces(p.gap) + KeyText("file", p.file)))) == AfterItem(Flush(rx, st), p)
  {
    hide Trim, TrimStart, Indent, Apply, Step, Skipped, SetField, Flush;
    var text := KeyText("file", p.file);
    FileWord();
    WordApplies(NewRow(0), "file", p.file, true);
    ItemShape(p.col, p.gap, text);
    DashOpens(rx, st, Spaces(p.col) + ("- " + (Spaces(p.gap) + text)), Spaces(p.gap) + text);
    if Flush(rx, st).Ok? {
      WordApplies(NewRow(|Flush(rx, st).value.buckets|), "file", p.file, true);
    }
  }

  /** A row is being read whose file stands left of `col` or at it, with no quote open. */
  predicate Within(st: State, col: nat) {
    st.inIgnored && st.cur.Some? && !st.cur.value.quoteOpen && 0 < col <= st.memberCol
  }

  lemma MemberPlaced(rx: Engine, st: State, col: nat, key: string, w: string)
    requires Within(st, col) && KeyWord(key) && PlainValue(w)
    ensures Step(rx, st, Spaces(col) + KeyText(key, w)) == Ok(st.(cur := Some(SetField(st.cur.value, FieldOf(key), w, Plain))))
  {
    hide Trim, TrimStart, Indent, Apply;
    var t := KeyText(key, w);
    var raw := Spaces(col) + t;
    WordApplies(st.cur.value, key, w, false);
    TrimPrefix(Spaces(col), t);
    TrimOfTrimmed(t);
    IndentOf(col, t);
    NotAnItem(t);
    assert raw[..1] == " ";
  }

  /** The state behind blank lines. */
  function Later(st: State, n: nat): State
    requires st.cur.Some?
  {
    st.(cur := Some(st.cur.value.(pending := st.cur.value.pending + n)))
  }

  lemma {:induction false} BlankLines(rx: Engine, st: State, n: nat)
    requires st.cur.Some?
    ensures Run(rx, st, Blanks(n)) == Ok(Later(st, n))
  {
    if n > 0 {
      BlankLines(rx, st, n - 1);
      assert Blanks(n) == Blanks(n - 1) + [[]];
      RunAppend(rx, st, Blanks(n - 1), [[]]);
      RunOne(rx, Later(st, n - 1), []);
      TrimOfTrimmed([]);
    }
  }

  // ---- one row ---------------------------------------------------------------------------------------------

  lemma ReadsLater(r: Row, idx: nat, ms: seq<Member>, n: nat)
    requires Reads(r, idx, ms)
    ensures Reads(r.(pending := r.pending + n), idx, ms)
  {
  }

  lemma SpotStep(rx: Engine, st: State, idx: nat, before: seq<Member>, s: Spot) returns (r: Row)
    requires st.cur.Some? && Reads(st.cur.value, idx, before) && Within(st, s.col) && Wordy(s.member)
    ensures Run(rx, st, SpotLines(s)) == Ok(st.(cur := Some(r))) && Reads(r, idx, before + [s.member])
  {
    hide Step, Reads, SetField;
    var line := Spaces(s.col) + KeyText(s.member.key, s.member.word);
    var mid := Later(st, s.blanks);
    BlankLines(rx, st, s.blanks);
    ReadsLater(st.cur.value, idx, before, s.blanks);
    MemberPlaced(rx, mid, s.col, s.member.key, s.member.word);
    r := SetField(mid.cur.value, FieldOf(s.member.key), s.member.word, Plain);
    RunAppend(rx, st, Blanks(s.blanks), [line]);
    RunOne(rx, mid, line);
    ReadsNext(mid.cur.value, idx, before, s.member);
  }

  lemma {:induction false} SpotsStep(rx: Engine, st: State, idx: nat, before: seq<Member>, ss: seq<Spot>) returns (r: Row)
    requires st.inIgnored && st.cur.Some? && Reads(st.cur.value, idx, before)
    requires forall i :: 0 <= i < |ss| ==> Wordy(ss[i].member) && 0 < ss[i].col <= st.memberCol
    ensures Run(rx, st, SpotsLines(ss)) == Ok(st.(cur := Some(r))) && Reads(r, idx, before + Members(ss))
    decreases |ss|
  {
    hide Reads, SpotLines, Wordy;
    if ss == [] {
      r := st.cur.value;
      assert before + Members(ss) == before;
      RunNothing(rx, st);
    } else {
      var front, last := ss[..|ss| - 1], ss[|ss| - 1];
      var mid := SpotsStep(rx, st, idx, before, front);
      var next := st.(cur := Some(mid));
      ReadsOpen(mid, idx, before + Members(front));
      r := SpotStep(rx, next, idx, before + Members(front), last);
      RunAppend(rx, st, SpotsLines(front), SpotLines(last));
      assert before + Members(front) + [last.member] == before + Members(ss);
    }
  }

  lemma RunNothing(rx: Engine, st: State)
    ensures Run(rx, st, []) == Ok(st)
  {
  }

  lemma PlacedRun(rx: Engine, st: State, p: Placed) returns (r: Row)
    requires Ready(st, p.col) && WellPlaced(p) && Flush(rx, st).Ok?
    ensures var fl := Flush(rx, st).value;
            && Run(rx, st, PlacedLines(p)) == Ok(Begun(fl, p).(cur := Some(r)))
            && Reads(r, |fl.buckets|, [Member("file", p.file)] + Members(p.spots))
  {
    hide Step, Reads, SpotsLines, IntoBucket;
    var fl := Flush(rx, st).value;
    var line := Spaces(p.col) + ("- " + (Spaces(p.gap) + KeyText("file", p.file)));
    FlushKeeps(rx, st);
    ItemPlaced(rx, st, p);
    FirstWord(p.file, |fl.buckets|);
    r := SpotsStep(rx, Begun(fl, p), |fl.buckets|, [Member("file", p.file)], p.spots);
    RunCons(rx, st, line, SpotsLines(p.spots));
  }

  lemma PlacedRefused(rx: Engine, st: State, p: Placed)
    requires Ready(st, p.col) && WellPlaced(p) && Flush(rx, st).Err?
    ensures Run(rx, st, PlacedLines(p)) == Err(Flush(rx, st).error)
  {
    hide Step, SpotsLines;
    ItemPlaced(rx, st, p);
    RunCons(rx, st, Spaces(p.col) + ("- " + (Spaces(p.gap) + KeyText("file", p.file))), SpotsLines(p.spots));
  }

  // ---- all rows ----------------------------------------------------------------------------------------------

  /** What the reader holds behind the rows: the last one is still pending. */
  ghost predicate Holds(rx: Engine, ps: seq<Placed>, end: Result<State, LoadError>) {
    match end
    case Err(e) => Back(rx, ps) == Err(e)
    case Ok(st) =>
      && (ps != [] ==> Ready(st, ps[|ps| - 1].col)) && (ps == [] ==> st == InRows(VERSION_ONE))
      && (match Flush(rx, st)
          case Err(e) => Back(rx, ps) == Err(e)
          case Ok(fl) => Back(rx, ps) == Ok(fl.buckets) && fl.version == VERSION_ONE && fl.inIgnored)
  }

  lemma HoldsNext(rx: Engine, ps: seq<Placed>, fl: State, r: Row)
    requires ps != [] && WellPlaced(ps[|ps| - 1])
    requires Back(rx, ps[..|ps| - 1]) == Ok(fl.buckets) && fl.version == VERSION_ONE && fl.inIgnored
    requires Reads(r, |fl.buckets|, [Member("file", ps[|ps| - 1].file)] + Members(ps[|ps| - 1].spots))
    ensures Holds(rx, ps, Ok(Begun(fl, ps[|ps| - 1]).(cur := Some(r))))
  {
    hide IntoBucket, RowResult, Reads;
    var p := ps[|ps| - 1];
    var all := [Member("file", p.file)] + Members(p.spots);
    ReadsOpen(r, |fl.buckets|, all);
    assert AllWordy(all) by { PlacedWordy(p); }
    ReadsResult(rx, r, |fl.buckets|, all);
  }

  lemma PlacedWordy(p: Placed)
    requires WellPlaced(p)
    ensures AllWordy([Member("file", p.file)] + Members(p.spots))
  {
    FileWord();
    assert Wordy(Member("file", p.file));
  }

  lemma {:induction false} AllRun(rx: Engine, ps: seq<Placed>)
    requires Columns(ps)
    ensures Holds(rx, ps, Run(rx, InRows(VERSION_ONE), AllLines(ps)))
  {
    hide Flush, Reads, PlacedLines, WellPlaced, Begun, Back;
    var st := InRows(VERSION_ONE);
    if ps == [] {
      NoRows(rx);
    } else {
      var front, last := ps[..|ps| - 1], ps[|ps| - 1];
      AllRun(rx, front);
      RunAppend(rx, st, AllLines(front), PlacedLines(last));
      var mid := Run(rx, st, AllLines(front));
      if mid.Err? {
        StaysRefused(rx, ps);
      } else {
        ReadyNext(rx, ps, mid.value);
        if Flush(rx, mid.value).Err? {
          PlacedRefused(rx, mid.value, last);
          StaysRefused(rx, ps);
        } else {
          var r := PlacedRun(rx, mid.value, last);
          HoldsNext(rx, ps, Flush(rx, mid.value).value, r);
        }
      }
    }
  }

  lemma NoRows(rx: Engine)
    ensures Holds(rx, [], Run(rx, InRows(VERSION_ONE), AllLines([])))
  {
  }

  lemma ReadyNext(rx: Engine, ps: seq<Placed>, st: State)
    requires ps != [] && Columns(ps) && Holds(rx, ps[..|ps| - 1], Ok(st))
    ensures Ready(st, ps[|ps| - 1].col)
  {
    hide Flush, Back, WellPlaced;
  }

  lemma StaysRefused(rx: Engine, ps: seq<Placed>)
    requires ps != [] && Back(rx, ps[..|ps| - 1]).Err?
    ensures Back(rx, ps) == Err(Back(rx, ps[..|ps| - 1]).error)
  {
  }

  /**
   Rows of words load by their members, whatever columns their dashes stand at as long as no dash is further to the
   right than the one before it, wherever their members stand up to the column of their file, and with any blank lines.
   */
  lemma PlacedRowsLoad(rx: Engine, ps: seq<Placed>)
    requires Columns(ps)
    ensures Load(rx, ["---", "version: 1", "ignored:"] + AllLines(ps)) == Back(rx, ps)
  {
    hide Run, AllLines, Flush, Columns, Back;
    HeadOpens(rx, AllLines(ps));
    AllRun(rx, ps);
    VersionSupported();
  }

  // ---- blank lines and folds ------------------------------------------------------------------------------------

  /** The row of a file and a folded rule. */
  function FoldedRow(file: string, rule: string): Row {
    WithTail(SetField(NewRow(0), File, file, Plain), Rule, HeadTail(rule, Plain))
  }

  lemma RuleFolds(rx: Engine, file: string, n: nat, w: string, ps: seq<Piece>)
    requires PlainValue(file) && PlainValue(w) && AllVisible(ps)
    ensures Run(rx, Later(Opened(file), n), ["  rule: " + w] + Lay(ps)) ==
            Ok(Opened(file).(cur := Some(FoldedRow(file, w + Folded(ps)))))
    ensures InRow(Opened(file).(cur := Some(FoldedRow(file, w + Folded(ps)))))
  {
    hide Step, ScalarHead, Trim, Lay, Absorb, KeyWord;
    var st, line := Later(Opened(file), n), "  rule: " + w;
    WordHead(file);
    WordHead(w);
    MemberWord("rule");
    assert line == "  " + ("rule" + ":") + (" " + w) by { assert "  rule: " == "  " + ("rule" + ":") + " "; }
    assert StripCr(line) == line by { assert line[|line| - 1] == w[|w| - 1]; }
    MemberLine(rx, st, "rule", w);
    var next := Opened(file).(cur := Some(FoldedRow(file, w)));
    RunCons(rx, st, line, Lay(ps));
    LayHangs(ps);
    HangLines(rx, next, SetField(NewRow(0), File, file, Plain), Rule, HeadTail(w, Plain), Lay(ps));
    PiecesAbsorbed(w, ps);
  }

  lemma FoldedBucket(rx: Engine, file: string, rule: string)
    requires PlainValue(file) && !IsNull(file)
    requires rule != [] && Trimmed(rule) && rule[0] != '"' && rule[0] != '\'' && !IsNull(rule)
    ensures IntoBucket(rx, SetField(FoldedRow(file, rule), Count, "1", Plain)) == Ok(Bucket(file, rule, None, 1))
  {
    hide Trim, ScalarHead;
    WordHead(file);
    WordR();
    PlainRead(rule);
    assert ParseDigits("1") == Some(1);
  }

  /** Blank lines in front of a member are no part of the value before it, nor of the folded value behind. */
  lemma RuleFoldLoads(rx: Engine, file: string, n: nat, w: string, ps: seq<Piece>)
    requires PlainValue(file) && !IsNull(file) && PlainValue(w) && AllVisible(ps) && !IsNull(w + Folded(ps))
    ensures Load(rx, ["---", "version: 1", "ignored:"]
                     + (["- file: " + file] + (Blanks(n) + ((["  rule: " + w] + Lay(ps)) + ["  count: 1"])))) ==
            Ok([Bucket(file, w + Folded(ps), None, 1)])
  {
    hide Step, Run, ScalarHead, Trim, Lay, Folded, IntoBucket, Finish, Opened, FoldedRow;
    var item, rule := "- file: " + file, ["  rule: " + w] + Lay(ps);
    var rest := Blanks(n) + (rule + ["  count: 1"]);
    HeadOpens(rx, [item] + rest);
    OpenedBy(rx, file);
    RunCons(rx, InRows(VERSION_ONE), item, rest);
    OpenedRow(file);
    BlankLines(rx, Opened(file), n);
    RunAppend(rx, Opened(file), Blanks(n), rule + ["  count: 1"]);
    var st := Later(Opened(file), n);
    RunAppend(rx, st, rule, ["  count: 1"]);
    RuleFolds(rx, file, n, w, ps);
    var next := Opened(file).(cur := Some(FoldedRow(file, w + Folded(ps))));
    CountEnds(rx, next);
    FoldedEnds(w, ps);
    FoldedBucket(rx, file, w + Folded(ps));
    OpenedShape(file);
    FinishRow(rx, next.(cur := Some(SetField(next.cur.value, Count, "1", Plain))));
  }

  lemma OpenedRow(file: string)
    ensures Opened(file).cur.Some?
  {
  }

  lemma CountEnds(rx: Engine, st: State)
    requires InRow(st)
    ensures Run(rx, st, ["  count: 1"]) == Ok(st.(cur := Some(SetField(st.cur.value, Count, "1", Plain))))
  {
    hide Step, ScalarHead, UnyamlScalar, Trim;
    WordR();
    MemberTexts();
    MemberWord("count");
    MemberLine(rx, st, "count", "1");
    RunOne(rx, st, "  count: 1");
  }
}
