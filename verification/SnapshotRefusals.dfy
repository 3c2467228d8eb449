/** Snapshot files that the writer does not write: fields in any order and number, and every line that is refused. */
module SnapshotRefusals {
  import opened Wrappers
  import opened Text
  import opened PyText
  import opened Json
  import opened SnapshotWire
  import opened EffectSnapshot
  import opened SnapshotCodec
  import opened SnapshotTrip

  // ---- runs that stop ---------------------------------------------------------------------------

  lemma {:induction false} StopsAt(a: State, xs: seq<string>, b: State, line: string, rest: seq<string>, e: Error)
    requires Takes(a, xs, b) && Step(b, line) == Err(e)
    ensures Run(a, xs + ([line] + rest)) == Err(e)
    decreases |xs|
  {
    hide Step;
    var all := xs + ([line] + rest);
    if xs == [] {
      assert all[0] == line;
    } else {
      assert all[0] == xs[0] && all[1..] == xs[1..] + ([line] + rest);
      StopsAt(Step(a, xs[0]).value, xs[1..], b, line, rest, e);
    }
  }

  /** The lines of a whole file, read. */
  function ReadLines(lines: seq<string>): Result<Snapshot, Error> {
    Parsed(Join(lines))
  }

  lemma LinesRead(lines: seq<string>)
    requires NoFeeds(lines) && lines != []
    ensures ReadLines(lines) == match Run(START, lines) case Err(e) => Err(e) case Ok(st) => Finish(st)
  {
    SplitOfJoin(lines);
  }

  lemma Stopped(xs: seq<string>, b: State, line: string, rest: seq<string>, e: Error)
    requires Takes(START, xs, b) && Step(b, line) == Err(e) && NoFeeds(xs + ([line] + rest))
    ensures ReadLines(xs + ([line] + rest)) == Err(e)
  {
    hide Run, Step;
    StopsAt(START, xs, b, line, rest, e);
    LinesRead(xs + ([line] + rest));
  }

  // ---- lines at the margin ------------------------------------------------------------------------

  lemma WholeTakes(h: Header, methods: Table, reach: Table) returns (b: State)
    ensures Takes(START, HeaderLines(h) + BodyLines(methods, reach), b)
    ensures ReadsBack(h, methods, reach, b)
  {
    var a := START.(header := HeaderWire(h));
    HeaderTakes(h);
    b := BodyTakes(a, methods, reach);
    TakesAppend(START, HeaderLines(h), a, BodyLines(methods, reach), b);
  }

  lemma TakenValid(a: State, xs: seq<string>, b: State)
    requires Takes(a, xs, b)
    ensures b.Valid()
  {
  }

  /** Nothing but the four header fields and the two tables may stand at the margin, wherever it comes. */
  lemma UnknownTopLevelRefused(h: Header, methods: Table, reach: Table, name: string, text: string, rest: seq<string>)
    requires name != "" && name[0] != ' ' && name[0] != '#' && ':' !in name
    requires name !in {"schema", "rigor", "vocabulary", "config_digest", "methods", "reach"}
    requires '\n' !in name && '\n' !in text && NoFeeds(rest)
    ensures ReadLines(HeaderLines(h) + BodyLines(methods, reach) + ([name + (":" + text)] + rest)) == Err(UnknownTopLevel(name))
  {
    hide HeaderLines, BodyLines, Takes;
    var b := WholeTakes(h, methods, reach);
    var lines := HeaderLines(h) + BodyLines(methods, reach);
    TakenValid(START, lines, b);
    DocumentFeeds(h, methods, reach);
    AtMargin(name, ":" + text);
    PartitionAt(name, text);
    Stopped(lines, b, name + (":" + text), rest, UnknownTopLevel(name));
  }

  lemma HeaderOnly(h: Header) returns (b: State)
    ensures Takes(START, HeaderLines(h), b) && NoFeeds(HeaderLines(h))
    ensures b.Valid() && b == START.(header := HeaderWire(h))
  {
    b := START.(header := HeaderWire(h));
    HeaderTakes(h);
    HeaderFeeds(h);
  }

  /** What follows a table's name must be nothing or empty braces. */
  lemma BadOpenerRefused(h: Header, name: string, text: string, rest: seq<string>)
    requires name == "methods" || name == "reach"
    requires PyStrip(text) != "" && PyStrip(text) != "{}" && '\n' !in text && NoFeeds(rest)
    ensures ReadLines(HeaderLines(h) + ([name + (":" + text)] + rest)) == Err(BadOpener)
  {
    hide HeaderLines, Takes, PyStrip;
    var b := HeaderOnly(h);
    AtMargin(name, ":" + text);
    PartitionAt(name, text);
    Stopped(HeaderLines(h), b, name + (":" + text), rest, BadOpener);
  }

  // ---- rows and fields in the wrong place --------------------------------------------------------------

  lemma DeepLine(x: string)
    ensures !Ignored("    " + x) && FieldDepth("    " + x) && ("    " + x)[4..] == x
  {
  }

  lemma KeyedLine(x: string)
    requires |x| < 2 || x[..2] != "  "
    ensures var line := "  " + x; !Ignored(line) && !FieldDepth(line) && KeyDepth(line) && line[2..] == x
  {
    var line := "  " + x;
    if |line| >= 4 {
      assert line[..4] == "  " + x[..2];
      assert "    " == "  " + "  ";
      assert line[..4][2..] == x[..2];
    }
  }

  /** A field needs a row to belong to: none before the tables, and none right behind a table's name. */
  lemma FieldOutsideRowRefused(h: Header, name: string, text: string, rest: seq<string>)
    requires name == "methods" || name == "reach"
    requires '\n' !in text && NoFeeds(rest)
    ensures ReadLines(HeaderLines(h) + (["    " + text] + rest)) == Err(FieldOutsideRow)
    ensures ReadLines(HeaderLines(h) + [name + ":"] + (["    " + text] + rest)) == Err(FieldOutsideRow)
  {
    hide HeaderLines, Takes;
    var b := HeaderOnly(h);
    DeepLine(text);
    Stopped(HeaderLines(h), b, "    " + text, rest, FieldOutsideRow);
    var c := TableOpens(h, name);
    Stopped(HeaderLines(h) + [name + ":"], c, "    " + text, rest, FieldOutsideRow);
  }

  lemma TableOpens(h: Header, name: string) returns (c: State)
    requires name == "methods" || name == "reach"
    ensures Takes(START, HeaderLines(h) + [name + ":"], c) && NoFeeds(HeaderLines(h) + [name + ":"])
    ensures c == START.(header := HeaderWire(h), section := SectionName(name)) && c.Valid() && c.section.Some?
  {
    hide HeaderLines, Takes;
    var b := HeaderOnly(h);
    c := b.(section := SectionName(name));
    assert name + (":" + "") == name + ":";
    OpenerTakes(b, name, SectionName(name).value, "");
    TakesAppend(START, HeaderLines(h), b, [name + ":"], c);
  }

  /** A row needs a table to belong to. */
  lemma RowOutsideTableRefused(h: Header, text: string, rest: seq<string>)
    requires |text| < 2 || text[..2] != "  "
    requires '\n' !in text && NoFeeds(rest)
    ensures ReadLines(HeaderLines(h) + (["  " + text] + rest)) == Err(RowOutsideTable)
  {
    hide HeaderLines, Takes;
    var b := HeaderOnly(h);
    KeyedLine(text);
    Stopped(HeaderLines(h), b, "  " + text, rest, RowOutsideTable);
  }

  /** A row's key is a JSON string. */
  lemma BadKeyRefused(h: Header, name: string, text: string, rest: seq<string>)
    requires name == "methods" || name == "reach"
    requires text != "" && !PyWhite(text[0]) && text[0] != '"' && text[0] != ':'
    requires '\n' !in text && NoFeeds(rest)
    ensures ReadLines(HeaderLines(h) + [name + ":"] + (["  " + text] + rest)) == Err(BadKey)
  {
    hide HeaderLines, Takes;
    var c := TableOpens(h, name);
    assert |text| >= 2 ==> text[..2][0] != ' ';
    KeyedLine(text);
    NoString(text);
    Stopped(HeaderLines(h) + [name + ":"], c, "  " + text, rest, BadKey);
  }

  lemma {:induction false} RightKeepsFirst(s: string)
    requires s != "" && !PyWhite(s[0])
    ensures PyStripRight(s) != "" && PyStripRight(s)[0] == s[0]
    decreases |s|
  {
    if |s| > 1 {
      RightKeepsFirst(s[..|s| - 1]);
    }
  }

  lemma {:induction false} ColonsKeepFirst(s: string)
    requires s != "" && s[0] != ':'
    ensures DropColons(s) != "" && DropColons(s)[0] == s[0]
    decreases |s|
  {
    if |s| > 1 {
      ColonsKeepFirst(s[..|s| - 1]);
    }
  }

  lemma NoString(text: string)
    requires text != "" && !PyWhite(text[0]) && text[0] != '"' && text[0] != ':'
    ensures LoadString(DropColons(PyStripRight(text))) == None
  {
    RightKeepsFirst(text);
    ColonsKeepFirst(PyStripRight(text));
  }

  // ---- fields in any order and number --------------------------------------------------------------------

  datatype Cell = Cell(field: string, value: Wire)

  predicate RowCells(cells: seq<Cell>) {
    forall i :: 0 <= i < |cells| ==> cells[i].field in {"effects", "declared", "exhaustive", "unresolved"}
  }

  function CellLines(cells: seq<Cell>): (r: seq<string>)
    ensures |r| == |cells| && forall i :: 0 <= i < |r| ==> r[i] == FieldLine(cells[i].field, cells[i].value)
  {
    seq(|cells|, i requires 0 <= i < |cells| => FieldLine(cells[i].field, cells[i].value))
  }

  /** The last value given to a field. */
  function LastOf(cells: seq<Cell>, field: string): Option<Wire> {
    if cells == [] then None
    else if cells[|cells| - 1].field == field then Some(cells[|cells| - 1].value)
    else LastOf(cells[..|cells| - 1], field)
  }

  /** The row that these lines leave behind. */
  function RowOfCells(cells: seq<Cell>): RawRow {
    RawRow(LastOf(cells, "effects"), LastOf(cells, "declared"), LastOf(cells, "exhaustive"), LastOf(cells, "unresolved"))
  }

  lemma CellTakes(a: State, c: Cell)
    requires a.Valid() && a.key.Some? && RowCells([c])
    ensures KnownField(c.field)
    ensures Takes(a, [FieldLine(c.field, c.value)], WithRow(a, SetField(CurrentRow(a), c.field, c.value).value))
  {
    hide Takes, FieldLine;
    assert c == [c][0];
    FieldLineTakes(a, c.field, c.value);
  }

  lemma CellSets(cells: seq<Cell>, c: Cell)
    requires RowCells([c])
    ensures SetField(RowOfCells(cells), c.field, c.value) == Some(RowOfCells(cells + [c]))
  {
    assert c == [c][0];
    assert (cells + [c])[..|cells|] == cells;
  }

  lemma {:induction false} CellsTake(a: State, cells: seq<Cell>)
    requires a.Valid() && a.key.Some? && CurrentRow(a) == EMPTY_ROW && RowCells(cells)
    ensures Takes(a, CellLines(cells), WithRow(a, RowOfCells(cells)))
  {
    hide FieldLine, SetField, RowOfCells;
    if cells == [] {
      NoCells(a);
    } else {
      var front, last := cells[..|cells| - 1], cells[|cells| - 1];
      var b := WithRow(a, RowOfCells(front));
      CellsTake(a, front);
      assert CellLines(cells) == CellLines(front) + [FieldLine(last.field, last.value)];
      WithRowTwice(a, RowOfCells(front), RowOfCells(cells));
      CellTakes(b, last);
      CellSets(front, last);
      assert cells == front + [last];
      TakesAppend(a, CellLines(front), b, [FieldLine(last.field, last.value)], WithRow(a, RowOfCells(cells)));
    }
  }

  lemma NoCells(a: State)
    requires a.Valid() && a.key.Some? && CurrentRow(a) == EMPTY_ROW
    ensures Takes(a, CellLines([]), WithRow(a, RowOfCells([])))
  {
    assert CellLines([]) == [];
    assert RowOfCells([]) == EMPTY_ROW;
    var s := a.section.value;
    assert a.Table(s)[a.key.value := EMPTY_ROW] == a.Table(s);
  }

  /** The header, a table's name, and one row of these fields. */
  function OneRow(h: Header, name: string, key: string, cells: seq<Cell>): seq<string> {
    HeaderLines(h) + [name + ":"] + ([KeyLine(key)] + CellLines(cells))
  }

  lemma OneRowTakes(h: Header, name: string, key: string, cells: seq<Cell>) returns (b: State)
    requires (name == "methods" || name == "reach") && RowCells(cells)
    ensures Takes(START, OneRow(h, name, key, cells), b) && NoFeeds(OneRow(h, name, key, cells))
    ensures b.Valid() && b.header == HeaderWire(h) && b.section == SectionName(name) && b.key == Some(key)
    ensures b.methods == if name == "methods" then map[key := RowOfCells(cells)] else map[]
    ensures b.reach == if name == "reach" then map[key := RowOfCells(cells)] else map[]
  {
    hide HeaderLines, RowOfCells, KeyLine, Takes, FieldLine;
    var c := TableOpens(h, name);
    var s := c.section.value;
    KeyLineTakes(c, key);
    var d := c.WithTable(s, c.Table(s)[key := EMPTY_ROW]).(key := Some(key));
    CellsTake(d, cells);
    b := WithRow(d, RowOfCells(cells));
    TakesAppend(c, [KeyLine(key)], d, CellLines(cells), b);
    TakesAppend(START, HeaderLines(h) + [name + ":"], c, [KeyLine(key)] + CellLines(cells), b);
    CellFeeds(key, cells);
    assert map[][key := EMPTY_ROW][key := RowOfCells(cells)] == map[key := RowOfCells(cells)];
  }

  lemma CellFeeds(key: string, cells: seq<Cell>)
    requires RowCells(cells)
    ensures NoFeeds([KeyLine(key)] + CellLines(cells))
  {
    hide FieldLine, Dump;
    KeyFeeds(key);
    forall i | 0 <= i < |cells|
      ensures '\n' !in FieldLine(cells[i].field, cells[i].value)
    {
      FieldNames(cells[i].field);
      FieldLineFeeds(cells[i].field, cells[i].value);
    }
  }

  lemma FieldNames(field: string)
    requires field in {"effects", "declared", "exhaustive", "unresolved"}
    ensures '\n' !in field && ':' !in field && KnownField(field)
  {
  }

  lemma KeyFeeds(key: string)
    ensures '\n' !in KeyLine(key)
  {
    EscapeFeeds(key);
  }

  function Or(w: Option<Wire>, d: Wire): Wire {
    if w.Some? then w.value else d
  }

  /**
   A row's fields may come in any order, and the last of several counts. A field that is left out is an empty
   list, an exhaustive row, a count of zero; a count that is no number is refused.
   */
  lemma AnyRowReads(h: Header, name: string, key: string, cells: seq<Cell>)
    requires (name == "methods" || name == "reach") && RowCells(cells) && h.schema == 2
    ensures var n := LastOf(cells, "unresolved");
            var row := WireRow(Or(LastOf(cells, "effects"), List([])), Or(LastOf(cells, "declared"), List([])),
                               Or(LastOf(cells, "exhaustive"), Flag(true)), if n.Some? && n.value.Number? then n.value.n else 0);
            ReadLines(OneRow(h, name, key, cells)) ==
            if n.Some? && !n.value.Number? then Err(NotACount)
            else Ok(Snapshot(HeaderWire(h), if name == "methods" then map[key := row] else map[],
                             if name == "reach" then map[key := row] else map[]))
  {
    hide Run, OneRow, Takes;
    var b := OneRowTakes(h, name, key, cells);
    TakenLines(OneRow(h, name, key, cells), b);
    LinesRead(OneRow(h, name, key, cells));
    OneRowFinishes(h, name, key, cells, b);
  }

  lemma TakenLines(lines: seq<string>, b: State)
    requires Takes(START, lines, b)
    ensures Run(START, lines) == Ok(b)
    ensures lines == [] ==> b == START
  {
  }

  lemma OneRowFinishes(h: Header, name: string, key: string, cells: seq<Cell>, b: State)
    requires (name == "methods" || name == "reach") && h.schema == 2
    requires b.header == HeaderWire(h)
    requires b.methods == if name == "methods" then map[key := RowOfCells(cells)] else map[]
    requires b.reach == if name == "reach" then map[key := RowOfCells(cells)] else map[]
    ensures var n := LastOf(cells, "unresolved");
            var row := WireRow(Or(LastOf(cells, "effects"), List([])), Or(LastOf(cells, "declared"), List([])),
                               Or(LastOf(cells, "exhaustive"), Flag(true)), if n.Some? && n.value.Number? then n.value.n else 0);
            Finish(b) ==
            if n.Some? && !n.value.Number? then Err(NotACount)
            else Ok(Snapshot(HeaderWire(h), if name == "methods" then map[key := row] else map[],
                             if name == "reach" then map[key := row] else map[]))
  {
    var raw := RowOfCells(cells);
    assert HeaderWire(h).Keys == HEADER_KEYS;
    assert CountsOk(map[key := raw]) <==> CountOk(raw) by {
      assert map[key := raw][key] == raw;
    }
    assert CountsOk(map[]);
    assert CompletedTable(map[]) == map[];
    if CountOk(raw) {
      assert CompletedTable(map[key := raw]) == map[key := Completed(raw)];
    }
  }

  lemma {:induction false} ColonsDrop(d: string, n: nat)
    requires d != "" && d[|d| - 1] != ':'
    ensures DropColons(d + Replicate(':', n)) == d
    decreases n
  {
    var s := d + Replicate(':', n);
    if n == 0 {
      assert s == d;
    } else {
      assert s[..|s| - 1] == d + Replicate(':', n - 1);
      ColonsDrop(d, n - 1);
    }
  }

  /** A row's key line: the key, any number of colons, and white space. */
  function LooseKey(key: string, colons: nat, blank: string): string {
    "  " + (Dump(key) + Replicate(':', colons) + blank)
  }

  lemma LooseKeyStep(a: State, key: string, colons: nat, blank: string)
    requires a.Valid() && a.section.Some? && PyBlank(blank)
    ensures Step(a, LooseKey(key, colons, blank)) == Step(a, KeyLine(key))
  {
    hide Dump, LoadString, DropColons, PyStripRight;
    var d := Dump(key);
    var text := d + Replicate(':', colons);
    DumpEnds(key);
    StripRightOf(text, blank);
    ColonsDrop(d, colons);
    StripRightOf(d + ":", "");
    assert d + ":" + "" == d + ":";
    ColonsDrop(d, 1);
    assert Replicate(':', 1) == ":";
    assert (text + blank)[..2][0] == '"' && (d + ":")[..2][0] == '"';
    KeyedLine(text + blank);
    KeyedLine(d + ":");
  }

  lemma DumpEnds(key: string)
    ensures var d := Dump(key); |d| >= 2 && d[0] == '"' && d[|d| - 1] == '"' && !PyWhite('"') && !PyWhite(':')
  {
  }

  /** A key may be followed by any number of colons and white space. */
  lemma LooseKeyReads(h: Header, name: string, key: string, colons: nat, blank: string, cells: seq<Cell>)
    requires (name == "methods" || name == "reach") && RowCells(cells) && PyBlank(blank) && '\n' !in blank
    ensures ReadLines(HeaderLines(h) + [name + ":"] + ([LooseKey(key, colons, blank)] + CellLines(cells))) ==
            ReadLines(OneRow(h, name, key, cells))
  {
    hide HeaderLines, Step, Run, KeyLine, LooseKey, FieldLine;
    var c := TableOpens(h, name);
    var front, rest := HeaderLines(h) + [name + ":"], CellLines(cells);
    LooseKeyStep(c, key, colons, blank);
    CellFeeds(key, cells);
    LooseFeeds(key, colons, blank);
    FeedsBehind(KeyLine(key), rest);
    LinesRead(front + ([LooseKey(key, colons, blank)] + rest));
    LinesRead(OneRow(h, name, key, cells));
    SameStepRun(START, front, c, LooseKey(key, colons, blank), KeyLine(key), rest);
  }

  lemma FeedsBehind(line: string, rest: seq<string>)
    requires NoFeeds([line] + rest)
    ensures NoFeeds(rest)
  {
    forall i | 0 <= i < |rest|
      ensures '\n' !in rest[i]
    {
      assert ([line] + rest)[i + 1] == rest[i];
    }
  }

  lemma LooseFeeds(key: string, colons: nat, blank: string)
    requires '\n' !in blank
    ensures '\n' !in LooseKey(key, colons, blank)
  {
    EscapeFeeds(key);
  }

  lemma {:induction false} SameStepRun(a: State, xs: seq<string>, b: State, x: string, y: string, rest: seq<string>)
    requires Takes(a, xs, b) && Step(b, x) == Step(b, y)
    ensures Run(a, xs + ([x] + rest)) == Run(a, xs + ([y] + rest))
    decreases |xs|
  {
    hide Step;
    var p, q := xs + ([x] + rest), xs + ([y] + rest);
    if xs == [] {
      assert p[0] == x && q[0] == y && p[1..] == rest && q[1..] == rest;
    } else {
      assert p[0] == xs[0] && p[1..] == xs[1..] + ([x] + rest);
      assert q[0] == xs[0] && q[1..] == xs[1..] + ([y] + rest);
      SameStepRun(Step(a, xs[0]).value, xs[1..], b, x, y, rest);
    }
  }

  /** No other field is known. */
  lemma UnknownFieldRefused(h: Header, name: string, key: string, cells: seq<Cell>, field: string, text: string, rest: seq<string>)
    requires (name == "methods" || name == "reach") && RowCells(cells)
    requires field !in {"effects", "declared", "exhaustive", "unresolved"} && ':' !in field
    requires '\n' !in field && '\n' !in text && NoFeeds(rest)
    ensures ReadLines(OneRow(h, name, key, cells) + (["    " + (field + (":" + text))] + rest)) == Err(UnknownField(field))
  {
    hide OneRow, Takes;
    var b := OneRowTakes(h, name, key, cells);
    DeepLine(field + (":" + text));
    PartitionAt(field, text);
    Stopped(OneRow(h, name, key, cells), b, "    " + (field + (":" + text)), rest, UnknownField(field));
  }

  /** A value is a list, a flag, a string or a number, or it is refused. */
  lemma BadValueRefused(h: Header, name: string, key: string, cells: seq<Cell>, field: string, text: string, rest: seq<string>)
    requires (name == "methods" || name == "reach") && RowCells(cells)
    requires field in {"effects", "declared", "exhaustive", "unresolved"}
    requires ReadWire(PyStrip(text)).None? && '\n' !in text && NoFeeds(rest)
    ensures ReadLines(OneRow(h, name, key, cells) + (["    " + (field + (":" + text))] + rest)) == Err(BadValue(text))
  {
    hide OneRow, Takes, ReadWire, PyStrip;
    var b := OneRowTakes(h, name, key, cells);
    FieldNames(field);
    DeepLine(field + (":" + text));
    PartitionAt(field, text);
    Stopped(OneRow(h, name, key, cells), b, "    " + (field + (":" + text)), rest, BadValue(text));
  }

  // ---- integers ------------------------------------------------------------------------------------------

  /** Digits, with single underscores between them. */
  predicate Grouped(s: string) {
    && s != "" && s[0] != '_' && s[|s| - 1] != '_'
    && (forall i :: 0 <= i < |s| ==> '0' <= s[i] <= '9' || s[i] == '_')
    && forall i :: 0 < i < |s| ==> s[i] != '_' || s[i - 1] != '_'
  }

  /** The number that the digits stand for. */
  function Worth(s: string): int {
    if s == "" then 0
    else if s[|s| - 1] == '_' then Worth(s[..|s| - 1])
    else 10 * Worth(s[..|s| - 1]) + (s[|s| - 1] as int - 48)
  }

  lemma GroupedEnds(s: string)
    requires s != "" && IsDigit(s[|s| - 1])
    ensures var init := s[..|s| - 1];
            var front := if init != [] && init[|init| - 1] == '_' then init[..|init| - 1] else init;
            && (Grouped(s) <==> init == [] || Grouped(front)) && Worth(init) == Worth(front)
            && (init == [] ==> Worth(s) == s[0] as int - 48)
            && Worth(s) == 10 * Worth(init) + (s[|s| - 1] as int - 48)
  {
    var init := s[..|s| - 1];
    var front := if init != [] && init[|init| - 1] == '_' then init[..|init| - 1] else init;
    assert forall i :: 0 <= i < |front| ==> front[i] == s[i];
    if init != [] && Grouped(front) {
      forall i | 0 < i < |s|
        ensures s[i] != '_' || s[i - 1] != '_'
      {
        assert i < |front| ==> front[i] != '_' || front[i - 1] != '_';
      }
    }
    if init == [] {
      assert Worth(init) == 0;
    }
  }

  lemma {:induction false} DigitsIff(s: string, n: int)
    ensures ReadDigits(s) == Some(n) <==> Grouped(s) && Worth(s) == n
    decreases |s|
  {
    hide Worth, Grouped;
    if s != "" && IsDigit(s[|s| - 1]) {
      GroupedEnds(s);
      var init := s[..|s| - 1];
      if init != [] {
        var front := if init[|init| - 1] == '_' then init[..|init| - 1] else init;
        DigitsIff(front, Worth(front));
        if ReadDigits(front).Some? {
          DigitsIff(front, ReadDigits(front).value);
        }
      }
    } else {
      NotGrouped(s);
    }
  }

  lemma NotGrouped(s: string)
    requires s == "" || !IsDigit(s[|s| - 1])
    ensures !Grouped(s)
  {
  }

  /** A sign at most, and grouped digits. */
  ghost predicate Spells(s: string, n: int) {
    (Grouped(s) && Worth(s) == n)
    || (s != "" && (s[0] == '+' || s[0] == '-') && Grouped(s[1..]) && Worth(s[1..]) == if s[0] == '-' then -n else n)
  }

  /** What stands behind a field's colon reads as a flag or a number by exactly these spellings. */
  lemma ValueIs(s: string, n: int)
    requires Solid(s) && s[0] != '[' && s[0] != '"'
    ensures ReadWire(s) == Some(Flag(true)) <==> s == "true"
    ensures ReadWire(s) == Some(Flag(false)) <==> s == "false"
    ensures ReadWire(s) == Some(Number(n)) <==> Spells(s, n)
  {
    hide ReadDigits, Worth;
    StripOne(s);
    DigitsIff(s, n);
    DigitsIff(s[1..], n);
    DigitsIff(s[1..], -n);
    if s == "true" || s == "false" {
      assert !IsDigit(s[|s| - 1]);
      NotGrouped(s);
    }
    if Grouped(s) {
      assert IsDigit(s[0]) && IsDigit(s[|s| - 1]);
    }
  }

  // ---- the header --------------------------------------------------------------------------------------

  predicate HeaderCells(cells: seq<Cell>) {
    forall i :: 0 <= i < |cells| ==> cells[i].field in {"schema", "rigor", "vocabulary", "config_digest"}
  }

  /** One of the four is never given. */
  predicate Incomplete(cells: seq<Cell>) {
    LastOf(cells, "schema").None? || LastOf(cells, "rigor").None? || LastOf(cells, "vocabulary").None?
    || LastOf(cells, "config_digest").None?
  }

  function TopLines(cells: seq<Cell>): (r: seq<string>)
    ensures |r| == |cells| && forall i :: 0 <= i < |r| ==> r[i] == TopLine(cells[i].field, cells[i].value)
  {
    seq(|cells|, i requires 0 <= i < |cells| => TopLine(cells[i].field, cells[i].value))
  }

  /** Each name with the last value given to it. */
  ghost predicate HoldsLast(header: map<string, Wire>, cells: seq<Cell>) {
    forall name :: (name in header <==> LastOf(cells, name).Some?) && (name in header ==> LastOf(cells, name) == Some(header[name]))
  }

  lemma HoldsMore(header: map<string, Wire>, cells: seq<Cell>, c: Cell)
    requires HoldsLast(header, cells)
    ensures HoldsLast(header[c.field := c.value], cells + [c])
  {
    assert (cells + [c])[..|cells|] == cells;
    forall name
      ensures LastOf(cells + [c], name) == if name == c.field then Some(c.value) else LastOf(cells, name)
    {
    }
  }

  lemma HeaderNames(name: string)
    requires name in {"schema", "rigor", "vocabulary", "config_digest"}
    ensures HeaderName(name) && Marginal(name) && '\n' !in name
  {
  }

  lemma {:induction false} TopLinesTake(cells: seq<Cell>) returns (header: map<string, Wire>)
    requires HeaderCells(cells)
    ensures Takes(START, TopLines(cells), START.(header := header)) && HoldsLast(header, cells)
  {
    hide TopLine, HoldsLast, HeaderName, Marginal;
    if cells == [] {
      header := map[];
      NoHeader();
    } else {
      var front, last := cells[..|cells| - 1], cells[|cells| - 1];
      var before := TopLinesTake(front);
      header := before[last.field := last.value];
      HeaderNames(last.field);
      var b := START.(header := before);
      TopLineTakes(b, last.field, last.value);
      assert TopLines(cells) == TopLines(front) + [TopLine(last.field, last.value)];
      TakesAppend(START, TopLines(front), b, [TopLine(last.field, last.value)], START.(header := header));
      HoldsMore(before, front, last);
      assert cells == front + [last];
    }
  }

  lemma NoHeader()
    ensures TopLines([]) == [] && Takes(START, [], START.(header := map[])) && HoldsLast(map[], [])
  {
  }

  lemma TopLinesFeeds(cells: seq<Cell>)
    requires HeaderCells(cells)
    ensures NoFeeds(TopLines(cells))
  {
    hide TopLine;
    forall i | 0 <= i < |cells|
      ensures '\n' !in TopLine(cells[i].field, cells[i].value)
    {
      HeaderNames(cells[i].field);
      TopLineFeeds(cells[i].field, cells[i].value);
    }
  }

  /**
   The header fields may come in any order, and the last of several counts; all four have to be there, and the
   schema has to be the number 2.
   */
  lemma AnyHeaderReads(cells: seq<Cell>, methods: Table, reach: Table) returns (header: map<string, Wire>)
    requires HeaderCells(cells)
    ensures HoldsLast(header, cells)
    ensures ReadLines(TopLines(cells) + BodyLines(methods, reach)) ==
            if Incomplete(cells) then Err(HeaderFields)
            else if LastOf(cells, "schema") != Some(Number(2)) then Err(SchemaMoved)
            else Ok(Snapshot(header, SpelledTable(methods), SpelledTable(reach)))
  {
    hide TopLines, BodyLines, Run, Takes, HoldsLast, SpelledTable, Finish;
    header := TopLinesTake(cells);
    var a := START.(header := header);
    var lines := TopLines(cells) + BodyLines(methods, reach);
    var b := BodyTakes(a, methods, reach);
    TakesAppend(START, TopLines(cells), a, BodyLines(methods, reach), b);
    TopLinesFeeds(cells);
    BodyFeeds(methods, reach);
    TakenLines(lines, b);
    LinesRead(lines);
    HeaderFinishes(header, cells, methods, reach, b);
  }

  lemma BodyFeeds(methods: Table, reach: Table)
    ensures NoFeeds(BodyLines(methods, reach)) && BodyLines(methods, reach) != []
  {
    TableFeeds("methods", methods);
    NoteFeeds();
    TableFeeds("reach", reach);
    assert TableLines("methods", methods) != [];
  }

  lemma HeaderFinishes(header: map<string, Wire>, cells: seq<Cell>, methods: Table, reach: Table, b: State)
    requires HeaderCells(cells) && HoldsLast(header, cells)
    requires b.header == header && b.methods == RawTableOf(methods) && b.reach == RawTableOf(reach)
    ensures Finish(b) ==
            if Incomplete(cells) then Err(HeaderFields)
            else if LastOf(cells, "schema") != Some(Number(2)) then Err(SchemaMoved)
            else Ok(Snapshot(header, SpelledTable(methods), SpelledTable(reach)))
  {
    hide RawTableOf, SpelledTable, CompletedTable, CountsOk, HoldsLast, LastOf;
    RawCompletes(methods);
    RawCompletes(reach);
    KeysIff(header, cells);
    SchemaHeld(header, cells);
    assert "schema" in HEADER_KEYS;
  }

  lemma SchemaHeld(header: map<string, Wire>, cells: seq<Cell>)
    requires HoldsLast(header, cells)
    ensures "schema" in header ==> LastOf(cells, "schema") == Some(header["schema"])
  {
  }

  lemma KeysIff(header: map<string, Wire>, cells: seq<Cell>)
    requires HeaderCells(cells) && HoldsLast(header, cells)
    ensures header.Keys == HEADER_KEYS <==> !Incomplete(cells)
  {
    OnlyHeaderNames(cells);
    assert forall name :: name in header ==> name in HEADER_KEYS;
    assert header.Keys == HEADER_KEYS <==> forall name :: name in HEADER_KEYS ==> name in header;
    assert "schema" in HEADER_KEYS && "rigor" in HEADER_KEYS && "vocabulary" in HEADER_KEYS && "config_digest" in HEADER_KEYS;
  }

  lemma {:induction false} OnlyHeaderNames(cells: seq<Cell>)
    requires HeaderCells(cells)
    ensures forall name :: LastOf(cells, name).Some? ==> name in {"schema", "rigor", "vocabulary", "config_digest"}
  {
    if cells != [] {
      OnlyHeaderNames(cells[..|cells| - 1]);
    }
  }

  // ---- comments ----------------------------------------------------------------------------------------

  lemma {:induction false} IgnoredInRun(st: State, a: seq<string>, line: string, b: seq<string>)
    requires st.Valid() && (line == "" || line[0] == '#')
    ensures Run(st, a + ([line] + b)) == Run(st, a + b)
    decreases |a|
  {
    hide FieldStep, KeyStep, TopStep, FieldDepth, KeyDepth;
    var all := a + ([line] + b);
    if a == [] {
      assert all[0] == line && all[1..] == b && a + b == b;
    } else {
      assert all[0] == a[0] && all[1..] == a[1..] + ([line] + b);
      assert (a + b)[0] == a[0] && (a + b)[1..] == a[1..] + b;
      if Step(st, a[0]).Ok? {
        IgnoredInRun(Step(st, a[0]).value, a[1..], line, b);
      }
    }
  }

  /** Empty lines and comments can stand anywhere. */
  lemma CommentsIgnored(a: seq<string>, line: string, b: seq<string>)
    requires line == "" || line[0] == '#'
    requires '\n' !in line && NoFeeds(a + b) && a + b != []
    ensures ReadLines(a + ([line] + b)) == ReadLines(a + b)
  {
    hide Run;
    assert NoFeeds(a + ([line] + b)) by {
      FeedsAround(a, line, b);
    }
    LinesRead(a + ([line] + b));
    LinesRead(a + b);
    IgnoredInRun(START, a, line, b);
  }

  lemma FeedsAround(a: seq<string>, line: string, b: seq<string>)
    requires '\n' !in line && NoFeeds(a + b)
    ensures NoFeeds(a + ([line] + b))
  {
    var all, rest := a + ([line] + b), a + b;
    forall i | 0 <= i < |all|
      ensures '\n' !in all[i]
    {
      assert i < |a| ==> all[i] == rest[i];
      assert i > |a| ==> all[i] == rest[i - 1];
    }
  }
}
