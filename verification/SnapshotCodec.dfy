/** The committed effect snapshot: its writer, and its line-by-line reader. */
module SnapshotCodec {
  import opened Wrappers
  import opened Text
  import opened PyText
  import opened Json
  import opened Ordering
  import opened SnapshotWire
  import opened EffectSnapshot

  datatype Header = Header(schema: int, rigor: string, vocabulary: int, digest: string)

  const PINNED_SCHEMA := 2

  const COMMENT :=
    "# .rigor-effects.yml \U{2014} generated" + " by `rigor effects update`." + " Commit it; review its diff."

  const NOTE_EMPTY :=
    "# `reach:` is empty. It records" + " the TRANSITIVE footprint at" + " your entry points \U{2014} what a"
  const NOTE_ACTION :=
    "# controller action or a job" + " causes, rather than what its" + " own body does \U{2014} and it is"
    + " the half of"
  const NOTE_REVIEW :=
    "# this file most worth" + " reviewing. Fill it in by" + " naming entry points in" + " `.rigor.yml`:"
  const NOTE_BLANK := "#"
  const NOTE_EFFECTS := "#   effects:"
  const NOTE_SNAPSHOT := "#     snapshot:"
  const NOTE_PRESET :=
    "#       reach: [rails]" + "          # a preset a plugin" + " registered, or a" + " project-relative file glob"
  const NOTE_PRINTS :=
    "# `rigor effects update`" + " prints the presets this" + " project's plugins" + " actually register."

  /** Written between the tables when `reach:` is empty. */
  const EMPTY_REACH_NOTE := [
    "", NOTE_EMPTY, NOTE_ACTION, NOTE_REVIEW, NOTE_BLANK, NOTE_EFFECTS, NOTE_SNAPSHOT, NOTE_PRESET, NOTE_BLANK,
    NOTE_PRINTS
  ]

  // ---- writing ---------------------------------------------------------------------------

  /** `name: value` at the left margin. */
  function TopLine(name: string, w: Wire): string {
    name + (":" + (" " + ShowWire(w)))
  }

  function KeyLine(key: string): string {
    "  " + (Dump(key) + ":")
  }

  function FieldLine(field: string, w: Wire): string {
    "    " + (field + (":" + (" " + ShowWire(w))))
  }

  function HeaderLines(h: Header): seq<string> {
    [COMMENT,
     TopLine("schema", Number(h.schema)),
     TopLine("rigor", Words(h.rigor)),
     TopLine("vocabulary", Number(h.vocabulary)),
     TopLine("config_digest", Words(h.digest))]
  }

  /** The fields of a row, without those that hold their default. */
  function RowFields(row: Row): seq<(string, Wire)> {
    [("effects", List(row.effects))]
    + (if row.declared == [] then [] else [("declared", List(row.declared))])
    + (if row.exhaustive then [] else [("exhaustive", Flag(false))])
    + (if row.unresolved == 0 then [] else [("unresolved", Number(row.unresolved))])
  }

  function FieldLines(fields: seq<(string, Wire)>): seq<string> {
    if fields == [] then []
    else [FieldLine(fields[0].0, fields[0].1)] + FieldLines(fields[1..])
  }

  /** The rows of a table in the order of `keys`. */
  function RowsLines(keys: seq<string>, table: Table): seq<string>
    requires forall k :: k in keys ==> k in table
  {
    if keys == [] then []
    else RowLines(keys[0], table[keys[0]]) + RowsLines(keys[1..], table)
  }

  ghost function TableLines(name: string, table: Table): seq<string> {
    if |table| == 0 then [name + ": {}"]
    else [name + ":"] + RowsLines(Sorted(table.Keys), table)
  }

  ghost function BodyLines(methods: Table, reach: Table): seq<string> {
    TableLines("methods", methods)
    + (if |reach| == 0 then EMPTY_REACH_NOTE else [])
    + TableLines("reach", reach)
  }

  ghost function Rendered(h: Header, methods: Table, reach: Table): string {
    Unlines(HeaderLines(h) + BodyLines(methods, reach))
  }

  lemma FieldLinesStep(fields: seq<(string, Wire)>, i: nat)
    requires i < |fields|
    ensures FieldLines(fields[i..]) == [FieldLine(fields[i].0, fields[i].1)] + FieldLines(fields[i + 1..])
  {
    assert fields[i..][0] == fields[i] && fields[i..][1..] == fields[i + 1..];
  }

  /** The lines of one row. */
  function RowLines(key: string, row: Row): seq<string> {
    [KeyLine(key)] + FieldLines(RowFields(row))
  }

  /** Append one row. */
  method PushRow(lines: seq<string>, key: string, row: Row) returns (r: seq<string>)
    ensures r == lines + RowLines(key, row)
  {
    var fields := RowFields(row);
    r := lines + [KeyLine(key)];
    AppendAssoc(lines, [KeyLine(key)], FieldLines(fields));
    r := PushFields(r, fields);
  }

  method PushFields(lines: seq<string>, fields: seq<(string, Wire)>) returns (r: seq<string>)
    ensures r == lines + FieldLines(fields)
  {
    r := lines;
    var i := 0;
    ghost var whole := lines + FieldLines(fields);
    assert fields[0..] == fields;
    while i < |fields|
      invariant 0 <= i <= |fields|
      invariant r + FieldLines(fields[i..]) == whole
    {
      var line := FieldLine(fields[i].0, fields[i].1);
      FieldLinesStep(fields, i);
      AppendAssoc(r, [line], FieldLines(fields[i + 1..]));
      r := r + [line];
      i := i + 1;
    }
  }

  lemma RowsLinesStep(keys: seq<string>, table: Table, i: nat)
    requires i < |keys| && forall k :: k in keys ==> k in table
    ensures RowsLines(keys[i..], table) == RowLines(keys[i], table[keys[i]]) + RowsLines(keys[i + 1..], table)
  {
    assert keys[i..][0] == keys[i] && keys[i..][1..] == keys[i + 1..];
  }

  method PushRows(lines: seq<string>, keys: seq<string>, table: Table) returns (r: seq<string>)
    requires forall k :: k in keys ==> k in table
    ensures r == lines + RowsLines(keys, table)
  {
    r := lines;
    var i := 0;
    ghost var whole := lines + RowsLines(keys, table);
    assert keys[0..] == keys;
    while i < |keys|
      invariant 0 <= i <= |keys|
      invariant r + RowsLines(keys[i..], table) == whole
    {
      RowsLinesStep(keys, table, i);
      AppendAssoc(r, RowLines(keys[i], table[keys[i]]), RowsLines(keys[i + 1..], table));
      r := PushRow(r, keys[i], table[keys[i]]);
      i := i + 1;
    }
  }

  /** Append one table. */
  method PushTable(lines: seq<string>, name: string, table: Table) returns (r: seq<string>)
    ensures r == lines + TableLines(name, table)
  {
    if |table| == 0 {
      return lines + [name + ": {}"];
    }
    var keys := Sort(table.Keys);
    AppendAssoc(lines, [name + ":"], RowsLines(keys, table));
    r := PushRows(lines + [name + ":"], keys, table);
  }

  method RenderSnapshot(h: Header, methods: Table, reach: Table) returns (text: string)
    ensures text == Rendered(h, methods, reach)
  {
    hide HeaderLines, TableLines;
    var body := PushTable([], "methods", methods);
    if |reach| == 0 {
      body := body + EMPTY_REACH_NOTE;
    }
    body := PushTable(body, "reach", reach);
    assert body == BodyLines(methods, reach);
    text := Unlines(HeaderLines(h)) + Unlines(body);
    UnlinesAppend(HeaderLines(h), body);
  }

  // ---- reading ---------------------------------------------------------------------------

  datatype Error =
    | FieldOutsideRow
    | UnknownField(name: string)
    | RowOutsideTable
    | BadKey
    | BadValue(text: string)
    | BadOpener
    | UnknownTopLevel(name: string)
    | HeaderFields
    | SchemaMoved
    | NotACount

  datatype Section = Methods | Reach

  /** A row as far as it has been read. */
  datatype RawRow = RawRow(effects: Option<Wire>, declared: Option<Wire>, exhaustive: Option<Wire>,
    unresolved: Option<Wire>)

  type RawTable = map<string, RawRow>

  datatype State = State(header: map<string, Wire>, methods: RawTable, reach: RawTable,
    section: Option<Section>, key: Option<string>)
  {
    function Table(s: Section): RawTable {
      if s.Methods? then methods else reach
    }

    function WithTable(s: Section, t: RawTable): State {
      if s.Methods? then this.(methods := t) else this.(reach := t)
    }

    /** The row being filled, when there is one, is in the table being filled. */
    predicate Valid() {
      key.Some? ==> section.Some? && key.value in Table(section.value)
    }
  }

  const START := State(map[], map[], map[], None, None)

  const EMPTY_ROW := RawRow(None, None, None, None)

  function SetField(row: RawRow, field: string, w: Wire): Option<RawRow> {
    if field == "effects" then Some(row.(effects := Some(w)))
    else if field == "declared" then Some(row.(declared := Some(w)))
    else if field == "exhaustive" then Some(row.(exhaustive := Some(w)))
    else if field == "unresolved" then Some(row.(unresolved := Some(w)))
    else None
  }

  predicate KnownField(field: string) {
    field == "effects" || field == "declared" || field == "exhaustive" || field == "unresolved"
  }

  predicate HeaderName(name: string) {
    name == "schema" || name == "rigor" || name == "vocabulary" || name == "config_digest"
  }

  function SectionName(name: string): Option<Section> {
    if name == "methods" then Some(Methods) else if name == "reach" then Some(Reach) else None
  }

  predicate Ignored(line: string) {
    line == [] || line[0] == '#'
  }

  predicate FieldDepth(line: string) {
    |line| >= 4 && line[..4] == "    "
  }

  predicate KeyDepth(line: string) {
    |line| >= 2 && line[..2] == "  "
  }

  /** A line at field depth, already freed from its indentation. */
  function FieldStep(st: State, text: string): (r: Result<State, Error>)
    requires st.Valid()
    ensures r.Ok? ==> r.value.Valid()
  {
    if st.section.None? || st.key.None? then Err(FieldOutsideRow)
    else
      var p := Partition(text);
      if !KnownField(p.0) then Err(UnknownField(p.0))
      else
        match ReadWire(PyStrip(p.1))
        case None => Err(BadValue(p.1))
        case Some(w) =>
          var s, k := st.section.value, st.key.value;
          var table := st.Table(s);
          Ok(st.WithTable(s, table[k := SetField(table[k], p.0, w).value]))
  }

  /** A line at key depth, already freed from its indentation. */
  function KeyStep(st: State, text: string): (r: Result<State, Error>)
    ensures r.Ok? ==> r.value.Valid()
  {
    if st.section.None? then Err(RowOutsideTable)
    else
      match LoadString(DropColons(PyStripRight(text)))
      case None => Err(BadKey)
      case Some(k) =>
        var s := st.section.value;
        Ok(st.WithTable(s, st.Table(s)[k := EMPTY_ROW]).(key := Some(k)))
  }

  function TopStep(st: State, line: string): (r: Result<State, Error>)
    requires st.Valid()
    ensures r.Ok? ==> r.value.Valid()
  {
    var p := Partition(line);
    if SectionName(p.0).Some? then
      if PyStrip(p.1) != "" && PyStrip(p.1) != "{}" then Err(BadOpener)
      else Ok(st.(section := SectionName(p.0), key := None))
    else if HeaderName(p.0) then
      (match ReadWire(PyStrip(p.1))
       case None => Err(BadValue(p.1))
       case Some(w) => Ok(st.(header := st.header[p.0 := w])))
    else Err(UnknownTopLevel(p.0))
  }

  function Step(st: State, line: string): (r: Result<State, Error>)
    requires st.Valid()
    ensures r.Ok? ==> r.value.Valid()
  {
    if Ignored(line) then Ok(st)
    else if FieldDepth(line) then FieldStep(st, line[4..])
    else if KeyDepth(line) then KeyStep(st, line[2..])
    else TopStep(st, line)
  }

  function Run(st: State, lines: seq<string>): (r: Result<State, Error>)
    requires st.Valid()
    ensures r.Ok? ==> r.value.Valid()
    decreases |lines|
  {
    if lines == [] then Ok(st)
    else
      match Step(st, lines[0])
      case Err(e) => Err(e)
      case Ok(st') => Run(st', lines[1..])
  }

  /** A row with the defaults of the fields it did not spell out. */
  datatype WireRow = WireRow(effects: Wire, declared: Wire, exhaustive: Wire, unresolved: int)

  type WireTable = map<string, WireRow>

  datatype Snapshot = Snapshot(header: map<string, Wire>, methods: WireTable, reach: WireTable)

  function OrElse(w: Option<Wire>, default: Wire): Wire {
    if w.Some? then w.value else default
  }

  predicate CountOk(row: RawRow) {
    row.unresolved.None? || row.unresolved.value.Number?
  }

  function Completed(row: RawRow): WireRow
    requires CountOk(row)
  {
    WireRow(OrElse(row.effects, List([])), OrElse(row.declared, List([])), OrElse(row.exhaustive, Flag(true)),
            if row.unresolved.None? then 0 else row.unresolved.value.n)
  }

  predicate CountsOk(table: RawTable) {
    forall k :: k in table ==> CountOk(table[k])
  }

  function CompletedTable(table: RawTable): WireTable
    requires CountsOk(table)
  {
    map k | k in table :: Completed(table[k])
  }

  const HEADER_KEYS := {"schema", "rigor", "vocabulary", "config_digest"}

  function Finish(st: State): Result<Snapshot, Error> {
    if st.header.Keys != HEADER_KEYS then Err(HeaderFields)
    else if st.header["schema"] != Number(PINNED_SCHEMA) then Err(SchemaMoved)
    else if !CountsOk(st.methods) || !CountsOk(st.reach) then Err(NotACount)
    else Ok(Snapshot(st.header, CompletedTable(st.methods), CompletedTable(st.reach)))
  }

  function Parsed(text: string): Result<Snapshot, Error> {
    match Run(START, Split(text, '\n'))
    case Err(e) => Err(e)
    case Ok(st) => Finish(st)
  }

  /** Fill in the defaults of one table, row by row. */
  method Complete(table: RawTable) returns (r: Option<WireTable>)
    ensures r.Some? <==> CountsOk(table)
    ensures r.Some? ==> r.value == CompletedTable(table)
  {
    var out: WireTable := map[];
    var todo := table.Keys;
    while todo != {}
      invariant todo <= table.Keys
      invariant out.Keys == table.Keys - todo
      invariant forall k :: k in out ==> CountOk(table[k]) && out[k] == Completed(table[k])
      decreases todo
    {
      var k :| k in todo;
      if !CountOk(table[k]) {
        return None;
      }
      out, todo := out[k := Completed(table[k])], todo - {k};
    }
    return Some(out);
  }

  /** The reader's loop over the lines, with its five local variables. */
  method ParseSnapshot(text: string) returns (r: Result<Snapshot, Error>)
    ensures r == Parsed(text)
  {
    var header: map<string, Wire> := map[];
    var tables: map<Section, RawTable> := map[Methods := map[], Reach := map[]];
    var section: Option<Section> := None;
    var key: Option<string> := None;
    var lines := Split(text, '\n');
    ghost var whole := Run(START, lines);
    var i := 0;
    assert lines[0..] == lines;
    while i < |lines|
      invariant 0 <= i <= |lines|
      invariant Methods in tables && Reach in tables
      invariant State(header, tables[Methods], tables[Reach], section, key).Valid()
      invariant Run(State(header, tables[Methods], tables[Reach], section, key), lines[i..]) == whole
    {
      var line := lines[i];
      ghost var st := State(header, tables[Methods], tables[Reach], section, key);
      assert lines[i..][0] == line && lines[i..][1..] == lines[i + 1..];
      i := i + 1;
      if Ignored(line) {
        continue;
      }
      if FieldDepth(line) {
        if section.None? || key.None? {
          return Err(FieldOutsideRow);
        }
        var p := Partition(line[4..]);
        if !KnownField(p.0) {
          return Err(UnknownField(p.0));
        }
        var w := ReadWire(PyStrip(p.1));
        if w.None? {
          return Err(BadValue(p.1));
        }
        assert section.value in tables;
        var table := tables[section.value];
        tables := tables[section.value := table[key.value := SetField(table[key.value], p.0, w.value).value]];
      } else if KeyDepth(line) {
        if section.None? {
          return Err(RowOutsideTable);
        }
        var k := LoadString(DropColons(PyStripRight(line[2..])));
        if k.None? {
          return Err(BadKey);
        }
        key := k;
        assert section.value in tables;
        tables := tables[section.value := tables[section.value][k.value := EMPTY_ROW]];
      } else {
        var p := Partition(line);
        if SectionName(p.0).Some? {
          section, key := SectionName(p.0), None;
          if PyStrip(p.1) != "" && PyStrip(p.1) != "{}" {
            return Err(BadOpener);
          }
        } else if HeaderName(p.0) {
          var w := ReadWire(PyStrip(p.1));
          if w.None? {
            return Err(BadValue(p.1));
          }
          header := header[p.0 := w.value];
        } else {
          return Err(UnknownTopLevel(p.0));
        }
      }
      assert Step(st, line) == Ok(State(header, tables[Methods], tables[Reach], section, key));
    }
    if header.Keys != HEADER_KEYS {
      return Err(HeaderFields);
    }
    if header["schema"] != Number(PINNED_SCHEMA) {
      return Err(SchemaMoved);
    }
    var methods := Complete(tables[Methods]);
    var reach := Complete(tables[Reach]);
    if methods.None? || reach.None? {
      return Err(NotACount);
    }
    return Ok(Snapshot(header, methods.value, reach.value));
  }
}
