/** Reading an effect snapshot undoes writing it. */
module SnapshotTrip {
  import opened Wrappers
  import opened Text
  import opened PyText
  import opened Json
  import opened Ordering
  import opened SnapshotWire
  import opened EffectSnapshot
  import opened SnapshotCodec

  // ---- runs ------------------------------------------------------------------------------

  /** `lines` take the reader from `a` to `b`. */
  ghost predicate Takes(a: State, lines: seq<string>, b: State) {
    a.Valid() && Run(a, lines) == Ok(b)
  }

  lemma {:induction false} TakesAppend(a: State, xs: seq<string>, b: State, ys: seq<string>, c: State)
    requires Takes(a, xs, b) && Takes(b, ys, c)
    ensures Takes(a, xs + ys, c)
    decreases |xs|
  {
    if xs == [] {
      assert xs + ys == ys;
    } else {
      TakesAppend(Step(a, xs[0]).value, xs[1..], b, ys, c);
      assert (xs + ys)[1..] == xs[1..] + ys;
    }
  }

  lemma TakesOne(a: State, line: string, b: State)
    requires a.Valid() && Step(a, line) == Ok(b)
    ensures Takes(a, [line], b)
  {
    assert [line][1..] == [];
  }

  lemma {:induction false} TakesIgnored(a: State, lines: seq<string>)
    requires a.Valid() && forall i :: 0 <= i < |lines| ==> Ignored(lines[i])
    ensures Takes(a, lines, a)
    decreases |lines|
  {
    if lines != [] {
      TakesIgnored(a, lines[1..]);
    }
  }

  // ---- single lines ----------------------------------------------------------------------

  /** A name as it may stand at the left margin. */
  predicate Marginal(name: string) {
    name != [] && name[0] != ' ' && name[0] != '#' && ':' !in name
  }

  lemma TopLineTakes(a: State, name: string, w: Wire)
    requires a.Valid() && Marginal(name) && HeaderName(name)
    ensures Takes(a, [TopLine(name, w)], a.(header := a.header[name := w]))
  {
    hide ShowWire, ReadWire, PyStrip, Partition, Takes, Step, HeaderName, Marginal;
    var line := TopLine(name, w);
    WireReads(w);
    StripOne(ShowWire(w));
    AtMargin(name, ":" + (" " + ShowWire(w)));
    PartitionAt(name, " " + ShowWire(w));
    HeaderStep(a, line, name, " " + ShowWire(w), w);
    TakesOne(a, line, a.(header := a.header[name := w]));
  }

  lemma AtMargin(name: string, rest: string)
    requires Marginal(name)
    ensures ':' !in name
    ensures !Ignored(name + rest) && !FieldDepth(name + rest) && !KeyDepth(name + rest)
  {
    assert (name + rest)[0] == name[0];
    assert "    "[0] == ' ' && "  "[0] == ' ';
  }

  lemma HeaderStep(a: State, line: string, name: string, rest: string, w: Wire)
    requires a.Valid() && HeaderName(name)
    requires !Ignored(line) && !FieldDepth(line) && !KeyDepth(line)
    requires Partition(line) == (name, rest) && ReadWire(PyStrip(rest)) == Some(w)
    ensures Step(a, line) == Ok(a.(header := a.header[name := w]))
  {
    hide ReadWire, PyStrip, Partition, Ignored, FieldDepth, KeyDepth;
  }

  lemma OpenerTakes(a: State, name: string, s: Section, tail: string)
    requires a.Valid() && Marginal(name) && SectionName(name) == Some(s)
    requires PyStrip(tail) == "" || PyStrip(tail) == "{}"
    ensures Takes(a, [name + (":" + tail)], a.(section := Some(s), key := None))
  {
    var line := name + (":" + tail);
    PartitionAt(name, tail);
    assert line[0] == name[0];
    TakesOne(a, line, a.(section := Some(s), key := None));
  }

  lemma KeyTextReads(key: string)
    ensures LoadString(DropColons(PyStripRight(Dump(key) + ":"))) == Some(key)
  {
    var d := Dump(key);
    assert (d + ":")[|d + ":"| - 1] == ':' && (d + ":")[..|d + ":"| - 1] == d;
    assert d[|d| - 1] == '"';
    LoadOfDump(key);
  }

  lemma KeyLineTakes(a: State, key: string)
    requires a.Valid() && a.section.Some?
    ensures var s := a.section.value;
      Takes(a, [KeyLine(key)], a.WithTable(s, a.Table(s)[key := EMPTY_ROW]).(key := Some(key)))
  {
    var line := KeyLine(key);
    assert line[..2] == "  " && line[2..] == Dump(key) + ":";
    assert line[0] == ' ' && line[2] == '"' && line[..4][2] == '"';
    KeyTextReads(key);
    var s := a.section.value;
    TakesOne(a, line, a.WithTable(s, a.Table(s)[key := EMPTY_ROW]).(key := Some(key)));
  }

  /** `a` after the row being filled has become `row`. */
  function WithRow(a: State, row: RawRow): State
    requires a.Valid() && a.key.Some?
  {
    a.WithTable(a.section.value, a.Table(a.section.value)[a.key.value := row])
  }

  function CurrentRow(a: State): RawRow
    requires a.Valid() && a.key.Some?
  {
    a.Table(a.section.value)[a.key.value]
  }

  lemma FieldLineTakes(a: State, field: string, w: Wire)
    requires a.Valid() && a.key.Some? && KnownField(field) && ':' !in field
    ensures Takes(a, [FieldLine(field, w)], WithRow(a, SetField(CurrentRow(a), field, w).value))
  {
    hide Takes, ShowWire;
    var line := FieldLine(field, w);
    assert line[..4] == "    " && line[4..] == field + (":" + (" " + ShowWire(w)));
    assert line[0] == ' ';
    WireReads(w);
    StripOne(ShowWire(w));
    PartitionAt(field, " " + ShowWire(w));
    TakesOne(a, line, WithRow(a, SetField(CurrentRow(a), field, w).value));
  }

  // ---- rows ------------------------------------------------------------------------------

  /** Every name is one the reader knows. */
  predicate Known(fields: seq<(string, Wire)>) {
    forall i :: 0 <= i < |fields| ==> KnownField(fields[i].0) && ':' !in fields[i].0
  }

  function SetFields(row: RawRow, fields: seq<(string, Wire)>): RawRow
    requires Known(fields)
    decreases |fields|
  {
    if fields == [] then row
    else SetFields(SetField(row, fields[0].0, fields[0].1).value, fields[1..])
  }

  lemma {:induction false} FieldLinesTake(a: State, fields: seq<(string, Wire)>)
    requires a.Valid() && a.key.Some? && Known(fields)
    ensures Takes(a, FieldLines(fields), WithRow(a, SetFields(CurrentRow(a), fields)))
    decreases |fields|
  {
    if fields == [] {
      assert a.Table(a.section.value)[a.key.value := CurrentRow(a)] == a.Table(a.section.value);
    } else {
      var row := SetField(CurrentRow(a), fields[0].0, fields[0].1).value;
      var b := WithRow(a, row);
      FieldLineTakes(a, fields[0].0, fields[0].1);
      FieldLinesTake(b, fields[1..]);
      WithRowTwice(a, row, SetFields(row, fields[1..]));
      TakesAppend(a, [FieldLine(fields[0].0, fields[0].1)], b, FieldLines(fields[1..]),
                  WithRow(b, SetFields(row, fields[1..])));
    }
  }

  lemma WithRowTwice(a: State, x: RawRow, y: RawRow)
    requires a.Valid() && a.key.Some?
    ensures WithRow(a, x).Valid() && CurrentRow(WithRow(a, x)) == x
    ensures WithRow(WithRow(a, x), y) == WithRow(a, y)
  {
    var t, k := a.Table(a.section.value), a.key.value;
    PutTwice(t, k, x, y);
  }

  /** The raw row that the lines of `row` leave behind. */
  function RawOf(row: Row): RawRow {
    RawRow(Some(List(row.effects)),
           if row.declared == [] then None else Some(List(row.declared)),
           if row.exhaustive then None else Some(Flag(false)),
           if row.unresolved == 0 then None else Some(Number(row.unresolved)))
  }

  lemma {:induction false} SetFieldsAppend(row: RawRow, a: seq<(string, Wire)>, b: seq<(string, Wire)>)
    requires Known(a) && Known(b)
    ensures Known(a + b) && SetFields(row, a + b) == SetFields(SetFields(row, a), b)
    decreases |a|
  {
    if a == [] {
      assert a + b == b;
    } else {
      SetFieldsAppend(SetField(row, a[0].0, a[0].1).value, a[1..], b);
      assert (a + b)[1..] == a[1..] + b;
    }
  }

  lemma RowFieldsSet(row: Row)
    ensures Known(RowFields(row)) && SetFields(EMPTY_ROW, RowFields(row)) == RawOf(row)
  {
    var a := [("effects", List(row.effects))];
    var b := if row.declared == [] then [] else [("declared", List(row.declared))];
    var c := if row.exhaustive then [] else [("exhaustive", Flag(false))];
    var d := if row.unresolved == 0 then [] else [("unresolved", Number(row.unresolved))];
    SetFieldsAppend(EMPTY_ROW, a, b);
    SetFieldsAppend(EMPTY_ROW, a + b, c);
    SetFieldsAppend(EMPTY_ROW, a + b + c, d);
  }

  /** `a` after a row has been read. */
  function AfterRow(a: State, key: string, row: Row): (b: State)
    requires a.Valid() && a.section.Some?
    ensures b.Valid() && b.section == a.section
  {
    var s := a.section.value;
    a.WithTable(s, a.Table(s)[key := RawOf(row)]).(key := Some(key))
  }

  lemma PutTwice(t: RawTable, key: string, x: RawRow, y: RawRow)
    ensures t[key := x][key := y] == t[key := y]
  {
  }

  lemma FieldsUnderKey(a: State, key: string, fields: seq<(string, Wire)>)
    requires a.Valid() && a.section.Some? && Known(fields)
    ensures var s := a.section.value;
      Takes(a, [KeyLine(key)] + FieldLines(fields),
            a.WithTable(s, a.Table(s)[key := SetFields(EMPTY_ROW, fields)]).(key := Some(key)))
  {
    var s := a.section.value;
    var b := a.WithTable(s, a.Table(s)[key := EMPTY_ROW]).(key := Some(key));
    var row := SetFields(EMPTY_ROW, fields);
    KeyLineTakes(a, key);
    FieldLinesTake(b, fields);
    PutTwice(a.Table(s), key, EMPTY_ROW, row);
    TakesAppend(a, [KeyLine(key)], b, FieldLines(fields), WithRow(b, row));
  }

  lemma RowTakes(a: State, key: string, row: Row)
    requires a.Valid() && a.section.Some?
    ensures Takes(a, RowLines(key, row), AfterRow(a, key, row))
  {
    RowFieldsSet(row);
    FieldsUnderKey(a, key, RowFields(row));
  }

  // ---- tables ----------------------------------------------------------------------------

  function RawTableOf(table: Table): RawTable {
    map k | k in table :: RawOf(table[k])
  }

  /** `b` is `a` with the rows of `keys` read into the table of section `s`. */
  ghost predicate Filled(a: State, s: Section, keys: seq<string>, table: Table, b: State)
    requires forall k :: k in keys ==> k in table
  {
    && b.header == a.header
    && b.section == Some(s)
    && (s.Methods? ==> b.reach == a.reach)
    && (s.Reach? ==> b.methods == a.methods)
    && b.Table(s) == a.Table(s) + (map k | k in keys :: RawOf(table[k]))
  }

  lemma {:induction false} RowsTake(a: State, s: Section, keys: seq<string>, table: Table) returns (b: State)
    requires a.Valid() && a.section == Some(s)
    requires forall k :: k in keys ==> k in table
    ensures Takes(a, RowsLines(keys, table), b) && Filled(a, s, keys, table, b)
    decreases |keys|
  {
    if keys == [] {
      b := a;
      assert a.Table(s) == a.Table(s) + (map k | k in keys :: RawOf(table[k]));
    } else {
      var row := table[keys[0]];
      var mid := AfterRow(a, keys[0], row);
      RowTakes(a, keys[0], row);
      b := RowsTake(mid, s, keys[1..], table);
      TakesAppend(a, RowLines(keys[0], row), mid, RowsLines(keys[1..], table), b);
      MoreKeys(a.Table(s), keys, table);
    }
  }

  lemma MoreKeys(t: RawTable, keys: seq<string>, table: Table)
    requires keys != [] && forall k :: k in keys ==> k in table
    ensures t[keys[0] := RawOf(table[keys[0]])] + (map k | k in keys[1..] :: RawOf(table[k]))
      == t + (map k | k in keys :: RawOf(table[k]))
  {
    assert keys == [keys[0]] + keys[1..];
  }

  lemma TableTakes(a: State, name: string, s: Section, table: Table) returns (b: State)
    requires a.Valid() && Marginal(name) && SectionName(name) == Some(s)
    requires a.Table(s) == map[]
    ensures Takes(a, TableLines(name, table), b)
    ensures b.header == a.header && b.Table(s) == RawTableOf(table)
    ensures s.Methods? ==> b.reach == a.reach
    ensures s.Reach? ==> b.methods == a.methods
  {
    hide RawOf, RowsLines, SectionName, Run, Increasing;
    var opener := a.(section := Some(s), key := None);
    if |table| == 0 {
      StripOne("{}");
      OpenerTakes(a, name, s, " {}");
      assert ":" + " {}" == ": {}";
      b := opener;
      assert RawTableOf(table) == map[];
    } else {
      OpenerTakes(a, name, s, "");
      assert ":" + "" == ":";
      var keys := Sorted(table.Keys);
      b := RowsTake(opener, s, keys, table);
      TakesAppend(a, [name + ":"], opener, RowsLines(keys, table), b);
      assert (map k | k in keys :: RawOf(table[k])) == RawTableOf(table);
    }
  }

  // ---- the document ----------------------------------------------------------------------

  /** The header as the reader holds it. */
  function HeaderWire(h: Header): map<string, Wire> {
    map["schema" := Number(h.schema), "rigor" := Words(h.rigor),
        "vocabulary" := Number(h.vocabulary), "config_digest" := Words(h.digest)]
  }

  lemma FiveTake(a: State, l0: string, b: State, l1: string, c: State, l2: string, d: State, l3: string, e: State,
                 l4: string, f: State)
    requires Takes(a, [l0], b) && Takes(b, [l1], c) && Takes(c, [l2], d) && Takes(d, [l3], e) && Takes(e, [l4], f)
    ensures Takes(a, [l0, l1, l2, l3, l4], f)
  {
    TakesAppend(a, [l0], b, [l1], c);
    TakesAppend(a, [l0] + [l1], c, [l2], d);
    TakesAppend(a, [l0] + [l1] + [l2], d, [l3], e);
    TakesAppend(a, [l0] + [l1] + [l2] + [l3], e, [l4], f);
    assert [l0] + [l1] + [l2] + [l3] + [l4] == [l0, l1, l2, l3, l4];
  }

  function WithHeader(a: State, name: string, w: Wire): State {
    a.(header := a.header[name := w])
  }

  lemma FourFields(a: Wire, b: Wire, c: Wire, d: Wire)
    ensures WithHeader(WithHeader(WithHeader(WithHeader(START, "schema", a), "rigor", b), "vocabulary", c), "config_digest", d) ==
            START.(header := map["schema" := a, "rigor" := b, "vocabulary" := c, "config_digest" := d])
  {
  }

  lemma HeaderTakes(h: Header)
    ensures Takes(START, HeaderLines(h), START.(header := HeaderWire(h)))
  {
    hide Takes, TopLine;
    CommentTakes();
    var b := WithHeader(START, "schema", Number(h.schema));
    TopLineTakes(START, "schema", Number(h.schema));
    var c := WithHeader(b, "rigor", Words(h.rigor));
    TopLineTakes(b, "rigor", Words(h.rigor));
    var d := WithHeader(c, "vocabulary", Number(h.vocabulary));
    TopLineTakes(c, "vocabulary", Number(h.vocabulary));
    var e := WithHeader(d, "config_digest", Words(h.digest));
    TopLineTakes(d, "config_digest", Words(h.digest));
    FiveTake(START, COMMENT, START, TopLine("schema", Number(h.schema)), b, TopLine("rigor", Words(h.rigor)), c,
             TopLine("vocabulary", Number(h.vocabulary)), d, TopLine("config_digest", Words(h.digest)), e);
    FourFields(Number(h.schema), Words(h.rigor), Number(h.vocabulary), Words(h.digest));
  }

  /** A comment on one line. */
  predicate Remark(line: string) {
    line != [] && line[0] == '#' && '\n' !in line
  }

  lemma RemarkAppend(a: string, b: string)
    requires Remark(a) && '\n' !in b
    ensures Remark(a + b)
  {
  }

  lemma CommentRemark()
    ensures Remark(COMMENT)
  {
    var a, b, c := "# .rigor-effects.yml \U{2014} generated", " by `rigor effects update`.", " Commit it; review its diff.";
    RemarkAppend(a, b);
    RemarkAppend(a + b, c);
  }

  lemma NoteEmptyRemark()
    ensures Remark(NOTE_EMPTY)
  {
    var a, b, c := "# `reach:` is empty. It records", " the TRANSITIVE footprint at", " your entry points \U{2014} what a";
    RemarkAppend(a, b);
    RemarkAppend(a + b, c);
  }

  lemma NoteActionRemark()
    ensures Remark(NOTE_ACTION)
  {
    var a, b := "# controller action or a job", " causes, rather than what its";
    var c, d := " own body does \U{2014} and it is", " the half of";
    RemarkAppend(a, b);
    RemarkAppend(a + b, c);
    RemarkAppend(a + b + c, d);
  }

  lemma NoteReviewRemark()
    ensures Remark(NOTE_REVIEW)
  {
    var a, b, c, d := "# this file most worth", " reviewing. Fill it in by", " naming entry points in", " `.rigor.yml`:";
    RemarkAppend(a, b);
    RemarkAppend(a + b, c);
    RemarkAppend(a + b + c, d);
  }

  lemma NoteBlankRemark()
    ensures Remark(NOTE_BLANK)
  {
  }

  lemma NoteEffectsRemark()
    ensures Remark(NOTE_EFFECTS)
  {
  }

  lemma NoteSnapshotRemark()
    ensures Remark(NOTE_SNAPSHOT)
  {
  }

  lemma NotePresetRemark()
    ensures Remark(NOTE_PRESET)
  {
    var a, b, c, d := "#       reach: [rails]", "          # a preset a plugin", " registered, or a", " project-relative file glob";
    RemarkAppend(a, b);
    RemarkAppend(a + b, c);
    RemarkAppend(a + b + c, d);
  }

  lemma NotePrintsRemark()
    ensures Remark(NOTE_PRINTS)
  {
    var a, b, c, d := "# `rigor effects update`", " prints the presets this", " project's plugins", " actually register.";
    RemarkAppend(a, b);
    RemarkAppend(a + b, c);
    RemarkAppend(a + b + c, d);
  }

  lemma CommentTakes()
    ensures Takes(START, [COMMENT], START)
  {
    CommentRemark();
    TakesOne(START, COMMENT, START);
  }

  lemma NoteRemarks()
    ensures forall i :: 0 <= i < |EMPTY_REACH_NOTE| ==> EMPTY_REACH_NOTE[i] == [] || Remark(EMPTY_REACH_NOTE[i])
  {
    NoteEmptyRemark();
    NoteActionRemark();
    NoteReviewRemark();
    NoteBlankRemark();
    NoteEffectsRemark();
    NoteSnapshotRemark();
    NotePresetRemark();
    NotePrintsRemark();
  }

  lemma NoteTakes(a: State)
    requires a.Valid()
    ensures Takes(a, EMPTY_REACH_NOTE, a)
  {
    NoteRemarks();
    TakesIgnored(a, EMPTY_REACH_NOTE);
  }

  lemma ThreeTake(a: State, xs: seq<string>, b: State, ys: seq<string>, c: State, zs: seq<string>, d: State)
    requires Takes(a, xs, b) && Takes(b, ys, c) && Takes(c, zs, d)
    ensures Takes(a, xs + ys + zs, d)
  {
    TakesAppend(a, xs, b, ys, c);
    TakesAppend(a, xs + ys, c, zs, d);
  }

  lemma NoteOrNothingTakes(a: State, reach: Table)
    requires a.Valid()
    ensures Takes(a, if |reach| == 0 then EMPTY_REACH_NOTE else [], a)
  {
    NoteTakes(a);
  }

  /** What the reader holds after the last line. */
  ghost predicate ReadsBack(h: Header, methods: Table, reach: Table, st: State) {
    st.header == HeaderWire(h) && st.methods == RawTableOf(methods) && st.reach == RawTableOf(reach)
  }

  lemma BodyTakes(a: State, methods: Table, reach: Table) returns (b: State)
    requires a.Valid() && a.methods == map[] && a.reach == map[]
    ensures Takes(a, BodyLines(methods, reach), b)
    ensures b.header == a.header && b.methods == RawTableOf(methods) && b.reach == RawTableOf(reach)
  {
    var m := TableTakes(a, "methods", Methods, methods);
    NoteOrNothingTakes(m, reach);
    b := TableTakes(m, "reach", Reach, reach);
    ThreeTake(a, TableLines("methods", methods), m, if |reach| == 0 then EMPTY_REACH_NOTE else [], m,
              TableLines("reach", reach), b);
  }

  lemma DocumentTakes(h: Header, methods: Table, reach: Table) returns (b: State)
    ensures Takes(START, HeaderLines(h) + BodyLines(methods, reach) + [[]], b)
    ensures ReadsBack(h, methods, reach, b)
  {
    var a := START.(header := HeaderWire(h));
    HeaderTakes(h);
    b := BodyTakes(a, methods, reach);
    TakesOne(b, [], b);
    TakesAppend(START, HeaderLines(h), a, BodyLines(methods, reach), b);
    TakesAppend(START, HeaderLines(h) + BodyLines(methods, reach), b, [[]], b);
  }

  // ---- no line holds a line feed -----------------------------------------------------------

  lemma TopLineFeeds(name: string, w: Wire)
    requires '\n' !in name
    ensures '\n' !in TopLine(name, w)
  {
    WireReads(w);
  }

  lemma FieldLineFeeds(name: string, w: Wire)
    requires '\n' !in name
    ensures '\n' !in FieldLine(name, w)
  {
    WireReads(w);
  }

  lemma {:induction false} FieldLinesFeeds(fields: seq<(string, Wire)>)
    requires forall i :: 0 <= i < |fields| ==> '\n' !in fields[i].0
    ensures NoFeeds(FieldLines(fields))
  {
    if fields != [] {
      FieldLineFeeds(fields[0].0, fields[0].1);
      FieldLinesFeeds(fields[1..]);
    }
  }

  lemma RowFieldsFeeds(row: Row)
    ensures forall i :: 0 <= i < |RowFields(row)| ==> '\n' !in RowFields(row)[i].0
  {
  }

  lemma RowFeeds(key: string, row: Row)
    ensures NoFeeds(RowLines(key, row))
  {
    EscapeFeeds(key);
    RowFieldsFeeds(row);
    FieldLinesFeeds(RowFields(row));
  }

  lemma {:induction false} RowsFeeds(keys: seq<string>, table: Table)
    requires forall k :: k in keys ==> k in table
    ensures NoFeeds(RowsLines(keys, table))
  {
    if keys != [] {
      RowFeeds(keys[0], table[keys[0]]);
      RowsFeeds(keys[1..], table);
    }
  }

  lemma TableFeeds(name: string, table: Table)
    requires '\n' !in name
    ensures NoFeeds(TableLines(name, table))
  {
    if |table| != 0 {
      RowsFeeds(Sorted(table.Keys), table);
    }
  }

  lemma NoteFeeds()
    ensures NoFeeds(EMPTY_REACH_NOTE)
  {
    NoteRemarks();
  }

  lemma FiveFeeds(l0: string, l1: string, l2: string, l3: string, l4: string)
    requires '\n' !in l0 && '\n' !in l1 && '\n' !in l2 && '\n' !in l3 && '\n' !in l4
    ensures NoFeeds([l0, l1, l2, l3, l4])
  {
  }

  lemma HeaderFeeds(h: Header)
    ensures NoFeeds(HeaderLines(h))
  {
    var a, b := TopLine("schema", Number(h.schema)), TopLine("rigor", Words(h.rigor));
    var c, d := TopLine("vocabulary", Number(h.vocabulary)), TopLine("config_digest", Words(h.digest));
    CommentRemark();
    TopLineFeeds("schema", Number(h.schema));
    TopLineFeeds("rigor", Words(h.rigor));
    TopLineFeeds("vocabulary", Number(h.vocabulary));
    TopLineFeeds("config_digest", Words(h.digest));
    FiveFeeds(COMMENT, a, b, c, d);
  }

  lemma DocumentFeeds(h: Header, methods: Table, reach: Table)
    ensures NoFeeds(HeaderLines(h) + BodyLines(methods, reach))
  {
    hide HeaderLines;
    HeaderFeeds(h);
    TableFeeds("methods", methods);
    NoteFeeds();
    TableFeeds("reach", reach);
  }

  // ---- main results ------------------------------------------------------------------------

  /** A row with every field spelled out. */
  function Spelled(row: Row): WireRow {
    WireRow(List(row.effects), List(row.declared), Flag(row.exhaustive), row.unresolved)
  }

  function SpelledTable(table: Table): WireTable {
    map k | k in table :: Spelled(table[k])
  }

  lemma RawCompletes(table: Table)
    ensures CountsOk(RawTableOf(table)) && CompletedTable(RawTableOf(table)) == SpelledTable(table)
  {
    var raw := RawTableOf(table);
    forall k | k in raw
      ensures CountOk(raw[k]) && Completed(raw[k]) == Spelled(table[k])
    {
    }
  }

  /**
   * Every snapshot reads back as it was written, with the omitted defaults in place; a header of
   * another schema is refused for its schema and for nothing else.
   */
  lemma ParseOfRender(h: Header, methods: Table, reach: Table)
    ensures Parsed(Rendered(h, methods, reach)) ==
      if h.schema == PINNED_SCHEMA then Ok(Snapshot(HeaderWire(h), SpelledTable(methods), SpelledTable(reach)))
      else Err(SchemaMoved)
  {
    hide SpelledTable, HeaderLines, BodyLines;
    var lines := HeaderLines(h) + BodyLines(methods, reach);
    var st := DocumentTakes(h, methods, reach);
    DocumentFeeds(h, methods, reach);
    SplitOfUnlines(lines);
    RawCompletes(methods);
    RawCompletes(reach);
    assert HeaderWire(h).Keys == HEADER_KEYS;
  }

  lemma RawInjective(a: Table, b: Table)
    requires RawTableOf(a) == RawTableOf(b)
    ensures a == b
  {
    assert a.Keys == RawTableOf(a).Keys && b.Keys == RawTableOf(b).Keys;
    forall k | k in a
      ensures a[k] == b[k]
    {
      assert RawOf(a[k]) == RawTableOf(a)[k] == RawTableOf(b)[k] == RawOf(b[k]);
    }
  }

  /** No two snapshots are written alike, whatever their schema. */
  lemma RenderInjective(h: Header, methods: Table, reach: Table, h': Header, methods': Table, reach': Table)
    requires Rendered(h, methods, reach) == Rendered(h', methods', reach')
    ensures h == h' && methods == methods' && reach == reach'
  {
    var st := DocumentTakes(h, methods, reach);
    var st' := DocumentTakes(h', methods', reach');
    DocumentFeeds(h, methods, reach);
    DocumentFeeds(h', methods', reach');
    SplitOfUnlines(HeaderLines(h) + BodyLines(methods, reach));
    SplitOfUnlines(HeaderLines(h') + BodyLines(methods', reach'));
    assert st == st';
    HeaderInjective(h, h');
    RawInjective(methods, methods');
    RawInjective(reach, reach');
  }

  lemma HeaderInjective(a: Header, b: Header)
    requires HeaderWire(a) == HeaderWire(b)
    ensures a == b
  {
    assert HeaderWire(a)["schema"] == HeaderWire(b)["schema"];
    assert HeaderWire(a)["rigor"] == HeaderWire(b)["rigor"];
    assert HeaderWire(a)["vocabulary"] == HeaderWire(b)["vocabulary"];
    assert HeaderWire(a)["config_digest"] == HeaderWire(b)["config_digest"];
  }

  /** Write a snapshot and read it again. */
  method WriteAndRead(h: Header, methods: Table, reach: Table) returns (text: string, r: Result<Snapshot, Error>)
    ensures text == Rendered(h, methods, reach) && r == Parsed(text)
    ensures h.schema == PINNED_SCHEMA ==>
      r == Ok(Snapshot(HeaderWire(h), SpelledTable(methods), SpelledTable(reach)))
    ensures h.schema != PINNED_SCHEMA ==> r == Err(SchemaMoved)
  {
    text := RenderSnapshot(h, methods, reach);
    r := ParseSnapshot(text);
    ParseOfRender(h, methods, reach);
  }
}
