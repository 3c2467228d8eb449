/** The text of a snapshot, line by line and character by character, and the values its reader takes. */
module SnapshotText {
  import opened Wrappers
  import opened Text
  import opened PyText
  import opened Scalars
  import opened Json
  import opened Ordering
  import opened SnapshotWire
  import opened EffectSnapshot
  import opened SnapshotCodec
  import opened SnapshotTrip
  import Escapes

  // ---- JSON characters ------------------------------------------------------------------------

  predicate LowerDigit(c: char) {
    '0' <= c <= '9' || 'a' <= c <= 'f'
  }

  lemma LowerDigits(k: nat)
    requires k < 16
    ensures LowerDigit(LOWER_HEX[k]) && Escapes.DigitOf(LOWER_HEX[k]) == Some(k)
  {
  }

  /**
   One character in a JSON string: quotes and backslashes behind a backslash, five controls as letters, the
   others as four lower-case hexadecimal digits, and anything else, DEL and non-ASCII included, as it is.
   */
  lemma JsonWritten(c: char)
    ensures var e, n := EscapeChar(c), c as int;
            && (n == 34 || n == 92 ==> e == ['\\', c])
            && (n == 8 ==> e == "\\b") && (n == 9 ==> e == "\\t") && (n == 10 ==> e == "\\n")
            && (n == 12 ==> e == "\\f") && (n == 13 ==> e == "\\r")
            && (n < 32 && n !in {8, 9, 10, 12, 13} ==>
                  && |e| == 6 && e[..4] == "\\u00" && LowerDigit(e[4]) && LowerDigit(e[5])
                  && Escapes.DigitOf(e[4]) == Some(n / 16) && Escapes.DigitOf(e[5]) == Some(n % 16))
            && (n >= 32 && n != 34 && n != 92 ==> e == [c])
  {
    var n := c as int;
    if n < 32 {
      LowerDigits(n / 16);
      LowerDigits(n % 16);
    }
  }

  /** The letters that stand for one character each. */
  const CODES: map<char, nat> :=
    map['"' := 34, '\\' := 92, '/' := 47, 'b' := 8, 'f' := 12, 'n' := 10, 'r' := 13, 't' := 9]

  /** A backslash and a letter. */
  lemma LetterReads(d: char, rest: string)
    requires d != 'u'
    ensures ReadChar(['\\', d] + rest).Some? <==> d in CODES
    ensures d in CODES ==> ReadChar(['\\', d] + rest).value.0 as int == CODES[d] && ReadChar(['\\', d] + rest).value.1 == rest
  {
    assert (['\\', d] + rest)[2..] == rest;
  }

  /** A character by itself: controls are refused. */
  lemma PlainReads(c: char, rest: string)
    requires c != '\\'
    ensures ReadChar([c] + rest) == if c as int < 32 then None else Some((c, rest))
  {
    assert ([c] + rest)[1..] == rest;
  }

  lemma FourDigits(h: string, rest: string)
    requires |h| == 4
    ensures FourHex(h + rest).Some? <==> Escapes.HexText(h)
    ensures Escapes.HexText(h) ==> FourHex(h + rest).value == Escapes.HexNumber(h) < 0x10000
  {
    forall i | 0 <= i < 4
      ensures (h + rest)[i] == h[i] && (IsHex(h[i]) <==> Escapes.DigitOf(h[i]).Some?)
      ensures IsHex(h[i]) ==> HexValue(h[i]) == Escapes.DigitOf(h[i]).value
    {
      Escapes.SameDigit(h[i]);
    }
    if Escapes.HexText(h) {
      FourNumber(h);
      assert FourHex(h + rest).value < 0x10000;
    } else {
      var i :| 0 <= i < |h| && Escapes.DigitOf(h[i]).None?;
      assert !IsHex((h + rest)[i]);
    }
  }

  lemma FourNumber(h: string)
    requires |h| == 4 && Escapes.HexText(h)
    ensures Escapes.HexNumber(h) ==
            ((Escapes.DigitOf(h[0]).value * 16 + Escapes.DigitOf(h[1]).value) * 16 + Escapes.DigitOf(h[2]).value) * 16
            + Escapes.DigitOf(h[3]).value
  {
    assert h[..3][..2] == h[..2] && h[..2][..1] == h[..1] && h[..1][..0] == [];
    assert Escapes.HexNumber(h[..1]) == 16 * Escapes.HexNumber(h[..1][..0]) + Escapes.DigitOf(h[0]).value;
    assert Escapes.HexNumber(h[..2]) == 16 * Escapes.HexNumber(h[..1]) + Escapes.DigitOf(h[1]).value;
    assert Escapes.HexNumber(h[..3]) == 16 * Escapes.HexNumber(h[..2]) + Escapes.DigitOf(h[2]).value;
  }

  /** `\u` takes four digits, and reads as that character unless they spell half of a surrogate pair. */
  lemma UnicodeReads(h: string, rest: string)
    requires |h| == 4 && Escapes.HexText(h) && !(0xD800 <= Escapes.HexNumber(h) <= 0xDFFF)
    ensures var r := ReadChar("\\u" + h + rest);
            r.Some? && r.value.0 as int == Escapes.HexNumber(h) && r.value.1 == rest
  {
    hide FourHex;
    var s := "\\u" + h + rest;
    assert s[2..] == h + rest && s[6..] == rest;
    FourDigits(h, rest);
  }

  /** Two halves make one character beyond the sixteen-bit range; a half alone is refused. */
  lemma PairReads(h: string, l: string, rest: string)
    requires |h| == 4 && Escapes.HexText(h) && 0xD800 <= Escapes.HexNumber(h) <= 0xDBFF
    requires |l| == 4 && Escapes.HexText(l)
    ensures var r := ReadChar("\\u" + h + ("\\u" + l + rest));
            if 0xDC00 <= Escapes.HexNumber(l) <= 0xDFFF then
              r.Some? && r.value.1 == rest
              && r.value.0 as int - 0x10000 == (Escapes.HexNumber(h) - 0xD800) * 1024 + (Escapes.HexNumber(l) - 0xDC00)
            else r.None?
  {
    hide FourHex;
    var s := "\\u" + h + ("\\u" + l + rest);
    assert s[2..] == h + ("\\u" + l + rest) && s[6] == '\\' && s[7] == 'u' && s[8..] == l + rest && s[12..] == rest;
    FourDigits(h, "\\u" + l + rest);
    FourDigits(l, rest);
  }

  lemma LoneHalfRefused(h: string, rest: string)
    requires |h| == 4 && Escapes.HexText(h) && 0xD800 <= Escapes.HexNumber(h) <= 0xDFFF
    requires 0xDC00 <= Escapes.HexNumber(h) || rest == "" || rest[0] != '\\'
    ensures ReadChar("\\u" + h + rest) == None
  {
    hide FourHex;
    var s := "\\u" + h + rest;
    assert s[2..] == h + rest;
    assert rest != "" ==> s[6] == rest[0];
    FourDigits(h, rest);
  }

  // ---- JSON arrays --------------------------------------------------------------------------------

  predicate Gap(g: string) {
    forall i :: 0 <= i < |g| ==> g[i] == ' ' || g[i] == '\t' || g[i] == '\n' || g[i] == '\r'
  }

  /** A member with the white space before and behind it. */
  datatype Slot = Slot(before: string, member: string, behind: string)

  predicate Gaps(ss: seq<Slot>) {
    forall i :: 0 <= i < |ss| ==> Gap(ss[i].before) && Gap(ss[i].behind)
  }

  function Listed(ss: seq<Slot>): string
    requires ss != []
  {
    ss[0].before + (Dump(ss[0].member) + (ss[0].behind + (if |ss| == 1 then "" else "," + Listed(ss[1..]))))
  }

  function MembersOf(ss: seq<Slot>): (r: seq<string>)
    ensures |r| == |ss| && forall i :: 0 <= i < |r| ==> r[i] == ss[i].member
  {
    seq(|ss|, i requires 0 <= i < |ss| => ss[i].member)
  }

  lemma {:induction false} GapSkipped(g: string, rest: string)
    requires Gap(g) && (rest == "" || !IsBlank(rest[0]))
    ensures SkipBlanks(g + rest) == rest
  {
    if g == [] {
      assert g + rest == rest;
    } else {
      assert (g + rest)[1..] == g[1..] + rest;
      GapSkipped(g[1..], rest);
    }
  }

  lemma DumpStarts(s: string, rest: string)
    ensures Dump(s) + rest != "" && (Dump(s) + rest)[0] == '"'
  {
  }

  lemma {:induction false} SlotsRead(ss: seq<Slot>, rest: string)
    requires ss != [] && Gaps(ss)
    ensures ReadMembers(SkipBlanks(Listed(ss) + ("]" + rest))) == Some((MembersOf(ss), rest))
    decreases |ss|
  {
    hide Dump, ReadString;
    var s, tail := ss[0], "]" + rest;
    assert tail[1..] == rest;
    if |ss| == 1 {
      SlotShape(s, "", tail);
      assert "" + tail == tail;
      assert Listed(ss) + tail == s.before + (Dump(s.member) + (s.behind + tail));
      DumpReads(s.member, s.behind + tail);
      GapSkipped(s.behind, tail);
      assert MembersOf(ss) == [s.member];
    } else {
      var more := "," + (Listed(ss[1..]) + tail);
      SlotShape(s, "," + Listed(ss[1..]), tail);
      ConcatAssoc(",", Listed(ss[1..]), tail);
      DumpReads(s.member, s.behind + more);
      GapSkipped(s.behind, more);
      assert more[1..] == Listed(ss[1..]) + tail;
      SlotsRead(ss[1..], rest);
      assert MembersOf(ss) == [s.member] + MembersOf(ss[1..]);
    }
  }

  lemma SlotShape(s: Slot, more: string, tail: string)
    requires Gap(s.before)
    ensures s.before + (Dump(s.member) + (s.behind + more)) + tail ==
            s.before + (Dump(s.member) + (s.behind + (more + tail)))
    ensures SkipBlanks(s.before + (Dump(s.member) + (s.behind + (more + tail)))) == Dump(s.member) + (s.behind + (more + tail))
  {
    hide Dump;
    DumpStarts(s.member, s.behind + (more + tail));
    GapSkipped(s.before, Dump(s.member) + (s.behind + (more + tail)));
  }

  /** Arrays of strings with any white space between their parts. */
  lemma ArrayReads(ss: seq<Slot>, before: string, inner: string, behind: string)
    requires Gaps(ss) && Gap(before) && Gap(inner) && Gap(behind)
    ensures LoadArray(before + ("[" + ((if ss == [] then inner else Listed(ss)) + ("]" + behind)))) == Some(MembersOf(ss))
  {
    hide Dump, ReadMembers, Listed;
    var body := (if ss == [] then inner else Listed(ss)) + ("]" + behind);
    GapSkipped(before, "[" + body);
    assert ("[" + body)[1..] == body;
    assert behind + "" == behind;
    GapSkipped(behind, "");
    if ss == [] {
      GapSkipped(inner, "]" + behind);
      assert ("]" + behind)[1..] == behind;
      assert MembersOf(ss) == [];
    } else {
      SlotsRead(ss, behind);
      ListedStarts(ss, "]" + behind);
    }
  }

  lemma ListedStarts(ss: seq<Slot>, tail: string)
    requires ss != [] && Gaps(ss)
    ensures var s := SkipBlanks(Listed(ss) + tail); s != "" && s[0] == '"'
  {
    hide Dump;
    var more := if |ss| == 1 then "" else "," + Listed(ss[1..]);
    SlotShape(ss[0], more, tail);
    DumpStarts(ss[0].member, ss[0].behind + (more + tail));
  }

  lemma NoMember(rest: string)
    requires rest == "" || (!IsBlank(rest[0]) && rest[0] != '"')
    ensures ReadMembers(SkipBlanks(rest)) == None
  {
  }

  /** A comma needs a member behind it. */
  lemma TrailingCommaRefused(member: string, behind: string)
    ensures LoadArray("[" + (Dump(member) + (",]" + behind))) == None
  {
    hide Dump, ReadString;
    var tail := ",]" + behind;
    var s := "[" + (Dump(member) + tail);
    assert s[1..] == Dump(member) + tail;
    DumpStarts(member, tail);
    DumpReads(member, tail);
    assert tail[1..] == "]" + behind;
    NoMember("]" + behind);
  }

  // ---- the lines -----------------------------------------------------------------------------------

  /** A row's lines: its effects always, every other field only where it differs from its default. */
  lemma RowText(key: string, row: Row)
    ensures RowLines(key, row) ==
            ["  " + Dump(key) + ":", "    effects: " + DumpArray(row.effects)]
            + (if row.declared != [] then ["    declared: " + DumpArray(row.declared)] else [])
            + (if row.exhaustive then [] else ["    exhaustive: false"])
            + (if row.unresolved != 0 then ["    unresolved: " + ShowInt(row.unresolved)] else [])
  {
    hide Dump, DumpArray, ShowInt;
    var fields := RowFields(row);
    FieldTexts(List(row.effects), List(row.declared), Number(row.unresolved));
    assert KeyLine(key) == "  " + Dump(key) + ":";
    FourLineFields(("effects", List(row.effects)), row.declared != [], ("declared", List(row.declared)),
                   !row.exhaustive, ("exhaustive", Flag(false)), row.unresolved != 0, ("unresolved", Number(row.unresolved)));
  }

  lemma FieldTexts(e: Wire, d: Wire, n: Wire)
    ensures FieldLine("effects", e) == "    effects: " + ShowWire(e)
    ensures FieldLine("declared", d) == "    declared: " + ShowWire(d)
    ensures FieldLine("exhaustive", Flag(false)) == "    exhaustive: false"
    ensures FieldLine("unresolved", n) == "    unresolved: " + ShowWire(n)
  {
    hide ShowWire;
    Prefixes();
    NamedText("effects", "    effects: ", ShowWire(e));
    NamedText("declared", "    declared: ", ShowWire(d));
    NamedText("exhaustive", "    exhaustive: ", ShowWire(Flag(false)));
    NamedText("unresolved", "    unresolved: ", ShowWire(n));
  }

  lemma Prefixes()
    ensures "    " + "effects" + ": " == "    effects: " && "    " + "declared" + ": " == "    declared: "
    ensures "    " + "exhaustive" + ": " == "    exhaustive: " && "    " + "unresolved" + ": " == "    unresolved: "
    ensures "    exhaustive: " + ShowWire(Flag(false)) == "    exhaustive: false"
  {
  }

  lemma NamedText(name: string, prefix: string, text: string)
    requires "    " + name + ": " == prefix
    ensures "    " + (name + (":" + (" " + text))) == prefix + text
  {
  }

  lemma {:induction false} FieldLinesAppend(a: seq<(string, Wire)>, b: seq<(string, Wire)>)
    ensures FieldLines(a + b) == FieldLines(a) + FieldLines(b)
    decreases |a|
  {
    hide FieldLine;
    if a == [] {
      assert a + b == b;
    } else {
      assert (a + b)[1..] == a[1..] + b;
      FieldLinesAppend(a[1..], b);
    }
  }

  lemma OneField(f: (string, Wire))
    ensures FieldLines([f]) == [FieldLine(f.0, f.1)] && FieldLines([]) == []
  {
    assert [f][1..] == [];
  }

  lemma FourLineFields(f: (string, Wire), p: bool, g: (string, Wire), q: bool, h: (string, Wire), r: bool, k: (string, Wire))
    ensures FieldLines([f] + (if p then [g] else []) + (if q then [h] else []) + (if r then [k] else [])) ==
            [FieldLine(f.0, f.1)] + (if p then [FieldLine(g.0, g.1)] else []) + (if q then [FieldLine(h.0, h.1)] else [])
            + (if r then [FieldLine(k.0, k.1)] else [])
  {
    hide FieldLine, FieldLines;
    var b, c, d := if p then [g] else [], if q then [h] else [], if r then [k] else [];
    FieldLinesAppend([f] + b + c, d);
    FieldLinesAppend([f] + b, c);
    FieldLinesAppend([f], b);
    OneField(f);
    OneField(g);
    OneField(h);
    OneField(k);
  }

  // ---- the tables ------------------------------------------------------------------------------------

  function Blocks(keys: seq<string>, table: Table): seq<string>
    requires forall k :: k in keys ==> k in table
  {
    if keys == [] then []
    else
      var last := keys[|keys| - 1];
      assert forall k :: k in keys[..|keys| - 1] ==> k in keys;
      Blocks(keys[..|keys| - 1], table) + RowLines(last, table[last])
  }

  lemma {:induction false} RowsSnoc(keys: seq<string>, key: string, table: Table)
    requires key in table && forall k :: k in keys ==> k in table
    ensures RowsLines(keys + [key], table) == RowsLines(keys, table) + RowLines(key, table[key])
    decreases |keys|
  {
    hide RowLines;
    var all := keys + [key];
    if keys == [] {
      assert all == [key] && all[1..] == [];
    } else {
      assert all[0] == keys[0] && all[1..] == keys[1..] + [key];
      RowsSnoc(keys[1..], key, table);
      AppendAssoc(RowLines(keys[0], table[keys[0]]), RowsLines(keys[1..], table), RowLines(key, table[key]));
    }
  }

  lemma {:induction false} RowsAreBlocks(keys: seq<string>, table: Table)
    requires forall k :: k in keys ==> k in table
    ensures RowsLines(keys, table) == Blocks(keys, table)
    decreases |keys|
  {
    hide RowLines;
    if keys != [] {
      var front, last := keys[..|keys| - 1], keys[|keys| - 1];
      assert keys == front + [last];
      RowsAreBlocks(front, table);
      RowsSnoc(front, last, table);
    }
  }

  /** The keys in the order of their lines. */
  ghost predicate InKeyOrder(keys: seq<string>, table: Table) {
    (forall k :: k in keys <==> k in table) && forall i, j :: 0 <= i < j < |keys| ==> ByCode(keys[i], keys[j])
  }

  function Section(name: string, keys: seq<string>, table: Table): seq<string>
    requires forall k :: k in keys ==> k in table
  {
    if keys == [] then [name + ": {}"] else [name + ":"] + Blocks(keys, table)
  }

  lemma EmptyIff(keys: seq<string>, table: Table)
    requires InKeyOrder(keys, table)
    ensures keys == [] <==> |table| == 0
  {
    assert keys == [] <==> forall k :: k !in keys by {
      assert keys != [] ==> keys[0] in keys;
    }
    assert |table| == 0 <==> table.Keys == {};
    assert table.Keys == {} <==> forall k :: k !in table;
  }

  lemma TableText(name: string, table: Table) returns (keys: seq<string>)
    ensures InKeyOrder(keys, table) && TableLines(name, table) == Section(name, keys, table)
  {
    hide ByCode, RowsLines, Blocks;
    keys := Sorted(table.Keys);
    forall i, j | 0 <= i < j < |keys|
      ensures ByCode(keys[i], keys[j])
    {
      IncreasingPairs(keys, i, j);
      LessIff(keys[i], keys[j]);
    }
    EmptyIff(keys, table);
    RowsAreBlocks(keys, table);
  }

  const FIRST_LINE :=
    "# .rigor-effects.yml \U{2014} generated" + " by `rigor effects update`." + " Commit it; review its diff."

  /** What stands in for the entry points when there are none. */
  const REMINDER: seq<string> :=
    ["",
     "# `reach:` is empty. It records" + " the TRANSITIVE footprint at" + " your entry points \U{2014} what a",
     "# controller action or a job" + " causes, rather than what its" + " own body does \U{2014} and it is" + " the half of",
     "# this file most worth" + " reviewing. Fill it in by" + " naming entry points in" + " `.rigor.yml`:",
     "#",
     "#   effects:",
     "#     snapshot:",
     "#       reach: [rails]" + "          # a preset a plugin" + " registered, or a" + " project-relative file glob",
     "#",
     "# `rigor effects update`" + " prints the presets this" + " project's plugins" + " actually register."]

  /** The whole file: comment, header, methods, a note where there are no entry points, and the entry points. */
  lemma SnapshotIs(h: Header, methods: Table, reach: Table) returns (ms: seq<string>, rs: seq<string>)
    ensures InKeyOrder(ms, methods) && InKeyOrder(rs, reach)
    ensures Rendered(h, methods, reach) ==
            Unlines([FIRST_LINE, "schema: " + ShowInt(h.schema), "rigor: " + Dump(h.rigor),
                     "vocabulary: " + ShowInt(h.vocabulary), "config_digest: " + Dump(h.digest)]
                    + (Section("methods", ms, methods) + (if rs == [] then REMINDER else []) + Section("reach", rs, reach)))
  {
    hide ShowInt, Dump, Unlines, InKeyOrder, TableLines, Section;
    ms := TableText("methods", methods);
    rs := TableText("reach", reach);
    EmptyIff(rs, reach);
    HeaderTexts(h.schema, h.rigor, h.vocabulary, h.digest);
  }

  lemma HeaderTexts(schema: int, rigor: string, vocabulary: int, digest: string)
    ensures TopLine("schema", Number(schema)) == "schema: " + ShowInt(schema)
    ensures TopLine("rigor", Words(rigor)) == "rigor: " + Dump(rigor)
    ensures TopLine("vocabulary", Number(vocabulary)) == "vocabulary: " + ShowInt(vocabulary)
    ensures TopLine("config_digest", Words(digest)) == "config_digest: " + Dump(digest)
  {
    hide ShowInt, Dump;
    HeaderPrefixes();
    TopText("schema", "schema: ", ShowInt(schema));
    TopText("rigor", "rigor: ", Dump(rigor));
    TopText("vocabulary", "vocabulary: ", ShowInt(vocabulary));
    TopText("config_digest", "config_digest: ", Dump(digest));
  }

  lemma HeaderPrefixes()
    ensures "schema" + ": " == "schema: " && "rigor" + ": " == "rigor: "
    ensures "vocabulary" + ": " == "vocabulary: " && "config_digest" + ": " == "config_digest: "
  {
  }

  lemma TopText(name: string, prefix: string, text: string)
    requires name + ": " == prefix
    ensures name + (":" + (" " + text)) == prefix + text
  {
  }

  /** Only the files of one schema are read. */
  lemma PinnedIff(h: Header, methods: Table, reach: Table)
    ensures Parsed(Rendered(h, methods, reach)).Ok? <==> h.schema == 2
  {
    hide Rendered, Parsed;
    ParseOfRender(h, methods, reach);
  }
}
