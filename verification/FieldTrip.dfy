/** How the reader takes in the lines of one written field. */
module FieldTrip {
  import opened Wrappers
  import opened Text
  import opened Scalars
  import opened Baseline
  import opened Reader

  // ---- the first line --------------------------------------------------------------

  lemma FindColon(key: string, rest: string)
    requires ':' !in key
    ensures Find(key + (":" + rest), ":") == Some(|key|)
  {
    var s := key + (":" + rest);
    assert At(s, ":", |key|);
    forall j: nat | j < |key|
      ensures !At(s, ":", j)
    {
      assert s[j] == key[j];
    }
    assert Contains(s, ":");
  }

  /** A `key: value` fragment sets the key's field to the head of the trimmed value. */
  lemma ApplyKey(r: Row, key: string, x: string, rowHead: bool)
    requires ':' !in key && key != [] && Trimmed(key)
    ensures var (head, kind) := ScalarHead(Trim(x));
            Apply(r, key + (":" + TrimEnd(" " + x)), rowHead) == Ok(SetField(r, FieldOf(key), head, kind))
  {
    hide TrimEnd;
    var fragment := key + (":" + TrimEnd(" " + x));
    FindColon(key, TrimEnd(" " + x));
    assert fragment[..|key|] == key;
    assert fragment[|key| + 1..] == TrimEnd(" " + x);
    TrimOfTrimmed(key);
    TrimOfTrimEnd(" " + x);
    TrimPrefix(" ", x);
  }

  lemma ConcatAssoc4(a: string, b: string, c: string, d: string)
    ensures a + b + c + d == a + (b + (c + d))
  {
  }

  lemma TrimEndAll(w: string)
    requires AllWhite(w)
    ensures TrimEnd(w) == []
  {
    assert w == [] + w;
    TrimEndSplit([], w);
  }

  lemma TrimSuffix(s: string, w: string)
    requires AllWhite(w)
    ensures Trim(s + w) == Trim(s)
  {
    var a, t, v := TrimCuts(s);
    if t == [] {
      TrimOfTrimmed(s);
      TrimOfTrimmed(s + w);
    } else {
      ConcatAssoc4(a, t, v, w);
      TrimPrefix(a, t + (v + w));
      TrimAfter(t, v + w);
      TrimEndAll(v + w);
    }
  }

  lemma TrimStripCr(s: string)
    ensures Trim(StripCr(s)) == Trim(s)
  {
    if s != [] && s[|s| - 1] == '\r' {
      var f := s[..|s| - 1];
      assert s == f + ['\r'];
      TrimSuffix(f, ['\r']);
    }
  }

  /** A written key line, as the reader sees it once trimmed. */
  lemma TrimKeyLine(w: string, h: string, x: string)
    requires AllWhite(w) && h != [] && !IsWhite(h[0]) && !IsWhite(h[|h| - 1])
    ensures Trim(StripCr(w + (h + (" " + x)))) == h + TrimEnd(" " + x)
  {
    TrimStripCr(w + (h + (" " + x)));
    TrimPrefix(w, h + (" " + x));
    TrimAfter(h, " " + x);
  }

  lemma {:induction false} ByteLenSpaces(n: nat)
    ensures ByteLen(Spaces(n)) == n
  {
    if n > 0 {
      assert Spaces(n)[1..] == Spaces(n - 1);
      ByteLenSpaces(n - 1);
    }
  }

  lemma IndentOf(n: nat, h: string)
    requires h != [] && !IsWhite(h[0])
    ensures Indent(Spaces(n) + h) == n
  {
    var s := Spaces(n) + h;
    TrimStartSplit(Spaces(n), h);
    assert s[..|s| - |TrimStart(s)|] == Spaces(n);
    ByteLenSpaces(n);
  }

  /** The reader is inside a row that was opened at the left margin and is not in an open quote. */
  predicate InRow(st: State) {
    && st.cur.Some? && !st.cur.value.quoteOpen
    && st.inIgnored && st.itemCol == 0 && st.memberCol == 2
  }

  predicate IsMemberKey(key: string) {
    key == "rule" || key == "message" || key == "count"
  }

  lemma StepMember(rx: Engine, st: State, raw: string)
    requires InRow(st) && Indent(raw) == 2 && StartsWith(raw, " ")
    requires Trim(raw) != [] && Trim(raw)[0] != '-' && Trim(raw)[0] != '#'
    ensures Step(rx, st, raw) ==
            match Apply(st.cur.value, Trim(raw), false)
            case Err(e) => Err(e)
            case Ok(row) => Ok(st.(cur := Some(row)))
  {
    NotAnItem(Trim(raw));
  }

  lemma NotAnItem(t: string)
    requires t != [] && t[0] != '-'
    ensures !OpensItem(t)
  {
    assert |t| >= 2 ==> t[0..2][0] == t[0];
  }

  /** A word that can stand before a colon at the start of a line. */
  predicate KeyWord(key: string) {
    key != [] && ':' !in key && Trimmed(key) && key[0] != '-' && key[0] != '#'
  }

  lemma MemberWord(key: string)
    requires IsMemberKey(key)
    ensures KeyWord(key)
  {
  }

  /** A member line sets the field of its key, whatever the key. */
  lemma MemberLine(rx: Engine, st: State, key: string, x: string)
    requires InRow(st) && KeyWord(key)
    ensures var (head, kind) := ScalarHead(Trim(x));
            Step(rx, st, StripCr("  " + (key + ":") + (" " + x))) ==
            Ok(st.(cur := Some(SetField(st.cur.value, FieldOf(key), head, kind))))
  {
    hide TrimEnd, Trim, StripCr, Step, TrimStart, Apply;
    var h := key + ":";
    var raw := StripCr("  " + h + (" " + x));
    ConcatAssoc("  ", h, " " + x);
    TrimKeyLine("  ", h, x);
    var tail := TrimEnd(" " + x);
    ConcatAssoc(key, ":", tail);
    assert Trim(raw) == key + (":" + tail);
    assert Trim(raw)[0] == key[0];
    MemberIndent(raw, h, x);
    StepMember(rx, st, raw);
    ApplyKey(st.cur.value, key, x, false);
  }

  lemma MemberIndent(raw: string, h: string, x: string)
    requires |h| > 1 && !IsWhite(h[0]) && raw == StripCr("  " + h + (" " + x))
    ensures Indent(raw) == 2 && StartsWith(raw, " ")
  {
    var full := "  " + h + (" " + x);
    var body := raw[2..];
    assert raw[..3] == full[..3];
    assert raw[0] == full[0] && raw[1] == full[1];
    assert raw == Spaces(2) + body;
    assert body[0] == full[2] == h[0];
    IndentOf(2, body);
  }

  lemma StepItem(rx: Engine, st: State, raw: string)
    requires st.inIgnored && (st.cur.Some? ==> !st.cur.value.quoteOpen && st.itemCol == 0)
    requires Indent(raw) == 0 && StartsWith(raw, "-") && OpensItem(Trim(raw)) && Trim(raw) != "---"
    ensures Step(rx, st, raw) == NewItem(rx, st, 0, Trim(raw)[2..])
  {
    assert Trim(raw)[..2][0] == '-';
  }

  lemma ItemShape(raw: string, x: string)
    requires raw == StripCr("- file: " + x)
    ensures Trim(raw) == "- " + ("file" + (":" + TrimEnd(" " + x)))
    ensures Indent(raw) == 0 && StartsWith(raw, "-")
  {
    var full := "- file: " + x;
    var h := "- file:";
    assert h == "- " + "file" + ":" && "- file: " == h + " ";
    ConcatAssoc(h, " ", x);
    assert full == [] + (h + (" " + x));
    TrimKeyLine([], h, x);
    ConcatAssoc4("- ", "file", ":", TrimEnd(" " + x));
    ItemIndent(raw, full);
  }

  lemma ItemIndent(raw: string, full: string)
    requires |full| > 1 && full[0] == '-' && raw == StripCr(full)
    ensures Indent(raw) == 0 && StartsWith(raw, "-")
  {
    assert raw[0] == full[0];
    assert raw == Spaces(0) + raw;
    IndentOf(0, raw);
    assert raw[..1] == "-";
  }

  lemma ItemText(rest: string, trimmed: string)
    requires trimmed == "- " + rest && rest != [] && !IsWhite(rest[0]) && rest[0] != '-'
    ensures OpensItem(trimmed) && trimmed != "---" && trimmed[2..] == rest
    ensures Indent(rest) == 0 && TrimStart(rest) == rest
  {
    assert trimmed[..2] == "- ";
    assert rest == Spaces(0) + rest && rest == [] + rest;
    IndentOf(0, rest);
    TrimStartSplit([], rest);
  }

  lemma ItemApply(rx: Engine, st: State, raw: string, rest: string)
    requires st.inIgnored && (st.cur.Some? ==> !st.cur.value.quoteOpen && st.itemCol == 0)
    requires Indent(raw) == 0 && StartsWith(raw, "-")
    requires Trim(raw) == "- " + rest && rest != [] && !IsWhite(rest[0]) && rest[0] != '-'
    ensures Step(rx, st, raw) ==
            match Flush(rx, st)
            case Err(e) => Err(e)
            case Ok(flushed) =>
              match Apply(NewRow(|flushed.buckets|), rest, true)
              case Err(e) => Err(e)
              case Ok(row) => Ok(flushed.(cur := Some(row), itemCol := 0, memberCol := 2))
  {
    ItemText(rest, Trim(raw));
    StepItem(rx, st, raw);
    NewItemApplies(rx, st, rest);
  }

  lemma NewItemApplies(rx: Engine, st: State, rest: string)
    requires Indent(rest) == 0 && TrimStart(rest) == rest
    ensures NewItem(rx, st, 0, rest) ==
            match Flush(rx, st)
            case Err(e) => Err(e)
            case Ok(flushed) =>
              match Apply(NewRow(|flushed.buckets|), rest, true)
              case Err(e) => Err(e)
              case Ok(row) => Ok(flushed.(cur := Some(row), itemCol := 0, memberCol := 2))
  {
  }

  /** A row's first line flushes the row before it and sets its file. */
  lemma ItemLine(rx: Engine, st: State, x: string)
    requires st.inIgnored && (st.cur.Some? ==> !st.cur.value.quoteOpen && st.itemCol == 0)
    ensures Step(rx, st, StripCr("- file: " + x)) ==
            match Flush(rx, st)
            case Err(e) => Err(e)
            case Ok(flushed) =>
              var (head, kind) := ScalarHead(Trim(x));
              Ok(flushed.(cur := Some(SetField(NewRow(|flushed.buckets|), File, head, kind)), itemCol := 0, memberCol := 2))
  {
    var raw := StripCr("- file: " + x);
    ItemShape(raw, x);
    var rest := "file" + (":" + TrimEnd(" " + x));
    assert rest[0] == 'f';
    ItemApply(rx, st, raw, rest);
    forall n: nat
      ensures Apply(NewRow(n), rest, true) == Ok(SetField(NewRow(n), File, ScalarHead(Trim(x)).0, ScalarHead(Trim(x)).1))
    {
      ApplyKey(NewRow(n), "file", x, true);
    }
  }

  // ---- the lines behind it -------------------------------------------------------------

  /** What continuation lines change: the field's value, the open quote, the pending breaks. */
  datatype Tail = Tail(fv: FieldVal, open: bool, pending: nat)

  function HeadTail(head: string, kind: ScalarKind): Tail {
    Tail(FieldVal(head, kind, [], None), LeavesOpen(head, kind), 0)
  }

  function AbsorbLine(t: Tail, raw: string): Tail {
    var trimmed := Trim(raw);
    if Skipped(trimmed) then t
    else if trimmed == [] then t.(pending := t.pending + 1)
    else
      var fv := Grow(t.fv, t.pending, if t.open then trimmed else raw);
      Tail(fv, t.open && !Closes(fv), 0)
  }

  function Absorb(t: Tail, lines: seq<string>): Tail {
    if lines == [] then t else AbsorbLine(Absorb(t, lines[..|lines| - 1]), lines[|lines| - 1])
  }

  function WithTail(r: Row, f: Field, t: Tail): Row {
    r.(last := Some(f), fields := r.fields[f := t.fv], quoteOpen := t.open, pending := t.pending)
  }

  /** A line that can only continue the scalar before it. */
  predicate Hangs(raw: string) {
    raw == [] || (|raw| >= 4 && raw[..4] == Spaces(4))
  }

  lemma HangIndent(raw: string)
    requires |raw| >= 4 && raw[..4] == Spaces(4)
    ensures Indent(raw) >= 4 && StartsWith(raw, " ")
  {
    var k := LeadWhite(raw, 0);
    assert forall j :: 0 <= j < 4 ==> raw[j] == Spaces(4)[j];
    assert k >= 4;
    assert raw[..|raw| - |TrimStart(raw)|] == raw[..k];
    assert raw[..1] == " ";
  }

  /** Inside a row, a hanging line or a line under an open quote only grows the current field. */
  lemma HangLine(rx: Engine, st: State, r: Row, f: Field, t: Tail, raw: string)
    requires st.inIgnored && st.itemCol == 0 && st.memberCol == 2
    requires st.cur == Some(WithTail(r, f, t))
    requires Hangs(raw) || (t.open && Trim(raw) != [])
    ensures Step(rx, st, raw) == Ok(st.(cur := Some(WithTail(r, f, AbsorbLine(t, raw)))))
  {
    var row := WithTail(r, f, t);
    var t' := AbsorbLine(t, raw);
    if raw != [] && Hangs(raw) {
      HangIndent(raw);
    }
    if raw == [] {
      TrimOfTrimmed(raw);
    }
    assert ValueOf(row, f) == t.fv;
    assert row.fields[f := t'.fv] == r.fields[f := t'.fv];
  }

  lemma {:induction false} RunAppend(rx: Engine, st: State, a: seq<string>, b: seq<string>)
    ensures Run(rx, st, a + b) == Then(rx, Run(rx, st, a), b)
    decreases |a|
  {
    if a == [] {
      assert a + b == b;
    } else {
      assert (a + b)[1..] == a[1..] + b;
      match Step(rx, st, a[0])
      case Err(_) =>
      case Ok(next) => RunAppend(rx, next, a[1..], b);
    }
  }

  lemma RunOne(rx: Engine, st: State, line: string)
    ensures Run(rx, st, [line]) == Step(rx, st, line)
  {
    match Step(rx, st, line)
    case Err(_) =>
    case Ok(next) => assert Run(rx, next, []) == Ok(next);
  }

  lemma {:induction false} HangLines(rx: Engine, st: State, r: Row, f: Field, t: Tail, lines: seq<string>)
    requires st.inIgnored && st.itemCol == 0 && st.memberCol == 2
    requires st.cur == Some(WithTail(r, f, t))
    requires forall i :: 0 <= i < |lines| ==> Hangs(lines[i])
    ensures Run(rx, st, lines) == Ok(st.(cur := Some(WithTail(r, f, Absorb(t, lines)))))
    decreases |lines|
  {
    if lines != [] {
      var n := |lines| - 1;
      FrontLast(lines);
      HangLines(rx, st, r, f, t, lines[..n]);
      RunAppend(rx, st, lines[..n], [lines[n]]);
      var mid := st.(cur := Some(WithTail(r, f, Absorb(t, lines[..n]))));
      HangLine(rx, mid, r, f, Absorb(t, lines[..n]), lines[n]);
      RunOne(rx, mid, lines[n]);
    }
  }
}
