/**
 The line-oriented reader. `Step` says what one line does to the reader's state;
 the `RowAcc` class and the `Parse` loop carry it out in place.
 */
module Reader {
  import opened Wrappers
  import opened Text
  import opened Scalars
  import opened Baseline

  datatype Field = File | Rule | Message | Count | Other

  /** One field's value so far: `raw` for flow scalars, `lines` for block scalars. */
  datatype FieldVal = FieldVal(raw: string, kind: ScalarKind, lines: seq<string>, blockIndent: Option<nat>)

  const EMPTY := FieldVal([], Plain, [], None)

  /** The row being read. */
  datatype Row = Row(idx: nat, fields: map<Field, FieldVal>, last: Option<Field>, quoteOpen: bool, pending: nat)

  datatype LoadError =
    | TopLevelArray
    | TopLevelString
    | IgnoredNotArray
    | RowNotHash(idx: nat)
    | MalformedEntry(fragment: string)
    | MissingField(idx: nat, field: Field)
    | BadCount(idx: nat)
    | BadRegexp(idx: nat, source: string)
    | UnsupportedVersion

  function NewRow(idx: nat): Row {
    Row(idx, map[], None, false, 0)
  }

  function ValueOf(r: Row, f: Field): FieldVal {
    if f in r.fields then r.fields[f] else EMPTY
  }

  // ---- one `key: value` fragment -------------------------------------------------

  function FieldOf(key: string): Field {
    if key == "file" then File
    else if key == "rule" then Rule
    else if key == "message" then Message
    else if key == "count" then Count
    else Other
  }

  predicate LeavesOpen(head: string, kind: ScalarKind) {
    (kind.DoubleQuoted? && !DqClosed(head)) || (kind.SingleQuoted? && !SqClosed(head))
  }

  /** A field takes the scalar `head`; an empty head leaves the field as it was. */
  function SetField(r: Row, field: Field, head: string, kind: ScalarKind): Row {
    if head == [] then r.(last := Some(field), pending := 0, quoteOpen := false)
    else r.(last := Some(field), pending := 0, quoteOpen := LeavesOpen(head, kind),
            fields := r.fields[field := FieldVal(head, kind, [], None)])
  }

  function Apply(r: Row, fragment: string, rowHead: bool): Result<Row, LoadError> {
    match Find(fragment, ":")
    case None => Err(if rowHead then RowNotHash(r.idx) else MalformedEntry(fragment))
    case Some(i) =>
      var (head, kind) := ScalarHead(TrimStart(fragment[i + 1..]));
      Ok(SetField(r, FieldOf(Trim(fragment[..i])), head, kind))
  }

  // ---- continuation lines ----------------------------------------------------------

  /** The line break before a continuation: one space, or one line feed per blank line. */
  function FoldBreak(pending: nat): string {
    if pending > 0 then Replicate('\n', pending) else " "
  }

  function TrailingBackslashes(s: string): nat {
    if s != [] && s[|s| - 1] == '\\' then 1 + TrailingBackslashes(s[..|s| - 1]) else 0
  }

  /** A value grown by one more source line. */
  function Grow(fv: FieldVal, pending: nat, line: string): FieldVal {
    match fv.kind
    case Plain => fv.(raw := fv.raw + FoldBreak(pending) + Trim(line))
    case DoubleQuoted =>
      var t := TrimEnd(fv.raw);
      if TrailingBackslashes(t) % 2 == 1 then fv.(raw := t[..|t| - 1] + Trim(line))
      else fv.(raw := fv.raw + FoldBreak(pending) + Trim(line))
    case SingleQuoted => fv.(raw := fv.raw + FoldBreak(pending) + Trim(line))
    case Block(_, _) =>
      var indent := if fv.blockIndent.Some? then fv.blockIndent.value else Indent(line);
      fv.(lines := fv.lines + seq(pending, _ => []) + [DropBytes(line, indent)], blockIndent := Some(indent))
  }

  predicate Closes(fv: FieldVal) {
    (fv.kind.DoubleQuoted? && DqClosed(fv.raw)) || (fv.kind.SingleQuoted? && SqClosed(fv.raw))
  }

  function Continue(r: Row, line: string): Row {
    if r.last.None? then r
    else
      var f := r.last.value;
      var fv := Grow(ValueOf(r, f), r.pending, line);
      r.(pending := 0, fields := r.fields[f := fv], quoteOpen := r.quoteOpen && !Closes(fv))
  }

  // ---- a finished row ----------------------------------------------------------------

  function Decode(fv: FieldVal): string {
    match fv.kind
    case Block(folded, chomp) => BlockValue(fv.lines, folded, chomp)
    case _ => UnyamlScalar(fv.raw)
  }

  predicate IsNull(s: string) {
    s == [] || s == "~" || EqIgnoreCase(s, "null")
  }

  predicate EqIgnoreCase(s: string, t: string) {
    |s| == |t| && forall i :: 0 <= i < |s| ==> LowerChar(s[i]) == LowerChar(t[i])
  }

  /** A field's text; a plain null is absent. */
  function NonNull(fv: FieldVal): Option<string> {
    if fv.kind.Plain? && IsNull(Decode(fv)) then None else Some(Decode(fv))
  }

  function FieldText(r: Row, f: Field): Option<string> {
    if f in r.fields then NonNull(r.fields[f]) else None
  }

  /** The value of a non-empty run of decimal digits. */
  function ParseDigits(s: string): Option<nat> {
    if s == [] then None
    else
      var n := |s| - 1;
      if !IsDigit(s[n]) then None
      else if n == 0 then Some(s[0] as int - '0' as int)
      else
        match ParseDigits(s[..n])
        case None => None
        case Some(v) => Some(10 * v + (s[n] as int - '0' as int))
  }

  /** `str::parse::<i64>`, for the positive results only. */
  function ParsePositive(s: string): Option<nat> {
    match ParseDigits(if s != [] && s[0] == '+' then s[1..] else s)
    case None => None
    case Some(v) => if 0 < v < 0x8000_0000_0000_0000 then Some(v) else None
  }

  function CountOf(r: Row): Option<nat> {
    if Count in r.fields && r.fields[Count].kind.Plain? then ParsePositive(Decode(r.fields[Count])) else None
  }

  function IntoBucket(rx: Engine, r: Row): Result<Bucket, LoadError> {
    var file, rule, message, count := FieldText(r, File), FieldText(r, Rule), FieldText(r, Message), CountOf(r);
    if file.None? then Err(MissingField(r.idx, File))
    else if rule.None? then Err(MissingField(r.idx, Rule))
    else if count.None? then Err(BadCount(r.idx))
    else if message.Some? && !rx.compiles(message.value) then Err(BadRegexp(r.idx, message.value))
    else Ok(Bucket(file.value, rule.value, message, count.value))
  }

  // ---- one line ------------------------------------------------------------------------

  datatype State = State(
    version: Option<(string, bool)>,
    buckets: seq<Bucket>,
    cur: Option<Row>,
    inIgnored: bool,
    itemCol: nat,
    memberCol: nat)

  const START := State(None, [], None, false, 0, 0)

  function Flush(rx: Engine, st: State): Result<State, LoadError> {
    match st.cur
    case None => Ok(st)
    case Some(r) =>
      var b :- IntoBucket(rx, r);
      Ok(st.(buckets := st.buckets + [b], cur := None))
  }

  predicate Tagged(value: string) {
    value != [] && value[0] == '!'
  }

  function VersionValue(rest: string): (string, bool) {
    var value := TrimStart(rest);
    var (head, kind) := ScalarHead(value);
    (UnyamlScalar(head), !kind.Plain? || Tagged(value))
  }

  /** What stands behind `ignored:`; `Ok(true)` when the rows follow on the next lines. */
  function IgnoredValue(rest: string): Result<bool, LoadError> {
    var value := TrimStart(rest);
    var (inline, kind) := ScalarHead(value);
    var isPlain := kind.Plain? && !Tagged(value);
    var isNil := inline == [] || (isPlain && (inline == "~" || EqIgnoreCase(inline, "null")));
    if isNil || (isPlain && inline == "[]") then Ok(isPlain && inline == []) else Err(IgnoredNotArray)
  }

  /** A key at the left margin, any pending row already flushed. */
  function TopLevelKey(st: State, trimmed: string): Result<State, LoadError> {
    if StartsWith(trimmed, "version:") then
      Ok(st.(inIgnored := false, version := Some(VersionValue(trimmed[8..]))))
    else if StartsWith(trimmed, "ignored:") then
      var open :- IgnoredValue(trimmed[8..]);
      Ok(st.(inIgnored := open))
    else Ok(st.(inIgnored := false))
  }

  predicate Skipped(trimmed: string) {
    trimmed == "---" || (trimmed != [] && trimmed[0] == '#')
  }

  predicate OpensItem(trimmed: string) {
    StartsWith(trimmed, "- ")
  }

  /** A `- ` line at column `indent` with `rest` behind the dash: flush the row before it and start the next one. */
  function NewItem(rx: Engine, st: State, indent: nat, rest: string): Result<State, LoadError> {
    var flushed :- Flush(rx, st);
    var row :- Apply(NewRow(|flushed.buckets|), TrimStart(rest), true);
    Ok(flushed.(cur := Some(row), itemCol := indent, memberCol := indent + 2 + Indent(rest)))
  }

  function Step(rx: Engine, st: State, raw: string): Result<State, LoadError> {
    var trimmed := Trim(raw);
    if Skipped(trimmed) then Ok(st)
    else if trimmed == [] then
      Ok(if st.cur.None? then st else st.(cur := Some(st.cur.value.(pending := st.cur.value.pending + 1))))
    else if st.cur.Some? && st.cur.value.quoteOpen then
      Ok(st.(cur := Some(Continue(st.cur.value, trimmed))))
    else if !st.inIgnored && Indent(raw) == 0 && (trimmed == "-" || OpensItem(trimmed)) then
      Err(TopLevelArray)
    else if !StartsWith(raw, " ") && !StartsWith(raw, "-") then
      if !Contains(trimmed, ":") then Err(TopLevelString)
      else
        var flushed :- Flush(rx, st);
        TopLevelKey(flushed, trimmed)
    else if !st.inIgnored then Ok(st)
    else if OpensItem(trimmed) && (st.cur.None? || Indent(raw) <= st.itemCol) then
      NewItem(rx, st, Indent(raw), trimmed[2..])
    else if st.cur.None? then Ok(st)
    else if Indent(raw) > st.memberCol then Ok(st.(cur := Some(Continue(st.cur.value, raw))))
    else
      var row :- Apply(st.cur.value, trimmed, false);
      Ok(st.(cur := Some(row)))
  }

  function Run(rx: Engine, st: State, lines: seq<string>): Result<State, LoadError>
    decreases |lines|
  {
    if lines == [] then Ok(st)
    else
      var next :- Step(rx, st, lines[0]);
      Run(rx, next, lines[1..])
  }

  /** A run that goes on over more lines. */
  function Then(rx: Engine, end: Result<State, LoadError>, lines: seq<string>): Result<State, LoadError> {
    match end case Err(e) => Err(e) case Ok(st) => Run(rx, st, lines)
  }

  predicate SupportedVersion(version: Option<(string, bool)>) {
    && version.Some?
    && !version.value.1
    && ParsePositive(version.value.0) == Some(1)
  }

  function Finish(rx: Engine, st: State): Result<seq<Bucket>, LoadError> {
    var flushed :- Flush(rx, st);
    if SupportedVersion(flushed.version) then Ok(flushed.buckets) else Err(UnsupportedVersion)
  }

  /** What a baseline file loads as. */
  function Load(rx: Engine, lines: seq<string>): Result<seq<Bucket>, LoadError> {
    var st :- Run(rx, START, lines);
    Finish(rx, st)
  }

  // ---- the reader in place -----------------------------------------------------------------

  /** The row accumulator. */
  class RowAcc {
    const idx: nat
    var fields: map<Field, FieldVal>
    var last: Option<Field>
    var quoteOpen: bool
    var pending: nat

    function View(): Row
      reads this
    {
      Row(idx, fields, last, quoteOpen, pending)
    }

    constructor (idx: nat)
      ensures View() == NewRow(idx)
    {
      this.idx := idx;
      fields, last, quoteOpen, pending := map[], None, false, 0;
    }

    method ApplyFragment(fragment: string, rowHead: bool) returns (r: Result<(), LoadError>)
      modifies this
      ensures match Apply(old(View()), fragment, rowHead)
              case Ok(row) => r == Ok(()) && View() == row
              case Err(e) => r == Err(e) && View() == old(View())
    {
      hide ScalarHead, TrimStart, Trim, FieldOf, DqClosed, SqClosed, Contains;
      var colon := Find(fragment, ":");
      if colon.None? {
        return Err(if rowHead then RowNotHash(idx) else MalformedEntry(fragment));
      }
      var key, value := fragment[..colon.value], fragment[colon.value + 1..];
      var (head, kind) := ScalarHead(TrimStart(value));
      var field := FieldOf(Trim(key));
      last := Some(field);
      pending := 0;
      if head == [] {
        quoteOpen := false;
        return Ok(());
      }
      match kind {
        case DoubleQuoted =>
          var closed := ScanDqClosed(head);
          quoteOpen := !closed;
        case SingleQuoted =>
          var closed := ScanSqClosed(head);
          quoteOpen := !closed;
        case _ =>
          quoteOpen := false;
      }
      fields := fields[field := FieldVal(head, kind, [], None)];
      return Ok(());
    }

    method ContinueScalar(line: string)
      modifies this
      ensures View() == Continue(old(View()), line)
    {
      if last.None? {
        return;
      }
      var breaks := pending;
      pending := 0;
      var field := last.value;
      var fv := if field in fields then fields[field] else EMPTY;
      match fv.kind {
        case Plain =>
          fv := fv.(raw := fv.raw + FoldBreak(breaks) + Trim(line));
        case DoubleQuoted =>
          var t := TrimEnd(fv.raw);
          if TrailingBackslashes(t) % 2 == 1 {
            fv := fv.(raw := t[..|t| - 1]);
          } else {
            fv := fv.(raw := fv.raw + FoldBreak(breaks));
          }
          fv := fv.(raw := fv.raw + Trim(line));
          var closed := ScanDqClosed(fv.raw);
          if closed {
            quoteOpen := false;
          }
        case SingleQuoted =>
          fv := fv.(raw := fv.raw + FoldBreak(breaks) + Trim(line));
          var closed := ScanSqClosed(fv.raw);
          if closed {
            quoteOpen := false;
          }
        case Block(_, _) =>
          var lines := fv.lines;
          for i := 0 to breaks
            invariant lines == fv.lines + seq(i, _ => [])
          {
            lines := lines + [[]];
          }
          var indent := if fv.blockIndent.Some? then fv.blockIndent.value else Indent(line);
          fv := fv.(lines := lines + [DropBytes(line, indent)], blockIndent := Some(indent));
      }
      fields := fields[field := fv];
    }
  }

  /** The variables of the reading loop. */
  class Loader {
    var version: Option<(string, bool)>
    var buckets: seq<Bucket>
    var cur: RowAcc?
    var inIgnored: bool
    var itemCol: nat
    var memberCol: nat

    function View(): State
      reads this, cur
    {
      State(version, buckets, if cur == null then None else Some(cur.View()), inIgnored, itemCol, memberCol)
    }

    constructor ()
      ensures View() == START && cur == null
    {
      version, buckets, cur, inIgnored, itemCol, memberCol := None, [], null, false, 0, 0;
    }

    /** Turn the pending row, if any, into a bucket. */
    method FlushRow(rx: Engine) returns (r: Result<(), LoadError>)
      modifies this
      ensures match Flush(rx, old(View()))
              case Ok(st) => r == Ok(()) && View() == st && cur == null
              case Err(e) => r == Err(e)
    {
      if cur != null {
        var bucket :- IntoBucket(rx, cur.View());
        buckets := buckets + [bucket];
        cur := null;
      }
      return Ok(());
    }

    method KeyLine(rx: Engine, trimmed: string) returns (r: Result<(), LoadError>)
      modifies this
      ensures match Flush(rx, old(View()))
              case Err(e) => r == Err(e)
              case Ok(st) =>
                match TopLevelKey(st, trimmed)
                case Ok(st') => r == Ok(()) && View() == st' && cur == null
                case Err(e) => r == Err(e)
    {
      var flushed :- FlushRow(rx);
      inIgnored := false;
      if StartsWith(trimmed, "version:") {
        version := Some(VersionValue(trimmed[8..]));
      } else if StartsWith(trimmed, "ignored:") {
        inIgnored :- IgnoredValue(trimmed[8..]);
      }
      return Ok(());
    }

    method ItemLine(rx: Engine, indent: nat, rest: string) returns (r: Result<(), LoadError>)
      modifies this
      ensures match NewItem(rx, old(View()), indent, rest)
              case Ok(st) => r == Ok(()) && View() == st && cur != null && fresh(cur)
              case Err(e) => r == Err(e)
    {
      var flushed :- FlushRow(rx);
      itemCol := indent;
      memberCol := indent + 2 + Indent(rest);
      var acc := new RowAcc(|buckets|);
      var applied :- acc.ApplyFragment(TrimStart(rest), true);
      cur := acc;
      return Ok(());
    }

    /** One turn of the reading loop. */
    method Line(rx: Engine, raw: string) returns (r: Result<(), LoadError>)
      modifies this, cur
      ensures match Step(rx, old(View()), raw)
              case Ok(st) => r == Ok(()) && View() == st && (cur == old(cur) || cur == null || fresh(cur))
              case Err(e) => r == Err(e)
    {
      hide Trim, Indent, TopLevelKey, ScalarHead;
      var trimmed := Trim(raw);
      if Skipped(trimmed) {
        return Ok(());
      }
      if trimmed == [] {
        if cur != null {
          cur.pending := cur.pending + 1;
        }
        return Ok(());
      }
      if cur != null && cur.quoteOpen {
        cur.ContinueScalar(trimmed);
        return Ok(());
      }
      var indent := Indent(raw);
      if !inIgnored && indent == 0 && (trimmed == "-" || OpensItem(trimmed)) {
        return Err(TopLevelArray);
      }
      if !StartsWith(raw, " ") && !StartsWith(raw, "-") {
        if !Contains(trimmed, ":") {
          return Err(TopLevelString);
        }
        r := KeyLine(rx, trimmed);
        return;
      }
      if !inIgnored {
        return Ok(());
      }
      if OpensItem(trimmed) && (cur == null || indent <= itemCol) {
        r := ItemLine(rx, indent, trimmed[2..]);
      } else if cur == null {
        return Ok(());
      } else if indent > memberCol {
        cur.ContinueScalar(raw);
        return Ok(());
      } else {
        r := cur.ApplyFragment(trimmed, false);
      }
    }
  }

  /** Read a baseline document. */
  method Parse(rx: Engine, text: string) returns (r: Result<seq<Bucket>, LoadError>)
    ensures r == Load(rx, Lines(text))
  {
    var loader := new Loader();
    var lines := Lines(text);
    for i := 0 to |lines|
      invariant fresh(loader) && (loader.cur == null || fresh(loader.cur))
      invariant Run(rx, START, lines) == Run(rx, loader.View(), lines[i..])
    {
      assert lines[i..][1..] == lines[i + 1..];
      var done :- loader.Line(rx, lines[i]);
    }
    var flushed :- loader.FlushRow(rx);
    return if SupportedVersion(loader.version) then Ok(loader.buckets) else Err(UnsupportedVersion);
  }
}
