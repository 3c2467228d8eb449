/**
 Plain values that start with white space from outside ASCII. The reader trims such a start before it
 looks at what follows, so the value may then read as a comment, a tag, a block or an open quote that
 swallows the lines behind it. Whatever it reads as, the baseline does not come back.
 */
module WhiteStart {
  import opened Wrappers
  import opened Text
  import opened Scalars
  import opened Baseline
  import opened Writer
  import opened Reader
  import opened FieldTrip
  import opened ScalarTrip
  import opened PlainTrip
  import opened BlockTrip
  import opened RowTrip

  // ---- a scalar never grows ------------------------------------------------------------------

  /** How much text a field's lines and pending breaks stand for. */
  function Weight(t: Tail): nat {
    if t.fv.kind.Block? then Size(t) else |t.fv.raw| + t.pending
  }

  /** Block scalars are never quoted, and their indentation is at least that of a hanging line. */
  predicate Hanging(t: Tail) {
    t.fv.kind.Block? ==> !t.open && (t.fv.blockIndent.Some? ==> t.fv.blockIndent.value >= HANG)
  }

  lemma DropHang(p: string, indent: nat)
    requires indent >= HANG
    ensures |DropBytes(StripCr(Spaces(HANG) + p), indent)| <= |p|
  {
    if p == [] {
      var s := Spaces(HANG) + p;
      assert s[|s| - 1] == Spaces(HANG)[HANG - 1];
      DropSpaces(HANG, p, indent);
    } else {
      HangStripCr(p);
      DropSpaces(HANG, StripCr(p), indent);
    }
  }

  lemma HangsIndent(p: string)
    ensures Indent(StripCr(Spaces(HANG) + p)) >= HANG
  {
    if p == [] {
      var s := Spaces(HANG) + p;
      assert s[|s| - 1] == Spaces(HANG)[HANG - 1];
      HangIndentAtLeast(p);
    } else {
      HangStripCr(p);
      HangIndentAtLeast(StripCr(p));
    }
  }

  lemma BlockWeight(t: Tail, p: string)
    requires Hanging(t) && t.fv.kind.Block?
    ensures var t' := AbsorbLine(t, StripCr(Spaces(HANG) + p));
            Hanging(t') && t'.fv.kind.Block? && Size(t') <= Size(t) + 1 + |p|
  {
    var raw := StripCr(Spaces(HANG) + p);
    var t' := AbsorbLine(t, raw);
    HangsIndent(p);
    DropHang(p, Indented(t, raw));
    if !Skipped(Trim(raw)) && Trim(raw) != [] {
      assert Blanks(t.pending) == seq(t.pending, _ => []);
      SizeVisible(t, DropBytes(raw, Indented(t, raw)), t');
    }
  }

  lemma TrimEndShrinks(s: string)
    ensures |TrimEnd(s)| <= |s|
  {
  }

  lemma GrowWeight(fv: FieldVal, pending: nat, line: string)
    requires !fv.kind.Block?
    ensures var fv' := Grow(fv, pending, line);
            fv'.kind == fv.kind && |fv'.raw| <= |fv.raw| + pending + 1 + |Trim(line)|
  {
    hide Trim, TrimEnd;
    TrimEndShrinks(fv.raw);
    assert |FoldBreak(pending)| <= pending + 1;
    assert pending > 0 ==> |FoldBreak(pending)| == pending;
  }

  lemma FlowWeight(t: Tail, p: string)
    requires !t.fv.kind.Block?
    ensures var t' := AbsorbLine(t, StripCr(Spaces(HANG) + p));
            !t'.fv.kind.Block? && Weight(t') <= Weight(t) + 1 + |p|
  {
    hide Trim, StripCr, Grow, Closes, Skipped;
    var raw := StripCr(Spaces(HANG) + p);
    TrimHang(p);
    TrimOfTrimmed(p);
    TrimOfTrimmed(Trim(p));
    GrowWeight(t.fv, t.pending, if t.open then Trim(raw) else raw);
  }

  /** One more hanging line adds at most a break and its text. */
  lemma AbsorbWeight(t: Tail, p: string)
    requires Hanging(t)
    ensures var t' := AbsorbLine(t, StripCr(Spaces(HANG) + p));
            Hanging(t') && Weight(t') <= Weight(t) + 1 + |p|
  {
    if t.fv.kind.Block? {
      BlockWeight(t, p);
    } else {
      FlowWeight(t, p);
    }
  }

  lemma {:induction false} AbsorbsWeight(t: Tail, ps: seq<string>)
    requires Hanging(t)
    ensures var t' := Absorb(t, StripAll(Hang(ps)));
            Hanging(t') && Weight(t') <= Weight(t) + |Spaced(ps)|
  {
    if ps != [] {
      var n := |ps| - 1;
      AbsorbsWeight(t, ps[..n]);
      var lines := StripAll(Hang(ps));
      assert lines[..n] == StripAll(Hang(ps[..n]));
      AbsorbWeight(Absorb(t, lines[..n]), ps[n]);
    }
  }

  lemma {:induction false} JoinLength(lines: seq<string>, folded: bool)
    requires lines != []
    ensures |BlockJoin(lines, folded)| + 1 == |Unlines(lines)|
  {
    var n := |lines| - 1;
    FrontLast(lines);
    UnlinesSnoc(lines[..n], lines[n]);
    if n > 0 {
      JoinLength(lines[..n], folded);
    } else {
      assert lines[..0] == [];
    }
  }

  /** A field decodes to no more than its lines stand for. */
  lemma DecodeWeight(t: Tail)
    ensures |Decode(t.fv)| <= Weight(t)
  {
    match t.fv.kind
    case Block(folded, chomp) =>
      if t.fv.lines != [] {
        JoinLength(t.fv.lines, folded);
      }
    case _ => UnyamlShrinks(t.fv.raw);
  }

  lemma UntaggedShrinks(value: string)
    ensures |Untagged(value)| <= |value|
  {
  }

  lemma HeadShrinks(value: string)
    ensures |ScalarHead(value).0| <= |value|
  {
    UntaggedShrinks(value);
  }

  // ---- one row: the state of its current field ------------------------------------------------

  /** The reader is inside a row that was opened at the left margin. */
  predicate Within(st: State) {
    && st.cur.Some? && st.inIgnored && st.itemCol == 0 && st.memberCol == 2
    && st.cur.value.last.Some? && st.cur.value.last.value != Other
  }

  function Slot(r: Row, f: Field): Option<FieldVal> {
    if f in r.fields then Some(r.fields[f]) else None
  }

  function TailOf(r: Row, f: Field): Tail {
    Tail(ValueOf(r, f), r.quoteOpen, r.pending)
  }

  /** Only the current field of the pending row has changed. */
  predicate Grew(st: State, st': State) {
    && Within(st') && st'.buckets == st.buckets && st.cur.Some?
    && st'.cur.value.last == st.cur.value.last
    && forall g: Field :: Some(g) != st.cur.value.last ==> Slot(st'.cur.value, g) == Slot(st.cur.value, g)
  }

  lemma ContinueGrows(st: State, line: string)
    requires Within(st)
    ensures var r := st.cur.value;
            && Grew(st, st.(cur := Some(Continue(r, line))))
            && Grew(st, st.(cur := Some(r.(pending := r.pending + 1))))
  {
  }

  /** A hanging line grows the current field, as far as it is there. */
  lemma HangGrows(rx: Engine, st: State, raw: string)
    requires Within(st) && Hangs(raw)
    ensures Step(rx, st, raw).Ok? && Grew(st, Step(rx, st, raw).value)
    ensures var f := st.cur.value.last.value;
            TailOf(Step(rx, st, raw).value.cur.value, f) == AbsorbLine(TailOf(st.cur.value, f), raw)
  {
    if raw != [] {
      HangIndent(raw);
    } else {
      TrimOfTrimmed(raw);
    }
    ContinueGrows(st, raw);
    ContinueGrows(st, Trim(raw));
  }

  lemma GrewTrans(a: State, b: State, c: State)
    requires Grew(a, b) && Grew(b, c)
    ensures Grew(a, c)
  {
  }

  lemma {:induction false} HangsGrow(rx: Engine, st: State, lines: seq<string>)
    requires Within(st) && forall i :: 0 <= i < |lines| ==> Hangs(lines[i])
    ensures Run(rx, st, lines).Ok? && Grew(st, Run(rx, st, lines).value)
    ensures var f := st.cur.value.last.value;
            TailOf(Run(rx, st, lines).value.cur.value, f) == Absorb(TailOf(st.cur.value, f), lines)
    decreases |lines|
  {
    if lines != [] {
      var n := |lines| - 1;
      FrontLast(lines);
      HangsGrow(rx, st, lines[..n]);
      RunAppend(rx, st, lines[..n], [lines[n]]);
      var mid := Run(rx, st, lines[..n]).value;
      HangGrows(rx, mid, lines[n]);
      RunOne(rx, mid, lines[n]);
      GrewTrans(st, mid, Step(rx, mid, lines[n]).value);
    }
  }

  // ---- one row: lines that leave a field alone ---------------------------------------------------

  predicate Spells(raw: string, key: string, x: string) {
    raw == StripCr("  " + (key + ":") + (" " + x))
  }

  /** A written line of a row that cannot set the field `g`. */
  ghost predicate Follows(raw: string, g: Field) {
    Hangs(raw) || raw == "'" || exists key, x :: Spells(raw, key, x) && IsMemberKey(key) && FieldOf(key) != g
  }

  /** The row goes on with the same `g`, which is not its current field. */
  predicate Kept(st: State, st': State, g: Field) {
    && Within(st') && st'.buckets == st.buckets && st.cur.Some?
    && st'.cur.value.last != Some(g)
    && Slot(st'.cur.value, g) == Slot(st.cur.value, g)
  }

  lemma KeyShape(raw: string, key: string, x: string)
    requires Spells(raw, key, x) && IsMemberKey(key)
    ensures Trim(raw) == key + (":" + TrimEnd(" " + x)) && Indent(raw) == 2 && StartsWith(raw, " ")
    ensures Trim(raw) != [] && !Skipped(Trim(raw))
  {
    var h := key + ":";
    ConcatAssoc("  ", h, " " + x);
    TrimKeyLine("  ", h, x);
    ConcatAssoc(key, ":", TrimEnd(" " + x));
    MemberIndent(raw, h, x);
    assert Trim(raw)[0] == key[0];
  }

  /** A key line under an open quote is swallowed. */
  lemma KeySwallowed(rx: Engine, st: State, raw: string, key: string, x: string)
    requires Within(st) && st.cur.value.quoteOpen && Spells(raw, key, x) && IsMemberKey(key)
    ensures Step(rx, st, raw).Ok? && Grew(st, Step(rx, st, raw).value)
  {
    KeyShape(raw, key, x);
    ContinueGrows(st, Trim(raw));
  }

  /** Any other key line sets its field. */
  lemma KeySets(rx: Engine, st: State, raw: string, key: string, x: string)
    requires Within(st) && !st.cur.value.quoteOpen && Spells(raw, key, x) && IsMemberKey(key)
    ensures Step(rx, st, raw) ==
            Ok(st.(cur := Some(SetField(st.cur.value, FieldOf(key), ScalarHead(Trim(x)).0, ScalarHead(Trim(x)).1))))
  {
    MemberLine(rx, st, key, x);
  }

  lemma KeyKeeps(rx: Engine, st: State, raw: string, key: string, x: string, g: Field)
    requires Within(st) && st.cur.value.last != Some(g)
    requires Spells(raw, key, x) && IsMemberKey(key) && FieldOf(key) != g
    ensures Step(rx, st, raw).Ok? && Kept(st, Step(rx, st, raw).value, g)
  {
    hide Step, Spells, ScalarHead, Trim;
    if st.cur.value.quoteOpen {
      KeySwallowed(rx, st, raw, key, x);
    } else {
      KeySets(rx, st, raw, key, x);
    }
  }

  /** The second line of a quoted text that ends in a line feed: under an open quote or refused. */
  lemma QuoteKeeps(rx: Engine, st: State, g: Field)
    requires Within(st) && st.cur.value.last != Some(g)
    ensures Step(rx, st, "'").Ok? ==> Kept(st, Step(rx, st, "'").value, g)
  {
    TrimOfTrimmed("'");
    assert "'"[0..1][0] == '\'';
    ContinueGrows(st, "'");
    assert !Contains("'", ":") by {
      assert forall i: nat :: At("'", ":", i) ==> i == 0;
    }
  }

  lemma FollowKeeps(rx: Engine, st: State, raw: string, g: Field)
    requires Within(st) && st.cur.value.last != Some(g) && Follows(raw, g)
    ensures Step(rx, st, raw).Ok? ==> Kept(st, Step(rx, st, raw).value, g)
  {
    if Hangs(raw) {
      HangGrows(rx, st, raw);
    } else if raw == "'" {
      QuoteKeeps(rx, st, g);
    } else {
      var key, x :| Spells(raw, key, x) && IsMemberKey(key) && FieldOf(key) != g;
      KeyKeeps(rx, st, raw, key, x, g);
    }
  }

  ghost predicate AllFollow(lines: seq<string>, g: Field) {
    forall i :: 0 <= i < |lines| ==> Follows(lines[i], g)
  }

  lemma {:induction false} FollowsKeep(rx: Engine, st: State, lines: seq<string>, g: Field)
    requires Within(st) && st.cur.value.last != Some(g) && AllFollow(lines, g)
    ensures Run(rx, st, lines).Ok? ==> Kept(st, Run(rx, st, lines).value, g)
    decreases |lines|
  {
    if lines != [] {
      FollowKeeps(rx, st, lines[0], g);
      match Step(rx, st, lines[0]) {
        case Err(_) =>
        case Ok(next) =>
          FollowsKeep(rx, next, lines[1..], g);
      }
    }
  }

  // ---- the written lines of a row -----------------------------------------------------------------

  /** A value that starts with white space; no plain value starts with a space. */
  predicate StartsWhite(v: string) {
    v != [] && IsWhite(v[0]) && v[0] != ' ' && '\n' !in v
  }

  /** What the writer's choice of a style guarantees. */
  predicate Chosen(style: Style, v: string) {
    Fits(style, v) || (style == PlainStyle && StartsWhite(v))
  }

  lemma LowerIgnoresCase(v: string, w: string)
    requires EqIgnoreCase(v, w) && Lower(w) == w
    ensures Lower(v) == w
  {
    forall i | 0 <= i < |v|
      ensures Lower(v)[i] == w[i]
    {
      assert LowerChar(v[i]) == LowerChar(w[i]);
      assert Lower(w)[i] == w[i];
    }
  }

  lemma NullScans(v: string)
    requires IsNull(v) && v != []
    ensures ScansAsNonString(v)
  {
    if v == "~" {
      assert Lower(v) == "~";
    } else {
      assert Lower("null") == "null";
      LowerIgnoresCase(v, "null");
    }
  }

  /** The writer's choice of style, for every text. */
  lemma StyleFits(letters: Letters, v: string)
    ensures Chosen(StyleBy(letters)(v), v)
  {
    if ScalarStyle(letters, v) == PlainStyle {
      if IsNull(v) {
        NullScans(v);
      }
      assert !IsControl(v[0]);
    }
  }

  predicate RowChosen(styler: Styler, b: Bucket) {
    && Chosen(styler(b.file), b.file)
    && Chosen(styler(b.rule), b.rule)
    && (b.message.Some? ==> Chosen(styler(b.message.value), b.message.value))
  }

  lemma RestFollows(style: Style, width: nat, v: string, g: Field)
    requires Chosen(style, v)
    ensures AllFollow(StripAll(FieldTexts(style, width, v).1), g)
  {
    match style
    case Literal => BlockHangs(BlockTexts(v));
    case PlainStyle => PiecesHang(Fold(v, width)[1..]);
    case Single =>
      if '\n' in v {
        SingleFeedFails(width, v);
        assert StripAll(["'"]) == ["'"];
      } else {
        SingleTrip(width, v);
      }
    case _ =>
  }

  lemma FollowAppend(a: seq<string>, b: seq<string>, g: Field)
    requires AllFollow(a, g) && AllFollow(b, g)
    ensures AllFollow(a + b, g)
  {
  }

  lemma FieldFollows(styler: Styler, key: string, v: string, g: Field)
    requires Chosen(styler(v), v) && IsMemberKey(key) && FieldOf(key) != g
    ensures AllFollow(StripAll(FieldLines(styler, MemberPrefix(key), v)), g)
  {
    var width := |MemberPrefix(key)|;
    var (first, rest) := FieldTexts(styler(v), width, v);
    RestFollows(styler(v), width, v, g);
    StripCons(MemberPrefix(key) + first, rest);
    ConcatAssoc("  " + (key + ":"), " ", first);
    assert Spells(StripCr(MemberPrefix(key) + first), key, first);
    FollowAppend([StripCr(MemberPrefix(key) + first)], StripAll(rest), g);
  }

  lemma MessageFollows(styler: Styler, message: Option<string>, g: Field)
    requires message.Some? ==> Chosen(styler(message.value), message.value)
    requires g != Message
    ensures AllFollow(StripAll(MessageLines(styler, message)), g)
  {
    Prefixes();
    if message.Some? {
      FieldFollows(styler, "message", message.value, g);
    }
  }

  lemma CountFollows(n: nat, g: Field)
    requires g != Count
    ensures AllFollow(StripAll([CountLine(n)]), g)
  {
    CountSpelling(n);
    StripOneLine(CountLine(n));
    assert Spells(StripCr(CountLine(n)), "count", Decimal(n));
  }

  /** What stands behind the rule. */
  function RowEnd(styler: Styler, b: Bucket): seq<string> {
    StripAll(MessageLines(styler, b.message)) + StripAll([CountLine(b.count)])
  }

  lemma BehindFollows(styler: Styler, b: Bucket, g: Field)
    requires RowChosen(styler, b) && g != Message && g != Count
    ensures AllFollow(RowEnd(styler, b), g)
  {
    MessageFollows(styler, b.message, g);
    CountFollows(b.count, g);
    FollowAppend(StripAll(MessageLines(styler, b.message)), StripAll([CountLine(b.count)]), g);
  }

  // ---- a baseline once lost stays lost --------------------------------------------------------------

  /** What has been read so far, the pending row included, is not the rows `good` and not more rows than them. */
  predicate Lost(rx: Engine, st: State, good: seq<Bucket>) {
    && Within(st) && |st.buckets| < |good|
    && match Flush(rx, st) case Err(_) => true case Ok(fl) => fl.buckets != good
  }

  predicate LostAfter(rx: Engine, end: Result<State, LoadError>, good: seq<Bucket>) {
    match end case Err(_) => true case Ok(st) => Lost(rx, st, good)
  }

  lemma LostByLength(rx: Engine, st: State, good: seq<Bucket>)
    requires Within(st) && |st.buckets| + 1 < |good|
    ensures Lost(rx, st, good)
  {
  }

  lemma AppendSame(front: seq<Bucket>, last: Bucket, before: seq<Bucket>, b: Bucket)
    ensures before + [b] == front + [last] <==> before == front && b == last
  {
    if before + [b] == front + [last] {
      assert before == (before + [b])[..|before|];
      assert front == (front + [last])[..|front|];
      assert b == (before + [b])[|before|];
      assert last == (front + [last])[|front|];
    }
  }

  lemma LostByPrefix(rx: Engine, st: State, good: seq<Bucket>, b: Bucket)
    requires Within(st) && |st.buckets| <= |good|
    requires st.buckets != good || IntoBucket(rx, st.cur.value) != Ok(b)
    ensures Lost(rx, st, good + [b])
  {
    match Flush(rx, st)
    case Err(_) =>
    case Ok(fl) => AppendSame(good, b, st.buckets, IntoBucket(rx, st.cur.value).value);
  }

  /** An item line under an open quote is swallowed. */
  lemma ItemSwallowed(rx: Engine, st: State, x: string)
    requires Within(st) && st.cur.value.quoteOpen
    ensures Step(rx, st, StripCr("- file: " + x)).Ok? && Grew(st, Step(rx, st, StripCr("- file: " + x)).value)
  {
    var raw := StripCr("- file: " + x);
    ItemShape(raw, x);
    assert Trim(raw)[0] == '-' && Trim(raw)[1] == ' ';
    ContinueGrows(st, Trim(raw));
  }

  /** The lines behind a row's first line. */
  function Members(styler: Styler, b: Bucket): seq<string> {
    StripAll(FieldTexts(styler(b.file), 8, b.file).1)
    + (StripAll(FieldLines(styler, "  rule: ", b.rule)) + RowEnd(styler, b))
  }

  function ItemValue(styler: Styler, b: Bucket): string {
    FieldTexts(styler(b.file), 8, b.file).0
  }

  lemma RowParts(styler: Styler, b: Bucket)
    ensures StripAll(RowLines(styler, b)) == [StripCr("- file: " + ItemValue(styler, b))] + Members(styler, b)
  {
    StripRow(styler, b);
    var first, rest := ItemValue(styler, b), StripAll(FieldTexts(styler(b.file), 8, b.file).1);
    StripCons("- file: " + first, FieldTexts(styler(b.file), 8, b.file).1);
    var rule := StripAll(FieldLines(styler, "  rule: ", b.rule));
    var message, count := StripAll(MessageLines(styler, b.message)), StripAll([CountLine(b.count)]);
    AppendAssoc([StripCr("- file: " + first)] + rest + rule, message, count);
    AppendAssoc([StripCr("- file: " + first)] + rest, rule, message + count);
    AppendAssoc([StripCr("- file: " + first)], rest, rule + (message + count));
  }

  /** Members never set a field of their own making. */
  lemma MembersFollow(styler: Styler, b: Bucket)
    requires RowChosen(styler, b)
    ensures AllFollow(Members(styler, b), Other)
  {
    RestFollows(styler(b.file), 8, b.file, Other);
    Prefixes();
    FieldFollows(styler, "rule", b.rule, Other);
    BehindFollows(styler, b, Other);
    FollowAppend(StripAll(FieldLines(styler, "  rule: ", b.rule)), RowEnd(styler, b), Other);
    FollowAppend(StripAll(FieldTexts(styler(b.file), 8, b.file).1),
                 StripAll(FieldLines(styler, "  rule: ", b.rule)) + RowEnd(styler, b), Other);
  }

  lemma RunRow(rx: Engine, st: State, styler: Styler, b: Bucket, next: Result<State, LoadError>)
    requires Step(rx, st, StripCr("- file: " + ItemValue(styler, b))) == next
    ensures Run(rx, st, StripAll(RowLines(styler, b))) == Then(rx, next, Members(styler, b))
  {
    RowParts(styler, b);
    RunCons(rx, st, StripCr("- file: " + ItemValue(styler, b)), Members(styler, b));
  }

  /** The lines behind a row's first line add no bucket. */
  lemma MembersKeep(rx: Engine, st: State, styler: Styler, b: Bucket)
    requires Within(st) && RowChosen(styler, b)
    ensures Run(rx, st, Members(styler, b)).Ok? ==>
              Within(Run(rx, st, Members(styler, b)).value) && Run(rx, st, Members(styler, b)).value.buckets == st.buckets
  {
    MembersFollow(styler, b);
    FollowsKeep(rx, st, Members(styler, b), Other);
  }

  /** One more row read behind rows that are lost. */
  lemma LostRow(rx: Engine, st: State, styler: Styler, good: seq<Bucket>, b: Bucket)
    requires Lost(rx, st, good) && RowChosen(styler, b)
    ensures LostAfter(rx, Run(rx, st, StripAll(RowLines(styler, b))), good + [b])
  {
    hide Step, Run, Members, RowLines, IntoBucket;
    var x := ItemValue(styler, b);
    var next := Step(rx, st, StripCr("- file: " + x));
    RunRow(rx, st, styler, b, next);
    if st.cur.value.quoteOpen {
      ItemSwallowed(rx, st, x);
    } else {
      ItemLine(rx, st, x);
    }
    match next
    case Err(_) =>
    case Ok(mid) =>
      MembersKeep(rx, mid, styler, b);
      match Run(rx, mid, Members(styler, b))
      case Err(_) =>
      case Ok(st') =>
        if st.cur.value.quoteOpen {
          LostByLength(rx, st', good + [b]);
        } else {
          LostByPrefix(rx, st', good, b);
        }
  }

  // ---- the row that is lost first ----------------------------------------------------------------------

  /** The row's `g` is not the bucket's. */
  predicate Wrong(r: Row, g: Field, b: Bucket) {
    match g
    case File => FieldText(r, File) != Some(b.file)
    case Rule => FieldText(r, Rule) != Some(b.rule)
    case Message => FieldText(r, Message) != b.message
    case Count => Count !in r.fields
    case Other => false
  }

  lemma WrongBucket(rx: Engine, r: Row, g: Field, b: Bucket)
    requires Wrong(r, g, b)
    ensures IntoBucket(rx, r) != Ok(b)
  {
    hide FieldText, ParsePositive;
  }

  lemma WrongKept(r: Row, r': Row, g: Field, b: Bucket)
    requires Wrong(r, g, b) && Slot(r', g) == Slot(r, g)
    ensures Wrong(r', g, b)
  {
  }

  /** Cut at its folds, such a value loses at least its first character. */
  lemma StartsShort(width: nat, v: string)
    requires StartsWhite(v)
    ensures var ps := Fold(v, width);
            |Trim(ps[0])| + |Spaced(ps[1..])| < |v| && !Trimmed(ps[0])
  {
    var ps := Fold(v, width);
    FoldJoins(v, width);
    assert ps[0][0] == v[0];
    TrimOfTrimmed(ps[0]);
  }

  lemma FirstTail(r: Row, f: Field, value: string)
    requires f !in r.fields
    ensures var (head, kind) := ScalarHead(value);
            var t := TailOf(SetField(r, f, head, kind), f);
            Hanging(t) && Weight(t) <= |value|
  {
    HeadShrinks(value);
  }

  /** Over its own lines such a value reads back as something shorter, if as anything. */
  lemma SpoiledField(rx: Engine, st: State, r: Row, f: Field, width: nat, v: string)
    requires StartsWhite(v) && Within(st) && f !in r.fields
    requires var (head, kind) := ScalarHead(Trim(Fold(v, width)[0])); st.cur == Some(SetField(r, f, head, kind))
    ensures var end := Run(rx, st, StripAll(Hang(Fold(v, width)[1..])));
            end.Ok? && Grew(st, end.value) && FieldText(end.value.cur.value, f) != Some(v)
  {
    var ps := Fold(v, width);
    StartsShort(width, v);
    FirstTail(r, f, Trim(ps[0]));
    PiecesHang(ps[1..]);
    HangsGrow(rx, st, StripAll(Hang(ps[1..])));
    var t := TailOf(st.cur.value, f);
    AbsorbsWeight(t, ps[1..]);
    DecodeWeight(Absorb(t, StripAll(Hang(ps[1..]))));
  }

  /** The bucket's value in the field `f` is `v`. */
  predicate Holds(b: Bucket, f: Field, v: string) {
    match f
    case File => b.file == v
    case Rule => b.rule == v
    case Message => b.message == Some(v)
    case _ => false
  }

  /** The bucket has a field of this key. */
  predicate Keyed(b: Bucket, key: string) {
    IsMemberKey(key) && (key == "message" ==> b.message.Some?)
  }

  /** The line behind: an open quote swallows it, and otherwise it settles the value before it. */
  lemma SpoiledNext(rx: Engine, st: State, f: Field, v: string, raw: string, key: string, x: string, b: Bucket)
    requires Within(st) && st.cur.value.last == Some(f) && FieldText(st.cur.value, f) != Some(v)
    requires Spells(raw, key, x) && Keyed(b, key) && FieldOf(key) !in st.cur.value.fields && FieldOf(key) != f
    requires Holds(b, f, v)
    ensures var next := Step(rx, st, raw);
            && next.Ok? && Within(next.value) && next.value.buckets == st.buckets
            && exists g :: g in {f, FieldOf(key)} && Wrong(next.value.cur.value, g, b) && next.value.cur.value.last != Some(g)
  {
    if st.cur.value.quoteOpen {
      KeySwallowed(rx, st, raw, key, x);
      assert Slot(st.cur.value, FieldOf(key)).None?;
      assert Wrong(Step(rx, st, raw).value.cur.value, FieldOf(key), b);
    } else {
      KeySets(rx, st, raw, key, x);
      assert Slot(Step(rx, st, raw).value.cur.value, f) == Slot(st.cur.value, f);
      assert Wrong(Step(rx, st, raw).value.cur.value, f, b);
    }
  }

  /** The row cannot become the bucket it was written from. */
  predicate Spoiled(rx: Engine, end: Result<State, LoadError>, buckets: seq<Bucket>, b: Bucket) {
    match end
    case Err(_) => true
    case Ok(st) => Within(st) && st.buckets == buckets && IntoBucket(rx, st.cur.value) != Ok(b)
  }

  lemma SpoiledEnd(rx: Engine, st: State, f: Field, v: string, raw: string, key: string, x: string, lines: seq<string>, b: Bucket)
    requires Within(st) && st.cur.value.last == Some(f) && FieldText(st.cur.value, f) != Some(v)
    requires Spells(raw, key, x) && Keyed(b, key) && FieldOf(key) !in st.cur.value.fields && FieldOf(key) != f
    requires Holds(b, f, v)
    requires AllFollow(lines, f) && AllFollow(lines, FieldOf(key))
    ensures Spoiled(rx, Run(rx, st, [raw] + lines), st.buckets, b)
  {
    hide Run, Step, Wrong, Holds, FieldText, IntoBucket;
    SpoiledNext(rx, st, f, v, raw, key, x, b);
    RunCons(rx, st, raw, lines);
    var next := Step(rx, st, raw).value;
    var g :| g in {f, FieldOf(key)} && Wrong(next.cur.value, g, b) && next.cur.value.last != Some(g);
    FollowsKeep(rx, next, lines, g);
    match Run(rx, next, lines)
    case Err(_) =>
    case Ok(end) =>
      WrongKept(next.cur.value, end.cur.value, g, b);
      WrongBucket(rx, end.cur.value, g, b);
  }

  /** From the first line of such a value to the end of its row. */
  lemma SpoiledRest(rx: Engine, st: State, r: Row, f: Field, width: nat, v: string, raw: string, key: string, x: string,
                    lines: seq<string>, b: Bucket)
    requires StartsWhite(v) && Within(st) && f !in r.fields && Holds(b, f, v)
    requires var (head, kind) := ScalarHead(Trim(Fold(v, width)[0])); st.cur == Some(SetField(r, f, head, kind))
    requires Spells(raw, key, x) && Keyed(b, key) && FieldOf(key) !in r.fields && FieldOf(key) != f
    requires AllFollow(lines, f) && AllFollow(lines, FieldOf(key))
    ensures Spoiled(rx, Run(rx, st, StripAll(Hang(Fold(v, width)[1..])) + ([raw] + lines)), st.buckets, b)
  {
    hide Run, Fold, FieldText, IntoBucket, Hang;
    SpoiledField(rx, st, r, f, width, v);
    var mine := StripAll(Hang(Fold(v, width)[1..]));
    RunAppend(rx, st, mine, [raw] + lines);
    var mid := Run(rx, st, mine).value;
    assert Slot(mid.cur.value, FieldOf(key)) == Slot(st.cur.value, FieldOf(key));
    SpoiledEnd(rx, mid, f, v, raw, key, x, lines, b);
  }

  lemma SpoiledMember(rx: Engine, st: State, styler: Styler, key0: string, v: string, raw: string, key: string, x: string,
                      lines: seq<string>, b: Bucket)
    requires Within(st) && !st.cur.value.quoteOpen && IsMemberKey(key0) && FieldOf(key0) !in st.cur.value.fields
    requires styler(v) == PlainStyle && StartsWhite(v) && Holds(b, FieldOf(key0), v)
    requires Spells(raw, key, x) && Keyed(b, key) && FieldOf(key) !in st.cur.value.fields && FieldOf(key) != FieldOf(key0)
    requires AllFollow(lines, FieldOf(key0)) && AllFollow(lines, FieldOf(key))
    ensures Spoiled(rx, Run(rx, st, StripAll(FieldLines(styler, MemberPrefix(key0), v)) + ([raw] + lines)), st.buckets, b)
  {
    hide Run, Step, Fold, Hang, IntoBucket, ScalarHead, Spoiled;
    var width, f := |MemberPrefix(key0)|, FieldOf(key0);
    var ps := Fold(v, width);
    var rest, own := StripAll(Hang(ps[1..])), StripCr(MemberPrefix(key0) + ps[0]);
    StripCons(MemberPrefix(key0) + ps[0], Hang(ps[1..]));
    ConcatAssoc("  " + (key0 + ":"), " ", ps[0]);
    AppendAssoc([own], rest, [raw] + lines);
    RunCons(rx, st, own, rest + ([raw] + lines));
    KeySets(rx, st, own, key0, ps[0]);
    var (head, kind) := ScalarHead(Trim(ps[0]));
    SpoiledRest(rx, st.(cur := Some(SetField(st.cur.value, f, head, kind))), st.cur.value, f, width, v, raw, key, x, lines, b);
  }

  /** The first line of a member field. */
  lemma MemberFirst(styler: Styler, key: string, v: string, below: seq<string>)
    returns (raw: string, x: string, lines: seq<string>)
    requires Chosen(styler(v), v)
    ensures StripAll(FieldLines(styler, MemberPrefix(key), v)) + below == [raw] + lines && Spells(raw, key, x)
    ensures lines == StripAll(FieldTexts(styler(v), |MemberPrefix(key)|, v).1) + below
  {
    var (first, rest) := FieldTexts(styler(v), |MemberPrefix(key)|, v);
    raw, x, lines := StripCr(MemberPrefix(key) + first), first, StripAll(rest) + below;
    StripCons(MemberPrefix(key) + first, rest);
    ConcatAssoc("  " + (key + ":"), " ", first);
    AppendAssoc([raw], StripAll(rest), below);
  }

  /** The first line behind the rule. */
  lemma RowEndFirst(styler: Styler, b: Bucket) returns (raw: string, key: string, x: string, lines: seq<string>)
    requires RowChosen(styler, b)
    ensures RowEnd(styler, b) == [raw] + lines && Spells(raw, key, x) && Keyed(b, key)
    ensures key == if b.message.Some? then "message" else "count"
    ensures AllFollow(lines, Rule) && AllFollow(lines, FieldOf(key))
  {
    var count := StripAll([CountLine(b.count)]);
    if b.message.Some? {
      var m := b.message.value;
      key := "message";
      Prefixes();
      raw, x, lines := MemberFirst(styler, key, m, count);
      forall g | g in {Rule, Message}
        ensures AllFollow(lines, g)
      {
        RestFollows(styler(m), |MemberPrefix(key)|, m, g);
        CountFollows(b.count, g);
        FollowAppend(StripAll(FieldTexts(styler(m), |MemberPrefix(key)|, m).1), count, g);
      }
    } else {
      CountSpelling(b.count);
      StripOneLine(CountLine(b.count));
      raw, key, x, lines := StripCr(CountLine(b.count)), "count", Decimal(b.count), [];
      assert StripAll(MessageLines(styler, b.message)) == [];
    }
  }

  /** Once its lines are read, the row cannot become the bucket it was written from. */
  ghost predicate SpoiledAfter(rx: Engine, st: State, styler: Styler, b: Bucket) {
    match Flush(rx, st)
    case Err(_) => Run(rx, st, StripAll(RowLines(styler, b))).Err?
    case Ok(fl) => Spoiled(rx, Run(rx, st, StripAll(RowLines(styler, b))), fl.buckets, b)
  }

  lemma SpoiledFile(rx: Engine, st: State, styler: Styler, b: Bucket)
    requires AtRow(st) && RowChosen(styler, b) && styler(b.file) == PlainStyle && StartsWhite(b.file)
    ensures SpoiledAfter(rx, st, styler, b)
  {
    hide Run, Step, Fold, Hang, IntoBucket, ScalarHead, Spoiled;
    var ps := Fold(b.file, 8);
    RunRow(rx, st, styler, b, Step(rx, st, StripCr("- file: " + ps[0])));
    ItemLine(rx, st, ps[0]);
    FlushKeeps(rx, st);
    match Flush(rx, st)
    case Err(_) =>
    case Ok(fl) =>
      var r := NewRow(|fl.buckets|);
      var (head, kind) := ScalarHead(Trim(ps[0]));
      Prefixes();
      var raw, x, lines := MemberFirst(styler, "rule", b.rule, RowEnd(styler, b));
      forall g | g in {File, Rule}
        ensures AllFollow(lines, g)
      {
        RestFollows(styler(b.rule), 8, b.rule, g);
        BehindFollows(styler, b, g);
        FollowAppend(StripAll(FieldTexts(styler(b.rule), 8, b.rule).1), RowEnd(styler, b), g);
      }
      SpoiledRest(rx, fl.(cur := Some(SetField(r, File, head, kind)), itemCol := 0, memberCol := 2), r, File, 8, b.file,
                  raw, "rule", x, lines, b);
  }

  /** The reader behind the row's file, the row before it flushed. */
  function FileRead(rx: Engine, st: State, styler: Styler, b: Bucket): Result<State, LoadError> {
    var fl :- Flush(rx, st);
    Ok(fl.(cur := Some(WithTail(NewRow(|fl.buckets|), File, ReadTail(styler(b.file), 8, b.file))), itemCol := 0, memberCol := 2))
  }

  /** A row's lines, cut behind the file. */
  lemma RunFileFirst(rx: Engine, st: State, styler: Styler, b: Bucket)
    requires AtRow(st) && Fits(styler(b.file), b.file)
    ensures Run(rx, st, StripAll(RowLines(styler, b))) ==
            Then(rx, FileRead(rx, st, styler, b), StripAll(FieldLines(styler, "  rule: ", b.rule)) + RowEnd(styler, b))
    ensures FileRead(rx, st, styler, b).Ok? ==>
              Within(FileRead(rx, st, styler, b).value) && !FileRead(rx, st, styler, b).value.cur.value.quoteOpen
  {
    var file, rule := StripAll(FieldLines(styler, "- file: ", b.file)), StripAll(FieldLines(styler, "  rule: ", b.rule));
    var message, count := StripAll(MessageLines(styler, b.message)), StripAll([CountLine(b.count)]);
    StripRow(styler, b);
    AppendAssoc(file + rule, message, count);
    AppendAssoc(file, rule, message + count);
    RunAppend(rx, st, file, rule + (message + count));
    FileRun(rx, st, styler, b.file);
    FlushKeeps(rx, st);
    ScalarTripIff(styler(b.file), 8, b.file);
  }

  lemma SpoiledRule(rx: Engine, st: State, styler: Styler, b: Bucket)
    requires AtRow(st) && RowChosen(styler, b) && Fits(styler(b.file), b.file)
    requires styler(b.rule) == PlainStyle && StartsWhite(b.rule)
    ensures SpoiledAfter(rx, st, styler, b)
  {
    hide Run, Step, ReadTail, IntoBucket, RowLines, FieldLines;
    RunFileFirst(rx, st, styler, b);
    match Flush(rx, st)
    case Err(_) =>
    case Ok(fl) =>
      var r := WithTail(NewRow(|fl.buckets|), File, ReadTail(styler(b.file), 8, b.file));
      var mid := fl.(cur := Some(r), itemCol := 0, memberCol := 2);
      var raw, key, x, lines := RowEndFirst(styler, b);
      Prefixes();
      SpoiledMember(rx, mid, styler, "rule", b.rule, raw, key, x, lines, b);
  }

  lemma SpoiledMessage(rx: Engine, st: State, styler: Styler, b: Bucket)
    requires AtRow(st) && RowChosen(styler, b) && Fits(styler(b.file), b.file) && Fits(styler(b.rule), b.rule)
    requires b.message.Some? && styler(b.message.value) == PlainStyle && StartsWhite(b.message.value)
    ensures SpoiledAfter(rx, st, styler, b)
  {
    hide Run, Step, ReadTail, IntoBucket, RowLines, FieldLines;
    RunFileFirst(rx, st, styler, b);
    match Flush(rx, st)
    case Err(_) =>
    case Ok(fl) =>
      var r := WithTail(NewRow(|fl.buckets|), File, ReadTail(styler(b.file), 8, b.file));
      var mid := fl.(cur := Some(r), itemCol := 0, memberCol := 2);
      RunAppend(rx, mid, StripAll(FieldLines(styler, "  rule: ", b.rule)), RowEnd(styler, b));
      RunRule(rx, mid, styler, b.rule);
      var next := mid.(cur := Some(WithTail(r, Rule, ReadTail(styler(b.rule), 8, b.rule))));
      var raw := StripCr(CountLine(b.count));
      Prefixes();
      CountSpelling(b.count);
      StripOneLine(CountLine(b.count));
      assert [raw] + [] == [raw];
      SpoiledMember(rx, next, styler, "message", b.message.value, raw, "count", Decimal(b.count), [], b);
  }

  /** The first row with such a value: from here on the baseline is lost. */
  lemma SpoiledRow(rx: Engine, st: State, styler: Styler, good: seq<Bucket>, b: Bucket)
    requires AtRow(st) && RowChosen(styler, b) && !RowFits(styler, b)
    requires Flush(rx, st).Ok? ==> |Flush(rx, st).value.buckets| <= |good|
    ensures LostAfter(rx, Run(rx, st, StripAll(RowLines(styler, b))), good + [b])
  {
    hide Run, RowLines, IntoBucket, Fits, StartsWhite;
    if !Fits(styler(b.file), b.file) {
      SpoiledFile(rx, st, styler, b);
    } else if !Fits(styler(b.rule), b.rule) {
      SpoiledRule(rx, st, styler, b);
    } else {
      SpoiledMessage(rx, st, styler, b);
    }
    match Run(rx, st, StripAll(RowLines(styler, b)))
    case Err(_) =>
    case Ok(st') => LostByPrefix(rx, st', good, b);
  }

  /** Such a value does not survive either. */
  lemma SpoiledDies(style: Style, width: nat, v: string)
    requires Chosen(style, v) && !Fits(style, v)
    ensures !ScalarSurvives(style, width, v)
  {
    StartsShort(width, v);
  }
}
