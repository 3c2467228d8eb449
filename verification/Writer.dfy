/**
 The byte-exact YAML writer: the choice of scalar style, folding past column 80,
 and the document layout, as the sequence of lines it writes.
 */
module Writer {
  import opened Wrappers
  import opened Text
  import opened Scalars
  import opened Baseline

  /** The Unicode tables' answer for letters and digits outside ASCII. */
  type Letters = char -> bool

  datatype Style = PlainStyle | Single | Double | TaggedSingle | Literal

  // ---- the choice of style -----------------------------------------------------

  predicate IsAlphanumeric(letters: Letters, c: char) {
    if c as int < 0x80 then IsDigit(c) || 'a' <= c <= 'z' || 'A' <= c <= 'Z' else letters(c)
  }

  predicate AllIn(s: string, p: char -> bool) {
    forall i :: 0 <= i < |s| ==> p(s[i])
  }

  predicate StartsAny(s: string, a: string, b: string) {
    StartsWith(s, a) || StartsWith(s, b)
  }

  function AfterDigits(s: string): (r: string)
    ensures |r| <= |s|
  {
    if s != [] && IsDigit(s[0]) then AfterDigits(s[1..]) else s
  }

  function AfterSign(s: string): (r: string)
    ensures |r| <= |s|
  {
    if s != [] && (s[0] == '+' || s[0] == '-') then s[1..] else s
  }

  /** An optional exponent and nothing else. */
  predicate IsExponent(s: string) {
    s == [] || ((s[0] == 'e' || s[0] == 'E')
                && AfterSign(s[1..]) != [] && AfterDigits(AfterSign(s[1..])) == [])
  }

  /** The syntax that `str::parse::<f64>` accepts. */
  predicate ParsesAsFloat(s: string) {
    var t := AfterSign(s);
    if Lower(t) == "inf" || Lower(t) == "infinity" || Lower(t) == "nan" then true
    else
      var rest := AfterDigits(t);
      if rest != [] && rest[0] == '.' then
        var frac := AfterDigits(rest[1..]);
        (|rest| < |t| || |frac| < |rest| - 1) && IsExponent(frac)
      else |rest| < |t| && IsExponent(rest)
  }

  predicate DigitsOrBars(s: string) {
    s != [] && IsDigit(s[0]) && AllIn(s, c => IsDigit(c) || c == '_')
  }

  /** Would the plain form load as something other than a string? */
  predicate ScansAsNonString(s: string) {
    var lower := Lower(s);
    var t := AfterSign(s);
    || lower in {"yes", "no", "true", "false", "on", "off", "null", "~", ".nan", ".inf", "-.inf", "+.inf"}
    || StartsWith(s, ":")
    || DigitsOrBars(t)
    || (StartsAny(t, "0x", "0X") && |t| > 2 && AllIn(t[2..], c => IsHex(c) || c == '_'))
    || (StartsAny(t, "0o", "0O") && |t| > 2 && AllIn(t[2..], c => '0' <= c <= '7' || c == '_'))
    || (StartsAny(t, "0b", "0B") && |t| > 2 && AllIn(t[2..], c => c == '0' || c == '1' || c == '_'))
    || (|s| >= 2 && s[0] == '0' && AllIn(s, c => IsDigit(c)))
    || (ParsesAsFloat(s) && s != [] && (IsDigit(s[0]) || s[0] == '.' || s[0] == '+' || s[0] == '-'))
    || (ByteLen(s) >= 8 && |s| >= 5 && s[4] == '-' && AllIn(s[..4], c => IsDigit(c)))
  }

  const INDICATORS: set<char> :=
    {'!', '&', '*', '?', '|', '>', '%', '@', '`', '"', '\'', '#', ',', '[', ']', '{', '}', ' '}

  predicate NeedsSingleQuoting(s: string) {
    || s == []
    || Contains(s, ": ") || Contains(s, " #")
    || s[0] in INDICATORS
    || s[|s| - 1] == ' ' || s[|s| - 1] == ':'
    || ScansAsNonString(s)
  }

  function ScalarStyle(letters: Letters, s: string): Style {
    if LineEnd(s) + 1 < |s| then Literal
    else if s == "<<" then TaggedSingle
    else if s == "y" || s == "Y" || s == "n" || s == "N" then Double
    else if s != [] && !(IsAlphanumeric(letters, s[0]) || s[0] == '_' || '"' in s) then Double
    else if NeedsSingleQuoting(s) then Single
    else if exists i :: 0 <= i < |s| && IsControl(s[i]) then Double
    else PlainStyle
  }

  /** A choice of style for every value; `StyleBy` is the writer's. */
  type Styler = string -> Style

  function StyleBy(letters: Letters): Styler {
    s => ScalarStyle(letters, s)
  }

  // ---- the lines of one field ----------------------------------------------------

  const MARGIN := 80
  const HANG := 4

  /** The pieces between the breaks that folding puts into a plain scalar starting at column `col`. */
  function Fold(s: string, col: nat): (r: seq<string>)
    ensures |r| >= 1
    decreases |s|
  {
    if s == [] then [[]]
    else if s[0] == ' ' && col > MARGIN then [[]] + Fold(s[1..], HANG)
    else
      var r := Fold(s[1..], col + 1);
      [[s[0]] + r[0]] + r[1..]
  }

  /** Each text indented to the continuation column. */
  function Hang(texts: seq<string>): (r: seq<string>)
    ensures |r| == |texts| && forall i :: 0 <= i < |r| ==> r[i] == Spaces(HANG) + texts[i]
  {
    seq(|texts|, i requires 0 <= i < |texts| => Spaces(HANG) + texts[i])
  }

  /** The content lines of a literal block: the terminal line feed is not one more line. */
  function BlockTexts(s: string): seq<string> {
    var texts := Split(s, '\n');
    if texts[|texts| - 1] == [] then texts[..|texts| - 1] else texts
  }

  /** Content lines are indented; empty ones are left empty. */
  function BlockLines(texts: seq<string>): (r: seq<string>)
    ensures |r| == |texts|
    ensures forall i :: 0 <= i < |r| ==> r[i] == if texts[i] == [] then [] else Spaces(HANG) + texts[i]
  {
    seq(|texts|, i requires 0 <= i < |texts| => if texts[i] == [] then [] else Spaces(HANG) + texts[i])
  }

  function BlockHeader(s: string): string {
    if EndsWith(s, "\n\n") then "|+" else if EndsWith(s, "\n") then "|" else "|-"
  }

  /** What stands on a field's first line behind the key, and the lines that follow it. */
  function FieldTexts(style: Style, width: nat, value: string): (string, seq<string>) {
    match style
    case Literal => (BlockHeader(value), BlockLines(BlockTexts(value)))
    case TaggedSingle => ("!!str " + QuoteWith('\'', Doubled(value)), [])
    case Single =>
      var lines := Split(QuoteWith('\'', Doubled(value)), '\n');
      (lines[0], lines[1..])
    case Double => (QuoteWith('"', EscapeAll(value)), [])
    case PlainStyle =>
      var pieces := Fold(value, width);
      (pieces[0], Hang(pieces[1..]))
  }

  /** The lines of `prefix` followed by a scalar. */
  function FieldLines(style: Styler, prefix: string, value: string): seq<string> {
    var (first, rest) := FieldTexts(style(value), |prefix|, value);
    [prefix + first] + rest
  }

  // ---- pieces and lines ------------------------------------------------------------

  /** A first line, then hanging lines, as the text that the folding loop writes. */
  function HangText(pieces: seq<string>): string
    requires pieces != []
  {
    if |pieces| == 1 then pieces[0] + "\n" else pieces[0] + "\n" + Spaces(HANG) + HangText(pieces[1..])
  }

  lemma {:induction false} HangTextIsLines(prefix: string, pieces: seq<string>)
    requires pieces != []
    ensures Unlines([prefix + pieces[0]] + Hang(pieces[1..])) == prefix + HangText(pieces)
    decreases |pieces|
  {
    var rest := pieces[1..];
    UnlinesCons(prefix + pieces[0], Hang(rest));
    if |pieces| > 1 {
      HangTextIsLines(Spaces(HANG), rest);
      assert Hang(rest) == [Spaces(HANG) + rest[0]] + Hang(rest[1..]);
    }
  }

  lemma FoldStep(s: string, col: nat)
    requires s != []
    ensures HangText(Fold(s, col)) ==
            if s[0] == ' ' && col > MARGIN then "\n" + Spaces(HANG) + HangText(Fold(s[1..], HANG))
            else [s[0]] + HangText(Fold(s[1..], col + 1))
  {
    if s[0] == ' ' && col > MARGIN {
      var r := Fold(s[1..], HANG);
      assert ([[]] + r)[1..] == r;
    } else {
      var r := Fold(s[1..], col + 1);
      assert ([[s[0]] + r[0]] + r[1..])[1..] == r[1..];
    }
  }

  /** The folding loop: a space past the margin becomes a line break. */
  method PushPlain(out: string, prefix: string, value: string) returns (r: string)
    ensures r == out + (prefix + HangText(Fold(value, |prefix|)))
  {
    r := out + prefix;
    var col: nat := |prefix|;
    for i := 0 to |value|
      invariant r + HangText(Fold(value[i..], col)) == out + (prefix + HangText(Fold(value, |prefix|)))
    {
      var c := value[i];
      assert value[i..][1..] == value[i + 1..];
      FoldStep(value[i..], col);
      if c == ' ' && col > MARGIN {
        r := r + "\n" + Spaces(HANG);
        col := HANG;
      } else {
        r := r + [c];
        col := col + 1;
      }
    }
    r := r + "\n";
  }

  lemma PrefixSnoc(lines: seq<string>, i: nat)
    requires i < |lines|
    ensures lines[..i + 1] == lines[..i] + [lines[i]]
  {
  }

  /** The content lines of a literal block, one after the other. */
  method PushBlock(out: string, texts: seq<string>) returns (r: string)
    ensures r == out + Unlines(BlockLines(texts))
  {
    r := out;
    ghost var lines := BlockLines(texts);
    for i := 0 to |texts|
      invariant r == out + Unlines(lines[..i])
    {
      PrefixSnoc(lines, i);
      UnlinesSnoc(lines[..i], lines[i]);
      ConcatAssoc(out, Unlines(lines[..i]), lines[i] + "\n");
      ConcatAssoc(r, lines[i], "\n");
      if texts[i] == [] {
        r := r + "\n";
      } else {
        ConcatAssoc(r, Spaces(HANG), texts[i]);
        r := r + Spaces(HANG) + texts[i] + "\n";
      }
    }
    assert lines[..|texts|] == lines;
  }

  /** Write one `key: value` field. */
  method PushKv(style: Styler, out: string, prefix: string, value: string) returns (r: string)
    ensures r == out + Unlines(FieldLines(style, prefix, value))
  {
    ghost var (first, rest) := FieldTexts(style(value), |prefix|, value);
    UnlinesCons(prefix + first, rest);
    match style(value)
    case Literal =>
      r := PushBlock(out + (prefix + BlockHeader(value) + "\n"), BlockTexts(value));
    case TaggedSingle =>
      r := out + (prefix + ("!!str " + QuoteWith('\'', Doubled(value))) + "\n");
    case Single =>
      var quoted := QuoteWith('\'', Doubled(value));
      r := out + (prefix + (quoted + "\n"));
      SplitUnlines(quoted);
      assert Split(quoted, '\n') == [first] + rest;
      UnlinesCons(first, rest);
    case Double =>
      var quoted := DoubleQuote(value);
      r := out + (prefix + quoted + "\n");
    case PlainStyle =>
      r := PushPlain(out, prefix, value);
      HangTextIsLines(prefix, Fold(value, |prefix|));
  }

  // ---- the document ------------------------------------------------------------------

  function CountLine(n: nat): string {
    "  count: " + Decimal(n)
  }

  function MessageLines(style: Styler, message: Option<string>): seq<string> {
    match message
    case None => []
    case Some(m) => FieldLines(style, "  message: ", m)
  }

  function RowLines(style: Styler, b: Bucket): seq<string> {
    FieldLines(style, "- file: ", b.file)
    + FieldLines(style, "  rule: ", b.rule)
    + MessageLines(style, b.message)
    + [CountLine(b.count)]
  }

  function AllRowLines(style: Styler, rows: seq<Bucket>): seq<string> {
    if rows == [] then []
    else AllRowLines(style, rows[..|rows| - 1]) + RowLines(style, rows[|rows| - 1])
  }

  function DocumentLines(style: Styler, rows: seq<Bucket>): seq<string> {
    if rows == [] then ["---", "version: 1", "ignored: []"]
    else ["---", "version: 1", "ignored:"] + AllRowLines(style, rows)
  }

  method PushRow(style: Styler, out: string, b: Bucket) returns (r: string)
    ensures r == out + Unlines(RowLines(style, b))
  {
    r := PushKv(style, out, "- file: ", b.file);
    r := PushKv(style, r, "  rule: ", b.rule);
    if b.message.Some? {
      r := PushKv(style, r, "  message: ", b.message.value);
    }
    r := r + (CountLine(b.count) + "\n");
    FourParts(out, FieldLines(style, "- file: ", b.file), FieldLines(style, "  rule: ", b.rule),
              MessageLines(style, b.message), CountLine(b.count));
  }

  lemma FourParts(out: string, a: seq<string>, b: seq<string>, c: seq<string>, line: string)
    ensures c != [] ==> out + Unlines(a) + Unlines(b) + Unlines(c) + (line + "\n") == out + Unlines(a + b + c + [line])
    ensures c == [] ==> out + Unlines(a) + Unlines(b) + (line + "\n") == out + Unlines(a + b + c + [line])
  {
    UnlinesAppend(a, b);
    UnlinesAppend(a + b, c);
    UnlinesSnoc(a + b + c, line);
    FourTexts(out, Unlines(a), Unlines(b), Unlines(c), line + "\n");
  }

  lemma FourTexts(out: string, x: string, y: string, z: string, w: string)
    ensures out + x + y + z + w == out + (x + y + z + w)
    ensures z == [] ==> out + x + y + w == out + (x + y + z + w)
  {
  }

  lemma RowsStep(style: Styler, out: string, rows: seq<Bucket>, i: nat)
    requires i < |rows|
    ensures out + Unlines(AllRowLines(style, rows[..i])) + Unlines(RowLines(style, rows[i])) ==
            out + Unlines(AllRowLines(style, rows[..i + 1]))
  {
    assert rows[..i + 1][..i] == rows[..i];
    UnlinesAppend(AllRowLines(style, rows[..i]), RowLines(style, rows[i]));
    ConcatAssoc(out, Unlines(AllRowLines(style, rows[..i])), Unlines(RowLines(style, rows[i])));
  }

  method PushRows(style: Styler, out: string, rows: seq<Bucket>) returns (r: string)
    ensures r == out + Unlines(AllRowLines(style, rows))
  {
    r := out;
    for i := 0 to |rows|
      invariant r == out + Unlines(AllRowLines(style, rows[..i]))
    {
      RowsStep(style, out, rows, i);
      r := PushRow(style, r, rows[i]);
    }
    assert rows[..|rows|] == rows;
  }

  /** The document under a given choice of styles. */
  method PushDocument(style: Styler, rows: seq<Bucket>) returns (out: string)
    ensures out == Unlines(DocumentLines(style, rows))
  {
    out := "---\n" + "version: 1\n";
    HeadLiterals();
    if rows == [] {
      out := out + "ignored: []\n";
      UnlinesLiteral("---", "version: 1", "ignored: []");
    } else {
      out := out + "ignored:\n";
      UnlinesLiteral("---", "version: 1", "ignored:");
      UnlinesAppend(["---", "version: 1", "ignored:"], AllRowLines(style, rows));
      out := PushRows(style, out, rows);
    }
  }

  /** Serialize a baseline. */
  method ToYaml(letters: Letters, rows: seq<Bucket>) returns (out: string)
    ensures out == Unlines(DocumentLines(StyleBy(letters), rows))
  {
    out := PushDocument(StyleBy(letters), rows);
  }

  lemma HeadLiterals()
    ensures "---" + "\n" == "---\n" && "version: 1" + "\n" == "version: 1\n"
    ensures "ignored:" + "\n" == "ignored:\n" && "ignored: []" + "\n" == "ignored: []\n"
  {
  }

  lemma UnlinesLiteral(a: string, b: string, c: string)
    ensures Unlines([a, b, c]) == (a + "\n") + (b + "\n") + (c + "\n")
  {
    UnlinesSnoc([], a);
    UnlinesSnoc([a], b);
    UnlinesSnoc([a, b], c);
    assert [] + [a] == [a] && [a] + [b] == [a, b] && [a, b] + [c] == [a, b, c];
  }
}
