/**
 The scalar codecs: single- and double-quoted YAML scalars in both directions, the
 split of a value into its scalar head and a comment, and block scalars.
 */
module Scalars {
  import opened Wrappers
  import opened Text

  datatype Chomp = Strip | Clip | Keep

  datatype ScalarKind = Plain | DoubleQuoted | SingleQuoted | Block(folded: bool, chomp: Chomp)

  // ---- closing quotes --------------------------------------------------------

  /** Offset of the first unescaped `"` in `s`; `|s|` or more when there is none. */
  function DqEnd(s: string): nat
    decreases |s|
  {
    if s == [] || s[0] == '"' then 0
    else if s[0] == '\\' then (if |s| == 1 then 2 else 2 + DqEnd(s[2..]))
    else 1 + DqEnd(s[1..])
  }

  /** Offset of the first `'` in `s` that is not one of a doubled pair; `|s|` when there is none. */
  function SqEnd(s: string): (r: nat)
    ensures r <= |s|
    decreases |s|
  {
    if s == [] then 0
    else if s[0] == '\'' then (if |s| > 1 && s[1] == '\'' then 2 + SqEnd(s[2..]) else 0)
    else 1 + SqEnd(s[1..])
  }

  function QuoteEnd(quote: char, s: string): nat {
    if quote == '\'' then SqEnd(s) else DqEnd(s)
  }

  predicate DqClosed(raw: string) {
    raw != [] && raw[0] == '"' && DqEnd(raw[1..]) < |raw| - 1
  }

  predicate SqClosed(raw: string) {
    raw != [] && raw[0] == '\'' && SqEnd(raw[1..]) < |raw| - 1
  }

  /** The scan for a double-quoted scalar's closing quote. */
  method ScanDqClosed(raw: string) returns (closed: bool)
    ensures closed == DqClosed(raw)
  {
    if raw == [] || raw[0] != '"' {
      return false;
    }
    var i := 1;
    while i < |raw|
      invariant 1 <= i <= |raw| + 1
      invariant i <= |raw| ==> DqEnd(raw[1..]) == i - 1 + DqEnd(raw[i..])
      invariant i > |raw| ==> DqEnd(raw[1..]) >= |raw| - 1
    {
      var rest := raw[i..];
      assert rest[1..] == raw[i + 1..];
      if raw[i] == '\\' {
        assert |rest| > 1 ==> rest[2..] == raw[i + 2..];
        i := i + 1;
      } else if raw[i] == '"' {
        return true;
      }
      i := i + 1;
    }
    return false;
  }

  /** The scan for a single-quoted scalar's closing quote. */
  method ScanSqClosed(raw: string) returns (closed: bool)
    ensures closed == SqClosed(raw)
  {
    if raw == [] || raw[0] != '\'' {
      return false;
    }
    var i := 1;
    while i < |raw|
      invariant 1 <= i <= |raw|
      invariant SqEnd(raw[1..]) == i - 1 + SqEnd(raw[i..])
    {
      var rest := raw[i..];
      assert rest[1..] == raw[i + 1..];
      if raw[i] == '\'' {
        if i + 1 < |raw| && raw[i + 1] == '\'' {
          assert rest[2..] == raw[i + 2..];
          i := i + 2;
          continue;
        }
        return true;
      }
      i := i + 1;
    }
    return false;
  }

  // ---- the head of a value -----------------------------------------------------

  /** Position of the first space or tab. */
  function FindBlank(s: string): (r: Option<nat>)
    ensures r.Some? ==> r.value < |s|
  {
    if s == [] then None
    else if s[0] == ' ' || s[0] == '\t' then Some(0)
    else
      match FindBlank(s[1..])
      case None => None
      case Some(i) => Some(i + 1)
  }

  /** The value behind an optional `!tag`. */
  function Untagged(value: string): string {
    if value == [] || value[0] != '!' then value
    else
      match FindBlank(value[1..])
      case Some(i) => TrimStart(value[1 + i..])
      case None => []
  }

  function KindOf(v: string): ScalarKind {
    if v == [] then Plain
    else if v[0] == '"' then DoubleQuoted
    else if v[0] == '\'' then SingleQuoted
    else if v[0] == '|' || v[0] == '>' then
      Block(v[0] == '>', if |v| > 1 && v[1] == '-' then Strip else if |v| > 1 && v[1] == '+' then Keep else Clip)
    else Plain
  }

  /** The quoted span at the front of `v`, or all of `v` while the quote is open. */
  function QuotedSpan(v: string): string
    requires v != []
  {
    var end := 1 + QuoteEnd(v[0], v[1..]);
    if end < |v| then v[..end + 1] else v
  }

  function PlainSpan(v: string): string {
    match Find(v, " #")
    case Some(i) => TrimEnd(v[..i])
    case None => TrimEnd(v)
  }

  /** A value's scalar, without its tag and trailing comment, and its kind. */
  function ScalarHead(value: string): (string, ScalarKind) {
    if value != [] && value[0] == '#' then ([], Plain)
    else
      var v := Untagged(value);
      match KindOf(v)
      case Plain => (PlainSpan(v), Plain)
      case DoubleQuoted => (QuotedSpan(v), DoubleQuoted)
      case SingleQuoted => (QuotedSpan(v), SingleQuoted)
      case Block(f, c) => (v, Block(f, c))
  }

  /** The scan for the quoted span. */
  method ScanQuotedSpan(v: string) returns (span: string)
    requires v != [] && (v[0] == '"' || v[0] == '\'')
    ensures span == QuotedSpan(v)
  {
    var quote := v[0];
    var end := 1;
    while end < |v|
      invariant 1 <= end <= |v| + 1
      invariant end <= |v| ==> QuoteEnd(quote, v[1..]) == end - 1 + QuoteEnd(quote, v[end..])
      invariant end > |v| ==> QuoteEnd(quote, v[1..]) >= |v| - 1
    {
      var rest := v[end..];
      assert rest[1..] == v[end + 1..];
      assert |rest| > 1 ==> rest[2..] == v[end + 2..];
      if v[end] == quote {
        if quote == '\'' && end + 1 < |v| && v[end + 1] == '\'' {
          end := end + 2;
          continue;
        }
        break;
      }
      if quote == '"' && v[end] == '\\' {
        end := end + 1;
      }
      end := end + 1;
    }
    span := if end < |v| then v[..end + 1] else v;
  }

  // ---- double quotes -----------------------------------------------------------

  const HEX := "0123456789ABCDEF"

  function HexPair(n: nat): string
    requires n < 256
  {
    [HEX[n / 16], HEX[n % 16]]
  }

  function EscapeDq(c: char): string {
    if c == '"' then "\\\""
    else if c == '\\' then "\\\\"
    else if c == '\n' then "\\n"
    else if c == '\t' then "\\t"
    else if c == '\r' then "\\r"
    else if IsControl(c) then "\\x" + HexPair(c as int)
    else [c]
  }

  function EscapeAll(s: string): string {
    if s == [] then [] else EscapeDq(s[0]) + EscapeAll(s[1..])
  }

  /** Write `s` as a double-quoted scalar. */
  method DoubleQuote(s: string) returns (out: string)
    ensures out == "\"" + EscapeAll(s) + "\""
  {
    hide EscapeDq;
    out := "\"";
    for i := 0 to |s|
      invariant out + EscapeAll(s[i..]) == "\"" + EscapeAll(s)
    {
      assert s[i..][1..] == s[i + 1..];
      out := out + EscapeDq(s[i]);
    }
    out := out + "\"";
  }

  predicate IsHex(c: char) {
    IsDigit(c) || 'a' <= c <= 'f' || 'A' <= c <= 'F'
  }

  function HexValue(c: char): (r: nat)
    requires IsHex(c)
    ensures r < 16
  {
    if IsDigit(c) then c as int - '0' as int
    else if 'a' <= c <= 'f' then c as int - 'a' as int + 10
    else c as int - 'A' as int + 10
  }

  function FromCodePoint(v: nat): char {
    if v < 0xD800 || 0xE000 <= v < 0x11_0000 then v as char else '\U{FFFD}'
  }

  /** Read `width` hex digits; also the text that is left. A bad digit is consumed and reads as U+FFFD. */
  function HexEscape(s: string, width: nat, v: nat): (r: (char, string))
    ensures |r.1| <= |s|
    decreases width
  {
    if width == 0 then (FromCodePoint(v), s)
    else if s == [] then ('\U{FFFD}', [])
    else if !IsHex(s[0]) then ('\U{FFFD}', s[1..])
    else HexEscape(s[1..], width - 1, v * 16 + HexValue(s[0]))
  }

  /** The one-character escapes. */
  function SimpleEscape(c: char): Option<char> {
    if c == '0' then Some('\0')
    else if c == 'a' then Some('\U{07}')
    else if c == 'b' then Some('\U{08}')
    else if c == 'n' then Some('\n')
    else if c == 't' || c == '\t' then Some('\t')
    else if c == 'v' then Some('\U{0b}')
    else if c == 'f' then Some('\U{0c}')
    else if c == 'r' then Some('\r')
    else if c == 'e' then Some('\U{1b}')
    else if c == '"' || c == '/' || c == '\\' || c == ' ' then Some(c)
    else if c == 'N' then Some('\U{85}')
    else if c == '_' then Some('\U{a0}')
    else if c == 'L' then Some('\U{2028}')
    else if c == 'P' then Some('\U{2029}')
    else None
  }

  function HexWidth(c: char): nat {
    if c == 'x' then 2 else if c == 'u' then 4 else if c == 'U' then 8 else 0
  }

  /** What the next character or escape of `s` decodes to, and the text behind it. */
  function DecodeStep(s: string): (r: (string, string))
    requires s != []
    ensures |r.1| < |s|
  {
    if s[0] != '\\' then ([s[0]], s[1..])
    else if |s| == 1 then ("\\", [])
    else if SimpleEscape(s[1]).Some? then ([SimpleEscape(s[1]).value], s[2..])
    else if HexWidth(s[1]) > 0 then
      var (c, rest) := HexEscape(s[2..], HexWidth(s[1]), 0);
      ([c], rest)
    else (['\\', s[1]], s[2..])
  }

  /** Decode the inside of a double-quoted scalar; an unknown escape keeps its backslash. */
  function UnescapeDq(s: string): string
    decreases |s|
  {
    if s == [] then [] else DecodeStep(s).0 + UnescapeDq(DecodeStep(s).1)
  }

  /** The decoding loop over the characters of a double-quoted scalar. */
  method UnescapeDouble(s: string) returns (out: string)
    ensures out == UnescapeDq(s)
  {
    out := [];
    var rest := s;
    while rest != []
      invariant out + UnescapeDq(rest) == UnescapeDq(s)
      decreases |rest|
    {
      var c, piece, left := rest[0], [rest[0]], rest[1..];
      if c == '\\' && left != [] {
        var d := rest[1];
        left := rest[2..];
        if SimpleEscape(d).Some? {
          piece := [SimpleEscape(d).value];
        } else if HexWidth(d) > 0 {
          var (h, tail) := HexEscape(left, HexWidth(d), 0);
          piece, left := [h], tail;
        } else {
          piece := ['\\', d];
        }
      }
      assert (piece, left) == DecodeStep(rest);
      ConcatAssoc(out, piece, UnescapeDq(left));
      out, rest := out + piece, left;
    }
  }

  lemma HexPairReads(n: nat, rest: string)
    requires n < 0xA0
    ensures HexEscape(HexPair(n) + rest, 2, 0) == (n as char, rest)
  {
    var a, b := HEX[n / 16], HEX[n % 16];
    var s := [a, b] + rest;
    assert HexValue(a) == n / 16 && HexValue(b) == n % 16;
    assert s[1..] == [b] + rest && s[1..][1..] == rest;
    assert HexEscape(s[1..], 1, n / 16) == HexEscape(rest, 0, n);
  }

  lemma DqEndPasses(a: char, b: char, rest: string)
    requires a != '"' && a != '\\' && b != '"' && b != '\\'
    ensures DqEnd([a, b] + rest) == 2 + DqEnd(rest)
  {
    var s := [a, b] + rest;
    assert s[1..] == [b] + rest && s[1..][1..] == rest;
  }

  lemma EscapedDecodes(c: char, rest: string)
    ensures DecodeStep(EscapeDq(c) + rest) == ([c], rest)
  {
    hide HexEscape;
    var e := EscapeDq(c);
    var s := e + rest;
    assert s[|e|..] == rest;
    if |e| == 4 {
      var n := c as int;
      assert s[2..] == HexPair(n) + rest;
      HexPairReads(n, rest);
    }
  }

  lemma EscapedPasses(c: char, rest: string)
    ensures DqEnd(EscapeDq(c) + rest) == |EscapeDq(c)| + DqEnd(rest)
  {
    var e := EscapeDq(c);
    var s := e + rest;
    assert s[|e|..] == rest;
    if |e| == 4 {
      var n := c as int;
      assert s[2..] == [HEX[n / 16], HEX[n % 16]] + rest;
      HexChars(n);
      DqEndPasses(HEX[n / 16], HEX[n % 16], rest);
    }
  }

  lemma HexChars(n: nat)
    requires n < 256
    ensures IsHex(HEX[n / 16]) && IsHex(HEX[n % 16])
  {
  }

  lemma EscapeDqReads(c: char, rest: string)
    ensures UnescapeDq(EscapeDq(c) + rest) == [c] + UnescapeDq(rest)
    ensures DqEnd(EscapeDq(c) + rest) == |EscapeDq(c)| + DqEnd(rest)
  {
    hide DecodeStep;
    EscapedDecodes(c, rest);
    EscapedPasses(c, rest);
  }

  /**
   Double-quoted scalars round-trip for every text: the closing quote is found
   where it was written, whatever follows it, and the inside decodes to the text.
   */
  lemma {:induction false} DoubleQuotedDecodes(s: string)
    ensures UnescapeDq(EscapeAll(s)) == s
  {
    if s != [] {
      DoubleQuotedDecodes(s[1..]);
      EscapeDqReads(s[0], EscapeAll(s[1..]));
    }
  }

  lemma {:induction false} DoubleQuotedCloses(s: string, rest: string)
    ensures DqEnd(EscapeAll(s) + (['"'] + rest)) == |EscapeAll(s)|
  {
    var tail := ['"'] + rest;
    if s == [] {
      assert EscapeAll(s) + tail == tail;
    } else {
      DoubleQuotedCloses(s[1..], rest);
      EscapeDqReads(s[0], EscapeAll(s[1..]) + tail);
      ConcatAssoc(EscapeDq(s[0]), EscapeAll(s[1..]), tail);
    }
  }

  // ---- single quotes -----------------------------------------------------------

  /** `replace('\'', "''")`. */
  function Doubled(s: string): string {
    if s == [] then [] else (if s[0] == '\'' then "''" else [s[0]]) + Doubled(s[1..])
  }

  /** `replace("''", "'")`: pairs are replaced from the left. */
  function Undoubled(s: string): string
    decreases |s|
  {
    if s == [] then []
    else if |s| > 1 && s[0] == '\'' && s[1] == '\'' then "'" + Undoubled(s[2..])
    else [s[0]] + Undoubled(s[1..])
  }

  lemma {:induction false} UndoubledDoubled(s: string)
    ensures Undoubled(Doubled(s)) == s
  {
    if s != [] {
      UndoubledDoubled(s[1..]);
      var d, tail := Doubled(s), Doubled(s[1..]);
      assert d[|d| - |tail|..] == tail;
      assert s == [s[0]] + s[1..];
    }
  }

  /** Doubled quotes are passed over, up to the end or to a quote that is not doubled. */
  lemma {:induction false} DoubledPasses(s: string, rest: string)
    requires rest == [] || (rest[0] == '\'' && (|rest| > 1 ==> rest[1] != '\''))
    ensures SqEnd(Doubled(s) + rest) == |Doubled(s)|
  {
    if s == [] {
      assert Doubled(s) + rest == rest;
    } else {
      DoubledPasses(s[1..], rest);
      var d, tail := Doubled(s), Doubled(s[1..]);
      assert (d + rest)[|d| - |tail|..] == tail + rest;
    }
  }

  lemma SingleQuotedReads(s: string, rest: string)
    requires rest == [] || rest[0] != '\''
    ensures Undoubled(Doubled(s)) == s
    ensures SqEnd(Doubled(s) + (['\''] + rest)) == |Doubled(s)|
    ensures SqEnd(Doubled(s)) == |Doubled(s)|
  {
    hide SqEnd, Doubled;
    UndoubledDoubled(s);
    DoubledPasses(s, ['\''] + rest);
    DoubledPasses(s, []);
    assert Doubled(s) + [] == Doubled(s);
  }

  // ---- reading any scalar ------------------------------------------------------

  /** Decode a scalar's source: strip a surrounding quote pair and unescape. */
  function UnyamlScalar(raw: string): string {
    var s := Trim(raw);
    if |s| >= 2 && s[0] == '\'' && s[|s| - 1] == '\'' then Undoubled(s[1..|s| - 1])
    else if |s| >= 2 && s[0] == '"' && s[|s| - 1] == '"' then UnescapeDq(s[1..|s| - 1])
    else s
  }

  function QuoteWith(quote: char, body: string): string {
    [quote] + body + [quote]
  }

  lemma QuotedHead(quote: char, body: string, rest: string)
    requires quote == '"' || quote == '\''
    requires QuoteEnd(quote, body + ([quote] + rest)) == |body|
    ensures ScalarHead(QuoteWith(quote, body) + rest) ==
            (QuoteWith(quote, body), if quote == '"' then DoubleQuoted else SingleQuoted)
  {
    var d := QuoteWith(quote, body);
    assert (d + rest)[1..] == body + ([quote] + rest);
    assert (d + rest)[..|d|] == d;
  }

  lemma QuotedBody(quote: char, body: string)
    requires quote == '"' || quote == '\''
    ensures Trim(QuoteWith(quote, body)) == QuoteWith(quote, body)
    ensures QuoteWith(quote, body)[1..|body| + 1] == body
    ensures QuoteWith(quote, body)[1..] == body + ([quote] + [])
  {
    TrimOfTrimmed(QuoteWith(quote, body));
  }

  /**
   A written double-quoted scalar, with any comment behind it, is split off exactly,
   is seen as closed, and decodes to the text it was written from.
   */
  lemma DoubleQuotedRoundTrip(s: string, rest: string)
    ensures ScalarHead(QuoteWith('"', EscapeAll(s)) + rest) == (QuoteWith('"', EscapeAll(s)), DoubleQuoted)
    ensures DqClosed(QuoteWith('"', EscapeAll(s)))
    ensures UnyamlScalar(QuoteWith('"', EscapeAll(s))) == s
  {
    DoubleQuotedDecodes(s);
    DoubleQuotedCloses(s, rest);
    DoubleQuotedCloses(s, []);
    QuotedHead('"', EscapeAll(s), rest);
    QuotedBody('"', EscapeAll(s));
  }

  /** The same for single quotes; the text behind must not be another quote. */
  lemma SingleQuotedRoundTrip(s: string, rest: string)
    requires rest == [] || rest[0] != '\''
    ensures ScalarHead(QuoteWith('\'', Doubled(s)) + rest) == (QuoteWith('\'', Doubled(s)), SingleQuoted)
    ensures SqClosed(QuoteWith('\'', Doubled(s)))
    ensures UnyamlScalar(QuoteWith('\'', Doubled(s))) == s
  {
    SingleQuotedReads(s, rest);
    SingleQuotedReads(s, []);
    QuotedHead('\'', Doubled(s), rest);
    QuotedBody('\'', Doubled(s));
  }

  // ---- block scalars -----------------------------------------------------------

  /** The lines of a block scalar joined, before chomping. */
  function BlockJoin(lines: seq<string>, folded: bool): string {
    if lines == [] then []
    else if |lines| == 1 then lines[0]
    else
      var n := |lines| - 1;
      BlockJoin(lines[..n], folded)
      + (if folded && lines[n] != [] && lines[n - 1] != [] then " " else "\n")
      + lines[n]
  }

  function StripFeeds(s: string): (r: string)
    ensures |r| <= |s|
  {
    if s != [] && s[|s| - 1] == '\n' then StripFeeds(s[..|s| - 1]) else s
  }

  function BlockValue(lines: seq<string>, folded: bool, chomp: Chomp): string {
    var joined := BlockJoin(lines, folded);
    match chomp
    case Strip => StripFeeds(joined)
    case Clip => StripFeeds(joined) + if lines == [] then [] else "\n"
    case Keep => joined + if lines == [] then [] else "\n"
  }
}
