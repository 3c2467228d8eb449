/** JSON strings and arrays of strings, as `json.dumps` writes and `json.loads` reads them. */
module Json {
  import opened Wrappers
  import opened Text
  import opened Scalars

  const LOWER_HEX := "0123456789abcdef"

  function EscapeChar(c: char): string {
    var n := c as int;
    if c == '"' then "\\\""
    else if c == '\\' then "\\\\"
    else if c == '\n' then "\\n"
    else if c == '\r' then "\\r"
    else if c == '\t' then "\\t"
    else if n == 8 then "\\b"
    else if n == 12 then "\\f"
    else if n < 0x20 then "\\u00" + [LOWER_HEX[n / 16], LOWER_HEX[n % 16]]
    else [c]
  }

  function EscapeText(s: string): string {
    if s == [] then [] else EscapeChar(s[0]) + EscapeText(s[1..])
  }

  /** `json.dumps(s, ensure_ascii=False)`. */
  function Dump(s: string): string {
    ['"'] + EscapeText(s) + ['"']
  }

  // ---- reading ---------------------------------------------------------------------------

  function FourHex(s: string): Option<nat>
    requires |s| >= 4
  {
    if forall i :: 0 <= i < 4 ==> IsHex(s[i]) then
      Some(((HexValue(s[0]) * 16 + HexValue(s[1])) * 16 + HexValue(s[2])) * 16 + HexValue(s[3]))
    else None
  }

  function PlainEscape(c: char): Option<char> {
    if c == '"' || c == '\\' || c == '/' then Some(c)
    else if c == 'b' then Some('\U{08}')
    else if c == 'f' then Some('\U{0c}')
    else if c == 'n' then Some('\n')
    else if c == 'r' then Some('\r')
    else if c == 't' then Some('\t')
    else None
  }

  predicate IsHighSurrogate(n: nat) {
    0xD800 <= n < 0xDC00
  }

  predicate IsLowSurrogate(n: nat) {
    0xDC00 <= n < 0xE000
  }

  /** One character of a string body, and the text behind it; unpaired surrogates are refused. */
  function ReadChar(s: string): (r: Option<(char, string)>)
    requires s != []
    ensures r.Some? ==> |r.value.1| < |s|
  {
    if s[0] != '\\' then (if s[0] as int < 0x20 then None else Some((s[0], s[1..])))
    else if |s| == 1 then None
    else if s[1] != 'u' then
      (match PlainEscape(s[1]) case None => None case Some(c) => Some((c, s[2..])))
    else if |s| < 6 then None
    else
      match FourHex(s[2..])
      case None => None
      case Some(n) =>
        if IsHighSurrogate(n) then
          if |s| < 12 || s[6] != '\\' || s[7] != 'u' then None
          else
            match FourHex(s[8..])
            case None => None
            case Some(m) =>
              if IsLowSurrogate(m) then Some(((0x1_0000 + (n - 0xD800) * 0x400 + (m - 0xDC00)) as char, s[12..]))
              else None
        else if IsLowSurrogate(n) then None
        else Some((n as char, s[6..]))
  }

  /** A string body up to its closing quote, and the text behind the quote. */
  function ReadBody(s: string): (r: Option<(string, string)>)
    ensures r.Some? ==> |r.value.1| < |s|
    decreases |s|
  {
    if s == [] then None
    else if s[0] == '"' then Some(([], s[1..]))
    else
      match ReadChar(s)
      case None => None
      case Some((c, rest)) =>
        match ReadBody(rest)
        case None => None
        case Some((t, rest')) => Some(([c] + t, rest'))
  }

  predicate IsBlank(c: char) {
    c == ' ' || c == '\t' || c == '\n' || c == '\r'
  }

  function SkipBlanks(s: string): (r: string)
    ensures |r| <= |s|
  {
    if s != [] && IsBlank(s[0]) then SkipBlanks(s[1..]) else s
  }

  function ReadString(s: string): (r: Option<(string, string)>)
    ensures r.Some? ==> |r.value.1| < |s|
  {
    if s == [] || s[0] != '"' then None else ReadBody(s[1..])
  }

  /** The members of an array up to its closing bracket, at least one. */
  function ReadMembers(s: string): (r: Option<(seq<string>, string)>)
    decreases |s|
  {
    match ReadString(s)
    case None => None
    case Some((x, rest)) =>
      var next := SkipBlanks(rest);
      if next != [] && next[0] == ']' then Some(([x], next[1..]))
      else if next != [] && next[0] == ',' then
        (match ReadMembers(SkipBlanks(next[1..]))
         case None => None
         case Some((xs, rest')) => Some(([x] + xs, rest')))
      else None
  }

  function ReadArray(s: string): Option<(seq<string>, string)> {
    if s == [] || s[0] != '[' then None
    else
      var inner := SkipBlanks(s[1..]);
      if inner != [] && inner[0] == ']' then Some(([], inner[1..])) else ReadMembers(inner)
  }

  /** A whole text that is one string. */
  function LoadString(s: string): Option<string> {
    match ReadString(SkipBlanks(s))
    case None => None
    case Some((x, rest)) => if SkipBlanks(rest) == [] then Some(x) else None
  }

  /** A whole text that is one array of strings. */
  function LoadArray(s: string): Option<seq<string>> {
    match ReadArray(SkipBlanks(s))
    case None => None
    case Some((xs, rest)) => if SkipBlanks(rest) == [] then Some(xs) else None
  }

  // ---- reading undoes writing --------------------------------------------------------------

  lemma HexReads(n: nat)
    requires n < 0x20
    ensures IsHex(LOWER_HEX[n / 16]) && IsHex(LOWER_HEX[n % 16])
    ensures HexValue(LOWER_HEX[n / 16]) == n / 16 && HexValue(LOWER_HEX[n % 16]) == n % 16
  {
  }

  lemma CharReads(c: char, rest: string)
    ensures ReadChar(EscapeChar(c) + rest) == Some((c, rest))
    ensures EscapeChar(c)[0] != '"'
  {
    var e := EscapeChar(c);
    if |e| == 6 {
      HexCharReads(c, rest);
    } else {
      assert (e + rest)[|e|..] == rest;
    }
  }

  lemma HexCharReads(c: char, rest: string)
    requires |EscapeChar(c)| == 6
    ensures ReadChar(EscapeChar(c) + rest) == Some((c, rest))
  {
    hide FourHex;
    var n := c as int;
    var s := EscapeChar(c) + rest;
    assert s[6..] == rest;
    HexReads(n);
    FourHexReads(n, s[2..]);
  }

  lemma FourHexReads(n: nat, h: string)
    requires n < 0x20 && |h| >= 4 && h[0] == '0' && h[1] == '0'
    requires h[2] == LOWER_HEX[n / 16] && h[3] == LOWER_HEX[n % 16]
    ensures FourHex(h) == Some(n)
  {
    HexReads(n);
  }

  lemma {:induction false} BodyReads(s: string, rest: string)
    ensures ReadBody(EscapeText(s) + (['"'] + rest)) == Some((s, rest))
  {
    var tail := ['"'] + rest;
    if s == [] {
      assert EscapeText(s) + tail == tail;
      assert tail[1..] == rest;
    } else {
      BodyReads(s[1..], rest);
      CharReads(s[0], EscapeText(s[1..]) + tail);
      ConcatAssoc(EscapeChar(s[0]), EscapeText(s[1..]), tail);
      assert s == [s[0]] + s[1..];
    }
  }

  lemma DumpReads(s: string, rest: string)
    ensures ReadString(Dump(s) + rest) == Some((s, rest))
  {
    BodyReads(s, rest);
    assert (Dump(s) + rest)[1..] == EscapeText(s) + (['"'] + rest);
  }

  /** JSON strings round-trip. */
  lemma LoadOfDump(s: string)
    ensures LoadString(Dump(s)) == Some(s)
  {
    DumpReads(s, []);
    assert Dump(s) + [] == Dump(s);
  }

  /** `", ".join` of the dumped members. */
  function JoinDumps(xs: seq<string>): string {
    if xs == [] then []
    else if |xs| == 1 then Dump(xs[0])
    else Dump(xs[0]) + (", " + JoinDumps(xs[1..]))
  }

  function DumpArray(xs: seq<string>): string {
    "[" + JoinDumps(xs) + "]"
  }

  lemma SeparatorSkips(more: string)
    requires more != [] && !IsBlank(more[0])
    ensures SkipBlanks(", " + more) == ", " + more
    ensures SkipBlanks((", " + more)[1..]) == more
  {
    var s := (", " + more)[1..];
    assert s[0] == ' ' && s[1..] == more;
  }

  lemma MemberThenRest(s: string, x: string, more: string, xs: seq<string>, rest: string)
    requires ReadString(s) == Some((x, ", " + more))
    requires more != [] && !IsBlank(more[0])
    requires ReadMembers(more) == Some((xs, rest))
    ensures ReadMembers(s) == Some(([x] + xs, rest))
  {
    SeparatorSkips(more);
  }

  lemma {:induction false} MembersRead(xs: seq<string>, rest: string)
    requires xs != []
    ensures ReadMembers(JoinDumps(xs) + ("]" + rest)) == Some((xs, rest))
    decreases |xs|
  {
    var tail := "]" + rest;
    assert tail[1..] == rest;
    if |xs| == 1 {
      DumpReads(xs[0], tail);
      assert xs == [xs[0]];
    } else {
      var more := JoinDumps(xs[1..]) + tail;
      MembersRead(xs[1..], rest);
      JoinStarts(xs[1..]);
      DumpReads(xs[0], ", " + more);
      ConcatAssoc(Dump(xs[0]), ", " + JoinDumps(xs[1..]), tail);
      ConcatAssoc(", ", JoinDumps(xs[1..]), tail);
      MemberThenRest(JoinDumps(xs) + tail, xs[0], more, xs[1..], rest);
      assert xs == [xs[0]] + xs[1..];
    }
  }

  lemma JoinStarts(xs: seq<string>)
    requires xs != []
    ensures JoinDumps(xs) != [] && JoinDumps(xs)[0] == '"'
  {
  }

  /** Arrays of strings round-trip. */
  lemma LoadOfDumpArray(xs: seq<string>)
    ensures LoadArray(DumpArray(xs)) == Some(xs)
  {
    hide Dump;
    var s := DumpArray(xs);
    assert s[1..] == JoinDumps(xs) + ("]" + []);
    if xs == [] {
      assert s[1..] == "]";
    } else {
      MembersRead(xs, []);
      JoinStarts(xs);
      assert s[1..][0] == '"';
    }
  }

  lemma EscapedFeeds(c: char)
    ensures '\n' !in EscapeChar(c)
  {
    var n := c as int;
    if n < 0x20 {
      assert LOWER_HEX[n / 16] != '\n' && LOWER_HEX[n % 16] != '\n';
    }
  }

  lemma {:induction false} EscapeFeeds(s: string)
    ensures '\n' !in EscapeText(s)
  {
    if s != [] {
      EscapeFeeds(s[1..]);
      EscapedFeeds(s[0]);
    }
  }

  lemma {:induction false} JoinFeeds(xs: seq<string>)
    ensures '\n' !in JoinDumps(xs)
  {
    if xs != [] {
      EscapeFeeds(xs[0]);
      JoinFeeds(xs[1..]);
    }
  }
}
