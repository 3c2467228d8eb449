/** `Regexp.escape` and the literal fragment of regular expressions that it writes. */
module RegexpEscape {
  import opened Wrappers
  import opened Text
  import opened Baseline

  const META: set<char> := {' ', '#', '$', '(', ')', '*', '+', '-', '.', '?', '[', '\\', ']', '^', '{', '|', '}'}

  function EscapeChar(c: char): string {
    if c == '\t' then "\\t"
    else if c == '\n' then "\\n"
    else if c == '\U{0b}' then "\\v"
    else if c == '\U{0c}' then "\\f"
    else if c == '\r' then "\\r"
    else if c in META then ['\\', c]
    else [c]
  }

  function Escape(s: string): string {
    if s == [] then [] else EscapeChar(s[0]) + Escape(s[1..])
  }

  /** The character-by-character escape. */
  method EscapeText(s: string) returns (out: string)
    ensures out == Escape(s)
  {
    out := [];
    for i := 0 to |s|
      invariant out + Escape(s[i..]) == Escape(s)
    {
      assert s[i..][1..] == s[i + 1..];
      out := out + EscapeChar(s[i]);
    }
  }

  /** The characters with a meaning of their own in a regular expression. */
  predicate Operator(c: char) {
    || c == '.' || c == '*' || c == '+' || c == '?' || c == '(' || c == ')' || c == '[' || c == ']'
    || c == '{' || c == '}' || c == '|' || c == '^' || c == '$' || c == '\\'
  }

  /** Behind a backslash ASCII letters and digits are classes, anchors or references; `<` and `>` are word boundaries. */
  predicate Quotable(c: char) {
    ' ' <= c <= '~' && !('a' <= c <= 'z') && !('A' <= c <= 'Z') && !IsDigit(c) && c != '<' && c != '>'
  }

  /** The control character that an escaped letter stands for. */
  function ControlOf(d: char): Option<char> {
    if d == 't' then Some('\t')
    else if d == 'n' then Some('\n')
    else if d == 'v' then Some('\U{0b}')
    else if d == 'f' then Some('\U{0c}')
    else if d == 'r' then Some('\r')
    else None
  }

  /**
   The text that a pattern made only of literals stands for: ordinary characters
   and escaped ones. Any other pattern has no literal reading.
   */
  function Literal(src: string): Option<string>
    decreases |src|
  {
    if src == [] then Some([])
    else if src[0] == '\\' then
      if |src| == 1 || !(ControlOf(src[1]).Some? || Quotable(src[1])) then None
      else
        match Literal(src[2..])
        case None => None
        case Some(rest) => Some([if ControlOf(src[1]).Some? then ControlOf(src[1]).value else src[1]] + rest)
    else if Operator(src[0]) then None
    else
      match Literal(src[1..])
      case None => None
      case Some(rest) => Some([src[0]] + rest)
  }

  /** One escaped character in front of escaped text. */
  lemma PieceReads(c: char, rest: string, tail: string)
    requires Literal(rest) == Some(tail)
    ensures Literal(EscapeChar(c) + rest) == Some([c] + tail)
  {
    var e := EscapeChar(c);
    assert (e + rest)[|e|..] == rest;
  }

  /** Escaping loses nothing: the escaped source reads back as the message. */
  lemma {:induction false} LiteralOfEscape(s: string)
    ensures Literal(Escape(s)) == Some(s)
  {
    if s != [] {
      LiteralOfEscape(s[1..]);
      PieceReads(s[0], Escape(s[1..]), s[1..]);
      assert s == [s[0]] + s[1..];
    }
  }

  /** The characters that Ruby quotes: besides the operators, white space and the signs of extended syntax and ranges. */
  predicate Quoted(c: char) {
    Operator(c) || c == ' ' || c == '#' || c == '-'
  }

  /** A pattern in Ruby's spelling: white space and quoted characters only behind a backslash, and nothing else behind one. */
  predicate RubySpelling(e: string)
    decreases |e|
  {
    if e == [] then true
    else if e[0] == '\\' then |e| > 1 && (ControlOf(e[1]).Some? || Quoted(e[1])) && RubySpelling(e[2..])
    else !Quoted(e[0]) && !('\t' <= e[0] <= '\r') && RubySpelling(e[1..])
  }

  lemma PieceSpelling(c: char, rest: string)
    requires RubySpelling(rest)
    ensures RubySpelling(EscapeChar(c) + rest)
  {
    var e := EscapeChar(c);
    assert (e + rest)[|e|..] == rest;
  }

  lemma {:induction false} EscapeSpelling(s: string)
    ensures RubySpelling(Escape(s))
  {
    if s != [] {
      EscapeSpelling(s[1..]);
      PieceSpelling(s[0], Escape(s[1..]));
    }
  }

  /** The table of escapes. */
  lemma EscapeTable(c: char)
    ensures EscapeChar(c) ==
            if c == '\t' then "\\t" else if c == '\n' then "\\n" else if c == '\U{0b}' then "\\v"
            else if c == '\U{0c}' then "\\f" else if c == '\r' then "\\r" else if Quoted(c) then ['\\', c] else [c]
  {
  }

  lemma QuotedChar(d: char)
    ensures ControlOf(d).Some? ==> EscapeChar(ControlOf(d).value) == ['\\', d]
    ensures ControlOf(d).None? && Quoted(d) ==> EscapeChar(d) == ['\\', d]
    ensures !Quoted(d) && !('\t' <= d <= '\r') ==> EscapeChar(d) == [d]
  {
    hide EscapeChar;
    EscapeTable(d);
    if ControlOf(d).Some? {
      EscapeTable(ControlOf(d).value);
    }
  }

  lemma FirstPiece(e: string, s: string)
    requires e != [] && RubySpelling(e) && Literal(e) == Some(s)
    ensures s != []
    ensures var n := |EscapeChar(s[0])|;
            n <= |e| && e[..n] == EscapeChar(s[0]) && RubySpelling(e[n..]) && Literal(e[n..]) == Some(s[1..])
  {
    hide EscapeChar, Quoted, Operator, Quotable;
    if e[0] == '\\' {
      QuotedChar(e[1]);
      var c := if ControlOf(e[1]).Some? then ControlOf(e[1]).value else e[1];
      assert e[..2] == ['\\', e[1]];
      assert s == [c] + Literal(e[2..]).value;
    } else {
      QuotedChar(e[0]);
      assert e[..1] == [e[0]];
      assert s == [e[0]] + Literal(e[1..]).value;
    }
  }

  /** The escape of a message is the one pattern in Ruby's spelling that stands for it. */
  lemma {:induction false} EscapeUnique(s: string, e: string)
    ensures RubySpelling(e) && Literal(e) == Some(s) <==> e == Escape(s)
    decreases |e|
  {
    EscapeSpelling(s);
    LiteralOfEscape(s);
    if RubySpelling(e) && Literal(e) == Some(s) && e != [] {
      FirstPiece(e, s);
      var n := |EscapeChar(s[0])|;
      EscapeUnique(s[1..], e[n..]);
      assert e == e[..n] + e[n..];
    }
  }

  /** Distinct messages never share a row. */
  lemma EscapeInjective(s: string, t: string)
    requires Escape(s) == Escape(t)
    ensures s == t
  {
    LiteralOfEscape(s);
    LiteralOfEscape(t);
  }

  /** The engine compiles literal patterns and finds them unanchored, anywhere in the text. */
  ghost predicate FaithfulOnLiterals(rx: Engine) {
    forall src, text :: Literal(src).Some? ==>
      rx.compiles(src) && (rx.matches(src, text) <==> Contains(text, Literal(src).value))
  }

  lemma EscapedPattern(rx: Engine, message: string, text: string)
    requires FaithfulOnLiterals(rx)
    ensures rx.compiles(Escape(message))
    ensures rx.matches(Escape(message), text) <==> Contains(text, message)
  {
    LiteralOfEscape(message);
    var hit := rx.matches(Escape(message), text);
  }
}
