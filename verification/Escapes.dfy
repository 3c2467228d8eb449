/** The escapes of a double-quoted scalar, code by code: how the writer spells them and what the reader takes them for. */
module Escapes {
  import opened Wrappers
  import opened Scalars

  /** The value of a hexadecimal digit. */
  function DigitOf(c: char): Option<nat> {
    if '0' <= c <= '9' then Some(c as int - 48)
    else if 'A' <= c <= 'F' then Some(c as int - 55)
    else if 'a' <= c <= 'f' then Some(c as int - 87)
    else None
  }

  predicate HexText(h: string) {
    forall i :: 0 <= i < |h| ==> DigitOf(h[i]).Some?
  }

  /** The number that hexadecimal digits stand for. */
  function HexNumber(h: string): nat
    requires HexText(h)
  {
    if h == [] then 0 else 16 * HexNumber(h[..|h| - 1]) + DigitOf(h[|h| - 1]).value
  }

  predicate UpperDigit(c: char) {
    '0' <= c <= '9' || 'A' <= c <= 'F'
  }

  // ---- writing ------------------------------------------------------------------------------------

  /**
   One character inside double quotes: quotes and backslashes behind a backslash, the three common controls as
   letters, every other control as two upper-case hexadecimal digits, anything else as it is.
   */
  lemma EscapeWritten(c: char)
    ensures var e, n := EscapeDq(c), c as int;
            && (n == 34 || n == 92 ==> e == ['\\', c])
            && (n == 9 ==> e == "\\t") && (n == 10 ==> e == "\\n") && (n == 13 ==> e == "\\r")
            && ((n < 32 && n != 9 && n != 10 && n != 13) || 127 <= n <= 159 ==>
                  |e| == 4 && e[..2] == "\\x" && UpperDigit(e[2]) && UpperDigit(e[3]) && HexNumber(e[2..]) == n)
            && (n >= 32 && n != 34 && n != 92 && !(127 <= n <= 159) ==> e == [c])
  {
    var n := c as int;
    if n < 32 || 127 <= n <= 159 {
      UpperDigits(n / 16);
      UpperDigits(n % 16);
      TwoDigits(HEX[n / 16], HEX[n % 16]);
    }
  }

  lemma UpperDigits(k: nat)
    requires k < 16
    ensures UpperDigit(HEX[k]) && DigitOf(HEX[k]) == Some(k)
  {
  }

  lemma TwoDigits(a: char, b: char)
    requires UpperDigit(a) && UpperDigit(b)
    ensures HexText([a, b]) && HexNumber([a, b]) == 16 * DigitOf(a).value + DigitOf(b).value
  {
    assert [a, b][..1] == [a] && [a][..0] == [];
    assert HexNumber([a]) == 16 * HexNumber([]) + DigitOf(a).value;
  }

  // ---- reading ------------------------------------------------------------------------------------

  lemma SameDigit(c: char)
    ensures IsHex(c) <==> DigitOf(c).Some?
    ensures IsHex(c) ==> HexValue(c) == DigitOf(c).value
  {
  }

  lemma {:induction false} DigitsTaken(h: string, rest: string, width: nat)
    requires HexText(h) && |h| <= width
    ensures HexEscape(h + rest, width, 0) == HexEscape(rest, width - |h|, HexNumber(h))
  {
    if h == [] {
      assert h + rest == rest;
    } else {
      var front, c := h[..|h| - 1], h[|h| - 1];
      DigitsTaken(front, [c] + rest, width);
      assert h + rest == front + ([c] + rest);
      SameDigit(c);
      assert ([c] + rest)[1..] == rest;
    }
  }

  /** A code point as a character; surrogates and numbers past the last code point read as U+FFFD. */
  predicate CodeIs(v: nat, c: char) {
    if v < 0xD800 || 0xDFFF < v <= 0x10FFFF then c as int == v else c as int == 0xFFFD
  }

  lemma HexStep(letter: char, width: nat, tail: string)
    requires (letter == 'x' && width == 2) || (letter == 'u' && width == 4) || (letter == 'U' && width == 8)
    ensures var (c, left) := HexEscape(tail, width, 0); UnescapeDq(['\\', letter] + tail) == [c] + UnescapeDq(left)
  {
    hide HexEscape;
    var s := ['\\', letter] + tail;
    assert s[2..] == tail;
  }

  /** `\x`, `\u` and `\U` take two, four and eight digits of either case. */
  lemma HexReads(letter: char, h: string, rest: string) returns (c: char)
    requires (letter == 'x' && |h| == 2) || (letter == 'u' && |h| == 4) || (letter == 'U' && |h| == 8)
    requires HexText(h)
    ensures UnescapeDq(['\\', letter] + (h + rest)) == [c] + UnescapeDq(rest) && CodeIs(HexNumber(h), c)
  {
    HexStep(letter, |h|, h + rest);
    DigitsTaken(h, rest, |h|);
    c := FromCodePoint(HexNumber(h));
  }

  /** A hexadecimal escape cut short reads as U+FFFD, and what cut it short is gone. */
  lemma ShortHexReads(letter: char, width: nat, h: string, bad: char, rest: string)
    requires (letter == 'x' && width == 2) || (letter == 'u' && width == 4) || (letter == 'U' && width == 8)
    requires HexText(h) && |h| < width && DigitOf(bad).None?
    ensures UnescapeDq(['\\', letter] + (h + ([bad] + rest))) == ['\U{FFFD}'] + UnescapeDq(rest)
    ensures UnescapeDq(['\\', letter] + (h + [])) == ['\U{FFFD}']
  {
    HexStep(letter, width, h + ([bad] + rest));
    DigitsTaken(h, [bad] + rest, width);
    SameDigit(bad);
    assert ([bad] + rest)[1..] == rest;
    HexStep(letter, width, h + []);
    DigitsTaken(h, [], width);
    assert UnescapeDq([]) == [];
  }

  /** The letters that stand for one character each. */
  const CODES: map<char, nat> :=
    map['0' := 0, 'a' := 7, 'b' := 8, 'n' := 10, 't' := 9, '\t' := 9, 'v' := 11, 'f' := 12, 'r' := 13, 'e' := 27,
        ' ' := 32, '"' := 34, '/' := 47, '\\' := 92, 'N' := 0x85, '_' := 0xA0, 'L' := 0x2028, 'P' := 0x2029]

  lemma SimpleStep(d: char, rest: string)
    ensures SimpleEscape(d).Some? ==> UnescapeDq(['\\', d] + rest) == [SimpleEscape(d).value] + UnescapeDq(rest)
    ensures SimpleEscape(d).None? && HexWidth(d) == 0 ==> UnescapeDq(['\\', d] + rest) == ['\\', d] + UnescapeDq(rest)
  {
    hide HexEscape, SimpleEscape;
    assert (['\\', d] + rest)[2..] == rest;
  }

  lemma LetterCode(d: char)
    ensures SimpleEscape(d).Some? <==> d in CODES
    ensures d in CODES ==> SimpleEscape(d).value as int == CODES[d]
  {
  }

  /** A letter behind a backslash reads as its character; any other escape keeps the backslash, and so does one at the end. */
  lemma LetterReads(d: char, rest: string) returns (c: char)
    requires d !in {'x', 'u', 'U'}
    ensures UnescapeDq(['\\', d] + rest) == (if d in CODES then [c] else ['\\', d]) + UnescapeDq(rest)
    ensures d in CODES ==> c as int == CODES[d]
    ensures UnescapeDq("\\") == "\\"
  {
    LetterCode(d);
    SimpleStep(d, rest);
    c := if d in CODES then SimpleEscape(d).value else d;
    assert UnescapeDq([]) == [];
  }
}
