/** Which style each value is written in, told by what the value is and not by the order of the writer's tests. */
module Styles {
  import opened Text
  import opened Scalars
  import opened Writer

  // ---- what YAML 1.1 would not read as a string --------------------------------------------------

  predicate Digits(d: string) {
    forall i :: 0 <= i < |d| ==> '0' <= d[i] <= '9'
  }

  predicate ExponentOf(x: string, e: char, g: string, d: string) {
    (e == 'e' || e == 'E') && (g == "" || g == "+" || g == "-") && d != "" && Digits(d) && x == [e] + (g + d)
  }

  ghost predicate Exponent(x: string) {
    x == "" || exists e: char, g: string, d: string :: ExponentOf(x, e, g, d)
  }

  ghost predicate NumeralOf(s: string, a: string, b: string, x: string) {
    a != "" && Digits(a) && Digits(b) && Exponent(x) && (s == a + x || s == a + ("." + (b + x)))
  }

  /** Digits, then perhaps a point and perhaps digits, then perhaps an exponent. */
  ghost predicate Numeral(s: string) {
    exists a: string, b: string, x: string :: NumeralOf(s, a, b, x)
  }

  /** A non-empty run of these characters behind a zero and a base letter. */
  predicate Based(s: string, lower: char, upper: char, digits: string) {
    |s| > 2 && s[0] == '0' && (s[1] == lower || s[1] == upper) && forall i :: 2 <= i < |s| ==> s[i] in digits
  }

  predicate AnyCase(s: string, word: string) {
    |s| == |word| && forall i :: 0 <= i < |s| ==> s[i] == word[i] || s[i] as int + 32 == word[i] as int
  }

  predicate Keyword(s: string) {
    || AnyCase(s, "yes") || AnyCase(s, "no") || AnyCase(s, "true") || AnyCase(s, "false")
    || AnyCase(s, "on") || AnyCase(s, "off") || AnyCase(s, "null")
  }

  predicate Dated(s: string) {
    |s| > 4 && Digits(s[..4]) && s[4] == '-' && ByteLen(s) >= 8
  }

  /** Unquoted, the value would be a boolean, null, a number, a date or a symbol. */
  ghost predicate NoString(s: string) {
    || Keyword(s)
    || (s != "" && s[0] == ':')
    || (s != "" && '0' <= s[0] <= '9' && forall i :: 0 <= i < |s| ==> s[i] in "0123456789_")
    || Based(s, 'x', 'X', "0123456789abcdefABCDEF_")
    || Based(s, 'o', 'O', "01234567_")
    || Based(s, 'b', 'B', "01_")
    || Numeral(s)
    || Dated(s)
  }

  // ---- the scanners against the grammar ------------------------------------------------------------

  lemma {:induction false} AfterDigitsCut(s: string) returns (d: string)
    ensures Digits(d) && s == d + AfterDigits(s)
    ensures AfterDigits(s) == "" || !IsDigit(AfterDigits(s)[0])
  {
    if s != [] && IsDigit(s[0]) {
      var rest := AfterDigitsCut(s[1..]);
      d := [s[0]] + rest;
      ConcatAssoc([s[0]], rest, AfterDigits(s[1..]));
      assert s == [s[0]] + s[1..];
    } else {
      d := "";
      assert s == [] + s;
    }
  }

  lemma {:induction false} AfterDigitsOf(d: string, r: string)
    requires Digits(d) && (r == "" || !IsDigit(r[0]))
    ensures AfterDigits(d + r) == r
  {
    if d == [] {
      assert d + r == r;
    } else {
      assert (d + r)[1..] == d[1..] + r;
      AfterDigitsOf(d[1..], r);
    }
  }

  lemma NoDigitsLeft(d: string)
    requires Digits(d)
    ensures AfterDigits(d) == ""
  {
    AfterDigitsOf(d, "");
    assert d + "" == d;
  }

  lemma ExponentScans(x: string)
    requires IsExponent(x)
    ensures Exponent(x)
  {
    if x != "" {
      var d := AfterSign(x[1..]);
      var g := x[1..][..|x[1..]| - |d|];
      var all := AfterDigitsCut(d);
      assert all + "" == all;
      assert x == [x[0]] + (g + d);
      assert ExponentOf(x, x[0], g, d);
    }
  }

  lemma SignCut(g: string, d: string)
    requires (g == "" || g == "+" || g == "-") && d != "" && Digits(d)
    ensures AfterSign(g + d) == d
  {
    assert d[0] in d && IsDigit(d[0]);
    assert g == "" ==> g + d == d;
    assert g != "" ==> (g + d)[0] == g[0] && (g + d)[1..] == d;
  }

  lemma ExponentParses(x: string)
    requires Exponent(x)
    ensures IsExponent(x)
  {
    if x != "" {
      var e, g, d :| ExponentOf(x, e, g, d);
      assert x[1..] == g + d;
      SignCut(g, d);
      NoDigitsLeft(d);
    }
  }

  lemma ExponentIff(x: string)
    ensures IsExponent(x) <==> Exponent(x)
  {
    hide IsExponent, Exponent;
    if IsExponent(x) {
      ExponentScans(x);
    }
    if Exponent(x) {
      ExponentParses(x);
    }
  }

  lemma ExponentStarts(x: string)
    requires Exponent(x) && x != ""
    ensures x[0] == 'e' || x[0] == 'E'
  {
  }

  /** What starts with a digit parses as a float exactly when it is a numeral. */
  lemma NumeralIff(s: string)
    requires s != "" && IsDigit(s[0])
    ensures ParsesAsFloat(s) <==> Numeral(s)
  {
    hide IsExponent, Exponent;
    assert AfterSign(s) == s;
    assert Lower(s)[0] == s[0];
    var rest := AfterDigits(s);
    var a := AfterDigitsCut(s);
    assert a == "" ==> s == rest;
    if ParsesAsFloat(s) {
      if rest != "" && rest[0] == '.' {
        var x := AfterDigits(rest[1..]);
        var b := AfterDigitsCut(rest[1..]);
        ExponentIff(x);
        assert rest == "." + (b + x);
        assert NumeralOf(s, a, b, x);
      } else {
        ExponentIff(rest);
        assert NumeralOf(s, a, "", rest);
      }
    }
    if Numeral(s) {
      NumeralParses(s);
    }
  }

  lemma NumeralParses(s: string)
    requires s != "" && IsDigit(s[0]) && Numeral(s)
    ensures ParsesAsFloat(s)
  {
    hide IsExponent, Exponent;
    assert AfterSign(s) == s;
    assert Lower(s)[0] == s[0];
    var a, b, x :| NumeralOf(s, a, b, x);
    ExponentIff(x);
    if x != "" {
      ExponentStarts(x);
    }
    if s == a + x {
      AfterDigitsOf(a, x);
    } else {
      AfterDigitsOf(a, "." + (b + x));
      assert ("." + (b + x))[1..] == b + x;
      AfterDigitsOf(b, x);
    }
  }

  /** Nothing with a quote in it is a numeral. */
  lemma NumeralPlain(s: string)
    requires Numeral(s)
    ensures '"' !in s && '0' <= s[0] <= '9'
  {
    var a, b, x :| NumeralOf(s, a, b, x);
    assert a[0] in a;
    if x != "" {
      var e, g, d :| ExponentOf(x, e, g, d);
      assert '"' !in x;
    }
  }

  lemma LowerIs(s: string, word: string)
    requires forall i :: 0 <= i < |word| ==> 'a' <= word[i] <= 'z'
    ensures Lower(s) == word <==> AnyCase(s, word)
  {
    if AnyCase(s, word) {
      assert forall i :: 0 <= i < |s| ==> Lower(s)[i] == word[i];
    }
    if Lower(s) == word {
      assert forall i :: 0 <= i < |s| ==> LowerChar(s[i]) == word[i];
    }
  }

  lemma KeywordIff(s: string)
    ensures Keyword(s) <==> Lower(s) in {"yes", "no", "true", "false", "on", "off", "null"}
  {
    LowerIs(s, "yes");
    LowerIs(s, "no");
    LowerIs(s, "true");
    LowerIs(s, "false");
    LowerIs(s, "on");
    LowerIs(s, "off");
    LowerIs(s, "null");
  }

  /** What the writer counts as a word character at the front. */
  predicate WordStart(letters: Letters, s: string) {
    s != "" && if s[0] as int < 0x80 then '0' <= s[0] <= '9' || 'a' <= s[0] <= 'z' || 'A' <= s[0] <= 'Z' || s[0] == '_'
               else letters(s[0])
  }

  lemma QuoteStays(s: string)
    requires '"' in s
    ensures Lower(s) !in {"yes", "no", "true", "false", "on", "off", "null", "~", ".nan", ".inf", "-.inf", "+.inf"}
  {
    var i :| 0 <= i < |s| && s[i] == '"';
    assert Lower(s)[i] == '"';
  }

  lemma QuoteBehindSign(s: string)
    requires '"' in s
    ensures '"' in AfterSign(s)
  {
    var i :| 0 <= i < |s| && s[i] == '"';
    if AfterSign(s) != s {
      assert AfterSign(s)[i - 1] == '"';
    }
  }

  lemma ExponentPlain(x: string)
    requires IsExponent(x)
    ensures '"' !in x
  {
    ExponentScans(x);
    if x != "" {
      var e, g, d :| ExponentOf(x, e, g, d);
    }
  }

  lemma FloatPlain(s: string)
    requires '"' in s
    ensures !ParsesAsFloat(s)
  {
    hide IsExponent, Lower;
    var t := AfterSign(s);
    QuoteBehindSign(s);
    QuoteInSpecial(t);
    var a := AfterDigitsCut(t);
    var rest := AfterDigits(t);
    assert '"' in rest;
    if rest[0] == '.' {
      var b := AfterDigitsCut(rest[1..]);
      assert rest == ['.'] + rest[1..];
      assert '"' in AfterDigits(rest[1..]);
      if IsExponent(AfterDigits(rest[1..])) {
        ExponentPlain(AfterDigits(rest[1..]));
      }
    } else if IsExponent(rest) {
      ExponentPlain(rest);
    }
  }

  lemma QuoteInSpecial(t: string)
    requires '"' in t
    ensures Lower(t) != "inf" && Lower(t) != "infinity" && Lower(t) != "nan"
  {
    var i :| 0 <= i < |t| && t[i] == '"';
    assert Lower(t)[i] == '"';
  }

  /** A value with a quote in it is never taken for a number or a date, signed or not. */
  lemma QuotedNoNumber(s: string)
    requires '"' in s
    ensures !DigitsOrBars(AfterSign(s)) && !ParsesAsFloat(s) && !Numeral(s)
  {
    hide ParsesAsFloat, Numeral;
    QuoteBehindSign(s);
    var t := AfterSign(s);
    var i :| 0 <= i < |t| && t[i] == '"';
    FloatPlain(s);
    if Numeral(s) {
      NumeralPlain(s);
    }
  }

  predicate Radix(t: string) {
    || (StartsAny(t, "0x", "0X") && |t| > 2 && AllIn(t[2..], c => IsHex(c) || c == '_'))
    || (StartsAny(t, "0o", "0O") && |t| > 2 && AllIn(t[2..], c => '0' <= c <= '7' || c == '_'))
    || (StartsAny(t, "0b", "0B") && |t| > 2 && AllIn(t[2..], c => c == '0' || c == '1' || c == '_'))
  }

  lemma StartsTwo(t: string, c: char)
    ensures StartsWith(t, ['0', c]) <==> |t| >= 2 && t[0] == '0' && t[1] == c
  {
  }

  lemma BasedIff(t: string, lower: char, upper: char, digits: string, p: char -> bool)
    requires forall c :: p(c) <==> c in digits
    ensures Based(t, lower, upper, digits) <==> StartsAny(t, ['0', lower], ['0', upper]) && |t| > 2 && AllIn(t[2..], p)
  {
    StartsTwo(t, lower);
    StartsTwo(t, upper);
    if |t| > 2 && AllIn(t[2..], p) {
      forall i | 2 <= i < |t|
        ensures t[i] in digits
      {
        assert p(t[2..][i - 2]);
      }
    }
  }

  lemma RadixIff(t: string)
    ensures Radix(t) <==> Based(t, 'x', 'X', "0123456789abcdefABCDEF_") || Based(t, 'o', 'O', "01234567_") || Based(t, 'b', 'B', "01_")
  {
    hide Based, StartsAny, AllIn;
    BasedIff(t, 'x', 'X', "0123456789abcdefABCDEF_", c => IsHex(c) || c == '_');
    BasedIff(t, 'o', 'O', "01234567_", c => '0' <= c <= '7' || c == '_');
    BasedIff(t, 'b', 'B', "01_", c => c == '0' || c == '1' || c == '_');
  }

  lemma ScansByParts(s: string)
    requires s != ""
    ensures ScansAsNonString(s) <==>
            || Lower(s) in {"yes", "no", "true", "false", "on", "off", "null", "~", ".nan", ".inf", "-.inf", "+.inf"}
            || s[0] == ':'
            || DigitsOrBars(AfterSign(s))
            || Radix(AfterSign(s))
            || (|s| >= 2 && s[0] == '0' && AllIn(s, c => IsDigit(c)))
            || (ParsesAsFloat(s) && (IsDigit(s[0]) || s[0] == '.' || s[0] == '+' || s[0] == '-'))
            || Dated(s)
  {
    hide DigitsOrBars, ParsesAsFloat, StartsAny, AllIn, Lower, AfterSign, ByteLen;
    assert StartsWith(s, ":") <==> s[0] == ':' by {
      assert s[0..1] == [s[0]];
    }
    DatedIff(s);
  }

  lemma DatedIff(s: string)
    ensures Dated(s) <==> ByteLen(s) >= 8 && |s| >= 5 && s[4] == '-' && AllIn(s[..4], c => IsDigit(c))
  {
    hide ByteLen;
  }

  lemma RadixPlain(t: string)
    requires Radix(t)
    ensures '"' !in t
  {
    RadixIff(t);
  }

  /** With a quote in it, only a symbol or a date is taken for something other than a string. */
  lemma QuotedScans(s: string)
    requires '"' in s
    ensures ScansAsNonString(s) <==> NoString(s)
    ensures ScansAsNonString(s) <==> s[0] == ':' || Dated(s)
  {
    hide ParsesAsFloat, DigitsOrBars, Numeral, Radix, Lower, AfterSign, Dated, ScansAsNonString;
    ScansByParts(s);
    KeywordIff(s);
    QuoteStays(s);
    QuotedNoNumber(s);
    QuoteBehindSign(s);
    if Radix(AfterSign(s)) {
      RadixPlain(AfterSign(s));
    }
    RadixIff(s);
    if Radix(s) {
      RadixPlain(s);
    }
    var i :| 0 <= i < |s| && s[i] == '"';
    assert s[i] !in "0123456789_";
  }

  lemma WordUnsigned(letters: Letters, s: string)
    requires WordStart(letters, s)
    ensures AfterSign(s) == s
    ensures Lower(s) !in {"~", ".nan", ".inf", "-.inf", "+.inf"}
  {
    assert Lower(s)[0] == LowerChar(s[0]);
  }

  lemma RunIff(s: string)
    requires s != ""
    ensures DigitsOrBars(s) <==> '0' <= s[0] <= '9' && forall i :: 0 <= i < |s| ==> s[i] in "0123456789_"
    ensures AllIn(s, c => IsDigit(c)) ==> forall i :: 0 <= i < |s| ==> IsDigit(s[i])
  {
  }

  lemma WordScans(letters: Letters, s: string)
    requires WordStart(letters, s)
    ensures ScansAsNonString(s) <==> NoString(s)
  {
    hide ParsesAsFloat, DigitsOrBars, Numeral, Radix, Lower, AfterSign, Dated, ScansAsNonString, AllIn;
    ScansByParts(s);
    WordUnsigned(letters, s);
    KeywordIff(s);
    RadixIff(s);
    RunIff(s);
    if IsDigit(s[0]) {
      NumeralIff(s);
    } else if Numeral(s) {
      NumeralPlain(s);
    }
  }

  // ---- the style of a value --------------------------------------------------------------------------

  /** Unquoted, the value would not read as itself. */
  ghost predicate NeedsQuotes(s: string) {
    || s == ""
    || (exists i :: 0 < i < |s| && s[i - 1] == ':' && s[i] == ' ')
    || (exists i :: 0 < i < |s| && s[i - 1] == ' ' && s[i] == '#')
    || s[0] in "!&*?|>%@`\"'#,[]{} "
    || s[|s| - 1] == ' ' || s[|s| - 1] == ':'
    || NoString(s)
  }

  lemma PairIn(s: string, a: char, b: char)
    ensures Contains(s, [a, b]) <==> exists i :: 0 < i < |s| && s[i - 1] == a && s[i] == b
  {
    if Contains(s, [a, b]) {
      var i: nat :| i <= |s| && At(s, [a, b], i);
      assert s[i..i + 2][0] == s[i] && s[i..i + 2][1] == s[i + 1];
    }
    if i :| 0 < i < |s| && s[i - 1] == a && s[i] == b {
      assert At(s, [a, b], i - 1);
    }
  }

  lemma IndicatorIs(c: char)
    ensures c in INDICATORS <==> c in "!&*?|>%@`\"'#,[]{} "
  {
  }

  lemma NeedsIff(letters: Letters, s: string)
    requires s != "" ==> WordStart(letters, s) || '"' in s
    ensures NeedsSingleQuoting(s) <==> NeedsQuotes(s)
  {
    hide ScansAsNonString, NoString, Contains;
    PairIn(s, ':', ' ');
    PairIn(s, ' ', '#');
    if s != "" {
      IndicatorIs(s[0]);
      if '"' in s {
        QuotedScans(s);
      } else {
        WordScans(letters, s);
      }
    }
  }

  /** There is text behind the first line feed. */
  predicate ManyLines(s: string) {
    exists i :: 0 <= i < |s| - 1 && s[i] == '\n'
  }

  /** Neither a word character at the front nor a quote anywhere. */
  predicate OddStart(letters: Letters, s: string) {
    s != "" && !WordStart(letters, s) && '"' !in s
  }

  predicate Unprintable(s: string) {
    exists i :: 0 <= i < |s| && (s[i] as int < 32 || 127 <= s[i] as int <= 159)
  }

  lemma ManyIff(s: string)
    ensures LineEnd(s) + 1 < |s| <==> ManyLines(s)
  {
    forall i | 0 <= i < LineEnd(s)
      ensures s[i] != '\n'
    {
      assert s[i] in s[..LineEnd(s)];
    }
  }

  /** The style of every value. */
  lemma StyleIs(letters: Letters, s: string)
    ensures ScalarStyle(letters, s) ==
            if ManyLines(s) then Literal
            else if s == "<<" then TaggedSingle
            else if s in {"y", "Y", "n", "N"} || OddStart(letters, s) then Double
            else if NeedsQuotes(s) then Single
            else if Unprintable(s) then Double
            else PlainStyle
  {
    hide NeedsSingleQuoting, NeedsQuotes;
    ManyIff(s);
    if !OddStart(letters, s) {
      NeedsIff(letters, s);
    }
    assert Unprintable(s) <==> exists i :: 0 <= i < |s| && IsControl(s[i]);
  }

  /**
   A value is written plain exactly when it is one printable line, starts with a word character or holds a quote,
   and would read back as that string: nothing in it needs quotes and it is no boolean letter.
   */
  lemma PlainIff(letters: Letters, s: string)
    ensures ScalarStyle(letters, s) == PlainStyle <==>
            !Unprintable(s) && !OddStart(letters, s) && !NeedsQuotes(s) && s !in {"y", "Y", "n", "N"}
  {
    hide ScalarStyle, NeedsQuotes;
    StyleIs(letters, s);
    assert s == "<<" ==> OddStart(letters, s);
    if ManyLines(s) {
      var i :| 0 <= i < |s| - 1 && s[i] == '\n';
      assert Unprintable(s);
    }
  }
}
