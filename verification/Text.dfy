/** Strings as sequences of Unicode scalar values: white space, trimming, searching and line splitting. */
module Text {
  import opened Wrappers

  /** The Unicode `White_Space` property. */
  predicate IsWhite(c: char) {
    var n := c as int;
    || 9 <= n <= 13
    || n == 0x20 || n == 0x85 || n == 0xA0 || n == 0x1680
    || 0x2000 <= n <= 0x200A
    || n == 0x2028 || n == 0x2029 || n == 0x202F || n == 0x205F || n == 0x3000
  }

  /** The Unicode general category `Cc`. */
  predicate IsControl(c: char) {
    var n := c as int;
    n < 0x20 || 0x7F <= n <= 0x9F
  }

  predicate IsDigit(c: char) {
    '0' <= c <= '9'
  }

  function LowerChar(c: char): char {
    if 'A' <= c <= 'Z' then (c as int + 32) as char else c
  }

  /** ASCII letters in lower case. */
  function Lower(s: string): (r: string)
    ensures |r| == |s| && forall i :: 0 <= i < |s| ==> r[i] == LowerChar(s[i])
  {
    seq(|s|, i requires 0 <= i < |s| => LowerChar(s[i]))
  }

  // ---- searching -----------------------------------------------------------

  /** `p` occurs in `s` at position `i`. */
  predicate At(s: string, p: string, i: nat) {
    i + |p| <= |s| && s[i..i + |p|] == p
  }

  predicate Contains(s: string, p: string) {
    exists i: nat :: i <= |s| && At(s, p, i)
  }

  predicate StartsWith(s: string, p: string) {
    At(s, p, 0)
  }

  predicate EndsWith(s: string, p: string) {
    |p| <= |s| && At(s, p, |s| - |p|)
  }

  lemma ContainsSelf(s: string)
    ensures Contains(s, s)
  {
    assert At(s, s, 0);
  }

  lemma ContainsTransitive(a: string, b: string, c: string)
    requires Contains(a, b) && Contains(b, c)
    ensures Contains(a, c)
  {
    var i: nat :| i <= |a| && At(a, b, i);
    var j: nat :| j <= |b| && At(b, c, j);
    forall x | 0 <= x < |c|
      ensures a[i + j + x] == c[x]
    {
      assert a[i..i + |b|][j + x] == b[j..j + |c|][x];
    }
    assert At(a, c, i + j);
  }

  lemma AtTail(s: string, p: string, j: nat)
    requires s != []
    ensures At(s[1..], p, j) <==> At(s, p, j + 1)
  {
    if j + 1 + |p| <= |s| {
      assert s[1..][j..j + |p|] == s[j + 1..j + 1 + |p|];
    }
  }

  lemma NotAtTail(s: string, p: string, n: nat)
    requires s != [] && !At(s, p, 0) && forall j: nat :: j < n ==> !At(s[1..], p, j)
    ensures forall j: nat :: j < n + 1 ==> !At(s, p, j)
  {
    forall j: nat | j < n + 1
      ensures !At(s, p, j)
    {
      if j > 0 {
        AtTail(s, p, j - 1);
      }
    }
  }

  /** The first position of `p` in `s`. */
  function Find(s: string, p: string): (r: Option<nat>)
    ensures r.Some? ==> At(s, p, r.value) && forall j: nat :: j < r.value ==> !At(s, p, j)
    ensures r.None? ==> !Contains(s, p)
  {
    if At(s, p, 0) then Some(0)
    else if s == [] then None
    else
      match Find(s[1..], p)
      case None =>
        NotAtTail(s, p, |s|);
        None
      case Some(i) =>
        AtTail(s, p, i);
        NotAtTail(s, p, i);
        Some(i + 1)
  }

  // ---- trimming ------------------------------------------------------------

  predicate AllWhite(s: string) {
    forall i :: 0 <= i < |s| ==> IsWhite(s[i])
  }

  /** The first position from `i` on that is not white space. */
  function LeadWhite(s: string, i: nat): (r: nat)
    requires i <= |s|
    ensures i <= r <= |s| && (r < |s| ==> !IsWhite(s[r]))
    ensures forall j :: i <= j < r ==> IsWhite(s[j])
    decreases |s| - i
  {
    if i < |s| && IsWhite(s[i]) then LeadWhite(s, i + 1) else i
  }

  /** The end of the last visible character before position `n`. */
  function TailWhite(s: string, n: nat): (r: nat)
    requires n <= |s|
    ensures r <= n && (r > 0 ==> !IsWhite(s[r - 1]))
    ensures forall j :: r <= j < n ==> IsWhite(s[j])
    decreases n
  {
    if n > 0 && IsWhite(s[n - 1]) then TailWhite(s, n - 1) else n
  }

  function TrimStart(s: string): string {
    s[LeadWhite(s, 0)..]
  }

  function TrimEnd(s: string): string {
    s[..TailWhite(s, |s|)]
  }

  function Trim(s: string): string {
    TrimEnd(TrimStart(s))
  }

  /** `s` neither starts nor ends with white space. */
  predicate Trimmed(s: string) {
    s == [] || (!IsWhite(s[0]) && !IsWhite(s[|s| - 1]))
  }

  lemma TrimStartSplit(w: string, s: string)
    requires AllWhite(w) && (s == [] || !IsWhite(s[0]))
    ensures TrimStart(w + s) == s
  {
    var r := LeadWhite(w + s, 0);
    assert r < |w + s| ==> !IsWhite((w + s)[r]);
    assert s != [] ==> (w + s)[|w|] == s[0];
    assert forall j :: 0 <= j < |w| ==> (w + s)[j] == w[j];
  }

  lemma TrimEndSplit(s: string, w: string)
    requires AllWhite(w) && (s == [] || !IsWhite(s[|s| - 1]))
    ensures TrimEnd(s + w) == s
  {
    var r := TailWhite(s + w, |s + w|);
    assert forall j :: |s| <= j < |s + w| ==> (s + w)[j] == w[j - |s|];
    assert s != [] ==> (s + w)[|s| - 1] == s[|s| - 1];
  }

  predicate Distinct<T(==)>(xs: seq<T>) {
    forall i, j :: 0 <= i < j < |xs| ==> xs[i] != xs[j]
  }

  lemma FrontLast<T>(s: seq<T>)
    requires s != []
    ensures s == s[..|s| - 1] + [s[|s| - 1]]
  {
  }

  lemma ConcatAssoc(a: string, b: string, c: string)
    ensures a + b + c == a + (b + c)
  {
  }

  lemma AppendAssoc(a: seq<string>, b: seq<string>, c: seq<string>)
    ensures a + b + c == a + (b + c)
  {
  }

  /** Where `Trim` puts its cuts. */
  lemma TrimCuts(s: string) returns (w: string, t: string, v: string)
    ensures s == w + t + v && AllWhite(w) && AllWhite(v) && Trim(s) == t && Trimmed(t)
    ensures TrimStart(s) == t + v
    ensures t == [] ==> v == []
  {
    var u := TrimStart(s);
    w, t, v := s[..LeadWhite(s, 0)], TrimEnd(u), u[TailWhite(u, |u|)..];
    ConcatAssoc(w, t, v);
    assert u == t + v;
  }

  lemma TrimOfTrimmed(s: string)
    ensures Trimmed(s) <==> Trim(s) == s
    ensures Trimmed(s) <==> |Trim(s)| == |s|
    ensures Trim(s) == [] <==> AllWhite(s)
    ensures |Trim(s)| <= |s|
    ensures Trimmed(Trim(s))
  {
    var w, t, v := TrimCuts(s);
    if |t| == |s| {
      assert w == [] && v == [] && s == t;
    }
    if t == [] {
      assert s == w;
    } else {
      assert s[|w|] == t[0];
    }
    if s != [] && Trimmed(s) {
      assert [] + s == s && s + [] == s;
      TrimStartSplit([], s);
      TrimEndSplit(s, []);
    }
  }

  /** Leading white space never matters to `Trim`. */
  lemma TrimPrefix(w: string, s: string)
    requires AllWhite(w)
    ensures TrimStart(w + s) == TrimStart(s) && Trim(w + s) == Trim(s)
  {
    var k := LeadWhite(s, 0);
    assert w + s == (w + s[..k]) + s[k..];
    TrimStartSplit(w + s[..k], s[k..]);
  }

  /** Text up to a visible character is not touched by trimming what follows it. */
  lemma TrimAfter(h: string, s: string)
    requires h != [] && !IsWhite(h[0]) && !IsWhite(h[|h| - 1])
    ensures TrimStart(h + s) == h + s
    ensures Trim(h + s) == h + TrimEnd(s)
  {
    assert [] + (h + s) == h + s;
    TrimStartSplit([], h + s);
    var k := TailWhite(s, |s|);
    assert h + s == (h + s[..k]) + s[k..];
    TrimEndSplit(h + s[..k], s[k..]);
  }

  /** Trimming on both sides can be done in either order. */
  lemma TrimOfTrimEnd(s: string)
    ensures TrimStart(TrimEnd(s)) == Trim(s)
  {
    var w, t, v := TrimCuts(s);
    if t == [] {
      assert s == [] + s;
      TrimOfTrimmed(s);
      TrimEndSplit([], s);
    } else {
      TrimEndSplit(w + t, v);
      TrimStartSplit(w, t);
    }
  }

  // ---- lines ---------------------------------------------------------------

  /** `line` without a carriage return at its end. */
  function StripCr(line: string): (r: string)
    ensures |r| <= |line|
  {
    if line != [] && line[|line| - 1] == '\r' then line[..|line| - 1] else line
  }

  /** The index of the first line feed, or the length. */
  function LineEnd(s: string): (r: nat)
    ensures r <= |s| && (r < |s| ==> s[r] == '\n') && '\n' !in s[..r]
  {
    if s == [] || s[0] == '\n' then 0
    else
      var r := LineEnd(s[1..]);
      assert s[..r + 1] == [s[0]] + s[1..][..r];
      r + 1
  }

  /** `str::lines`: a line ends at `\n` or `\r\n`; the last ending is optional. */
  function Lines(s: string): seq<string>
    decreases |s|
  {
    if s == [] then []
    else
      var n := LineEnd(s);
      if n == |s| then [s] else [StripCr(s[..n])] + Lines(s[n + 1..])
  }

  /** Every line followed by a line feed. */
  function Unlines(lines: seq<string>): string {
    if lines == [] then [] else lines[0] + "\n" + Unlines(lines[1..])
  }

  ghost predicate NoFeeds(lines: seq<string>) {
    forall i :: 0 <= i < |lines| ==> '\n' !in lines[i]
  }

  function StripAll(lines: seq<string>): (r: seq<string>)
    ensures |r| == |lines| && forall i :: 0 <= i < |lines| ==> r[i] == StripCr(lines[i])
  {
    seq(|lines|, i requires 0 <= i < |lines| => StripCr(lines[i]))
  }

  lemma {:induction false} LineEndOf(a: string, rest: string)
    requires '\n' !in a
    ensures LineEnd(a + "\n" + rest) == |a|
  {
    if a == [] {
      assert (a + "\n" + rest)[0] == '\n';
    } else {
      assert (a + "\n" + rest)[1..] == a[1..] + "\n" + rest;
      LineEndOf(a[1..], rest);
    }
  }

  lemma {:induction false} LinesOfUnlines(lines: seq<string>)
    requires NoFeeds(lines)
    ensures Lines(Unlines(lines)) == StripAll(lines)
  {
    if lines != [] {
      var s, rest, m := Unlines(lines), Unlines(lines[1..]), |lines[0]|;
      LineEndOf(lines[0], rest);
      assert s[..m] == lines[0] && s[m + 1..] == rest;
      LinesOfUnlines(lines[1..]);
      assert StripAll(lines) == [StripCr(lines[0])] + StripAll(lines[1..]);
    }
  }

  lemma {:induction false} UnlinesAppend(a: seq<string>, b: seq<string>)
    ensures Unlines(a + b) == Unlines(a) + Unlines(b)
  {
    if a == [] {
      assert a + b == b;
    } else {
      UnlinesAppend(a[1..], b);
      assert (a + b)[1..] == a[1..] + b;
    }
  }

  /** `str::split` on one character. */
  function Split(s: string, c: char): (r: seq<string>)
    ensures |r| >= 1
    decreases |s|
  {
    if s == [] then [[]]
    else if s[0] == c then [[]] + Split(s[1..], c)
    else
      var r := Split(s[1..], c);
      [[s[0]] + r[0]] + r[1..]
  }

  lemma UnlinesCons(line: string, rest: seq<string>)
    ensures Unlines([line] + rest) == line + ("\n" + Unlines(rest))
  {
    assert ([line] + rest)[1..] == rest;
  }

  lemma UnlinesSnoc(a: seq<string>, line: string)
    ensures Unlines(a + [line]) == Unlines(a) + (line + "\n")
  {
    UnlinesAppend(a, [line]);
    assert Unlines([line]) == line + "\n" + Unlines([]);
  }

  /** Splitting at line feeds and writing the pieces as lines adds one final line feed. */
  lemma {:induction false} SplitUnlines(s: string)
    ensures Unlines(Split(s, '\n')) == s + "\n"
  {
    if s != [] {
      SplitUnlines(s[1..]);
      var r := Split(s[1..], '\n');
      assert s == [s[0]] + s[1..];
      if s[0] == '\n' {
        UnlinesCons([], r);
      } else {
        UnlinesCons([s[0]] + r[0], r[1..]);
        assert r == [r[0]] + r[1..];
        UnlinesCons(r[0], r[1..]);
        var tail := "\n" + Unlines(r[1..]);
        ConcatAssoc([s[0]], r[0], tail);
        ConcatAssoc([s[0]], s[1..], "\n");
      }
    }
  }

  /** Lines written one by one split back into themselves, with one empty piece after the last. */
  lemma {:induction false} SplitOfUnlines(lines: seq<string>)
    requires NoFeeds(lines)
    ensures Split(Unlines(lines), '\n') == lines + [[]]
  {
    if lines != [] {
      var rest := Unlines(lines[1..]);
      SplitOfUnlines(lines[1..]);
      SplitAfter(lines[0], '\n', rest);
      ConcatAssoc(lines[0], "\n", rest);
      assert lines == [lines[0]] + lines[1..];
    }
  }

  lemma {:induction false} SplitAfter(a: string, c: char, rest: string)
    requires c !in a
    ensures Split(a + ([c] + rest), c) == [a] + Split(rest, c)
  {
    var s := a + ([c] + rest);
    if a == [] {
      assert s[0] == c && s[1..] == rest;
    } else {
      assert s[1..] == a[1..] + ([c] + rest);
      SplitAfter(a[1..], c, rest);
      assert a == [a[0]] + a[1..];
    }
  }

  /** The pieces with one separator between each two: `str.join` on a line feed. */
  function Join(lines: seq<string>): string {
    if lines == [] then []
    else if |lines| == 1 then lines[0]
    else lines[0] + ("\n" + Join(lines[1..]))
  }

  lemma {:induction false} SplitOfJoin(lines: seq<string>)
    requires NoFeeds(lines) && lines != []
    ensures Split(Join(lines), '\n') == lines
  {
    if |lines| == 1 {
      SplitFlat(lines[0], '\n');
    } else {
      SplitOfJoin(lines[1..]);
      SplitAfter(lines[0], '\n', Join(lines[1..]));
      assert lines == [lines[0]] + lines[1..];
    }
  }

  lemma {:induction false} SplitFlat(s: string, c: char)
    requires c !in s
    ensures Split(s, c) == [s]
  {
    if s != [] {
      SplitFlat(s[1..], c);
      assert s == [s[0]] + s[1..];
    }
  }

  lemma {:induction false} JoinOfSplit(s: string)
    ensures Join(Split(s, '\n')) == s
  {
    if s != [] {
      JoinOfSplit(s[1..]);
      var r := Split(s[1..], '\n');
      assert s == [s[0]] + s[1..];
      if s[0] == '\n' {
        assert ([[]] + r)[1..] == r;
      } else {
        var r' := [[s[0]] + r[0]] + r[1..];
        assert r'[1..] == r[1..];
        if |r| > 1 {
          ConcatAssoc([s[0]], r[0], "\n" + Join(r[1..]));
        }
      }
    }
  }

  lemma {:induction false} SplitFeeds(s: string)
    ensures NoFeeds(Split(s, '\n'))
  {
    if s != [] {
      SplitFeeds(s[1..]);
    }
  }

  // ---- UTF-8 offsets -------------------------------------------------------

  function Utf8Width(c: char): nat {
    var n := c as int;
    if n < 0x80 then 1 else if n < 0x800 then 2 else if n < 0x10000 then 3 else 4
  }

  function ByteLen(s: string): (r: nat)
    ensures r >= |s|
  {
    if s == [] then 0 else Utf8Width(s[0]) + ByteLen(s[1..])
  }

  /** `s.get(n..)` by byte offset; nothing when `n` is past the end or inside a character. */
  function DropBytes(s: string, n: nat): (r: string)
    ensures |r| <= |s|
  {
    if n == 0 then s
    else if s == [] || Utf8Width(s[0]) > n then []
    else DropBytes(s[1..], n - Utf8Width(s[0]))
  }

  function Spaces(n: nat): (r: string)
    ensures |r| == n && AllWhite(r) && forall i :: 0 <= i < n ==> r[i] == ' '
  {
    seq(n, _ => ' ')
  }

  /** The byte length of the leading white space. */
  function Indent(s: string): nat {
    ByteLen(s[..|s| - |TrimStart(s)|])
  }

  function Replicate(c: char, n: nat): (r: string)
    ensures |r| == n && forall i :: 0 <= i < n ==> r[i] == c
  {
    seq(n, _ => c)
  }

  /** Decimal digits. */
  function Decimal(n: nat): (r: string)
    ensures r != []
    decreases n
  {
    (if n < 10 then [] else Decimal(n / 10)) + ["0123456789"[n % 10]]
  }

  lemma DigitValue(k: nat)
    requires k < 10
    ensures IsDigit("0123456789"[k]) && "0123456789"[k] as int - '0' as int == k
  {
  }

  lemma SnocParts(front: string, last: char)
    ensures (front + [last])[..|front + [last]| - 1] == front && (front + [last])[|front + [last]| - 1] == last
  {
  }

  /** A number's last digit and the digits before it. */
  lemma DecimalParts(n: nat) returns (last: char)
    ensures IsDigit(last) && last as int - '0' as int == n % 10
    ensures Decimal(n)[|Decimal(n)| - 1] == last
    ensures Decimal(n)[..|Decimal(n)| - 1] == if n < 10 then [] else Decimal(n / 10)
    ensures Decimal(n) == (if n < 10 then [] else Decimal(n / 10)) + [last]
  {
    last := "0123456789"[n % 10];
    DigitValue(n % 10);
    SnocParts(if n < 10 then [] else Decimal(n / 10), last);
  }
}
