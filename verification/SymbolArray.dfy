/** Reading a Ruby `%i[…]` literal out of source text by counting brackets. */
module SymbolArray {
  import opened Wrappers
  import opened PyText

  // ---- nesting ---------------------------------------------------------------------------

  function Delta(c: char): int {
    if c == '[' then 1 else if c == ']' then -1 else 0
  }

  /** How many brackets `s` opens beyond those it closes. */
  function Nest(s: string): int {
    if s == [] then 0 else Nest(s[..|s| - 1]) + Delta(s[|s| - 1])
  }

  /** No prefix of `s` closes more than it has opened. */
  ghost predicate NeverBelow(s: string) {
    forall j :: 0 <= j <= |s| ==> Nest(s[..j]) >= 0
  }

  ghost predicate Balanced(s: string) {
    NeverBelow(s) && Nest(s) == 0
  }

  /** The bracket at `i` closes the literal whose text starts at the beginning of `s`. */
  ghost predicate Closes(s: string, i: nat) {
    i < |s| && s[i] == ']' && Balanced(s[..i])
  }

  lemma NestStep(s: string, i: nat)
    requires i < |s|
    ensures Nest(s[..i + 1]) == Nest(s[..i]) + Delta(s[i])
  {
    assert s[..i + 1][..i] == s[..i];
  }

  lemma PrefixNest(s: string, i: nat, j: nat)
    requires j <= i <= |s|
    ensures s[..i][..j] == s[..j]
  {
  }

  /** Behind the closing bracket nothing closes. */
  lemma NothingClosesLater(s: string, i: nat, j: nat)
    requires Closes(s, i) && i < j
    ensures !Closes(s, j)
  {
    if j < |s| {
      NestStep(s, i);
      PrefixNest(s, j, i + 1);
      assert Nest(s[..j][..i + 1]) == -1;
    }
  }

  /** At most one bracket closes a literal. */
  lemma ClosesOnce(s: string, i: nat, j: nat)
    requires Closes(s, i) && Closes(s, j)
    ensures i == j
  {
    if i < j {
      NothingClosesLater(s, i, j);
    } else if j < i {
      NothingClosesLater(s, j, i);
    }
  }

  // ---- the scan --------------------------------------------------------------------------

  /** The text behind `%i[`, read up to the bracket that closes the literal. */
  method ExtractSymbolArray(s: string) returns (r: Option<seq<string>>)
    ensures r.Some? <==> exists i: nat :: Closes(s, i)
    ensures forall i: nat :: Closes(s, i) ==> r == Some(Words(s[..i]))
  {
    var depth, index := 1, 0;
    while index < |s| && depth != 0
      invariant 0 <= index <= |s|
      invariant depth == 1 + Nest(s[..index])
      invariant depth == 0 ==> index > 0 && Closes(s, index - 1)
      invariant depth != 0 ==> NeverBelow(s[..index])
      invariant forall i: nat :: i < index && Closes(s, i) ==> depth == 0
    {
      NestStep(s, index);
      if s[index] == '[' {
        depth := depth + 1;
      } else if s[index] == ']' {
        depth := depth - 1;
      }
      NeverBelowStep(s, index);
      index := index + 1;
    }
    if depth != 0 {
      return None;
    }
    forall i: nat | Closes(s, i)
      ensures i == index - 1
    {
      ClosesOnce(s, i, index - 1);
    }
    return Some(Words(s[..index - 1]));
  }

  lemma NeverBelowStep(s: string, i: nat)
    requires i < |s| && NeverBelow(s[..i])
    ensures NeverBelow(s[..i + 1]) <==> Nest(s[..i + 1]) >= 0
  {
    var t := s[..i + 1];
    assert t[..i + 1] == t;
    forall j: nat | j <= i
      ensures Nest(t[..j]) >= 0
    {
      PrefixNest(s, i, j);
      PrefixNest(s, i + 1, j);
      assert Nest(s[..i][..j]) >= 0;
    }
  }

  // ---- what the scan reads ---------------------------------------------------------------

  /** Selectors set apart by white space, with one gap before each and one at the end. */
  function Spread(words: seq<string>, gaps: seq<string>): string
    requires |gaps| == |words| + 1
  {
    if words == [] then gaps[0] else gaps[0] + (words[0] + Spread(words[1..], gaps[1..]))
  }

  /** Gaps are white, and those between two words are not empty. */
  predicate Apart(words: seq<string>, gaps: seq<string>) {
    && |gaps| == |words| + 1
    && (forall i :: 0 <= i < |gaps| ==> PyBlank(gaps[i]))
    && (forall i :: 0 < i < |words| ==> gaps[i] != [])
  }

  ghost predicate Selectors(words: seq<string>) {
    forall i :: 0 <= i < |words| ==> Unbroken(words[i]) && Balanced(words[i])
  }

  lemma {:induction false} NestConcat(a: string, b: string)
    ensures Nest(a + b) == Nest(a) + Nest(b)
    decreases |b|
  {
    if b == [] {
      assert a + b == a;
    } else {
      assert (a + b)[..|a + b| - 1] == a + b[..|b| - 1];
      NestConcat(a, b[..|b| - 1]);
    }
  }

  lemma BalancedConcat(a: string, b: string)
    requires Balanced(a) && Balanced(b)
    ensures Balanced(a + b)
  {
    NestConcat(a, b);
    forall j | 0 <= j <= |a + b|
      ensures Nest((a + b)[..j]) >= 0
    {
      if j <= |a| {
        assert (a + b)[..j] == a[..j];
      } else {
        assert (a + b)[..j] == a + b[..j - |a|];
        NestConcat(a, b[..j - |a|]);
      }
    }
  }

  lemma {:induction false} FlatBalanced(s: string)
    requires '[' !in s && ']' !in s
    ensures Balanced(s)
    decreases |s|
  {
    if s != [] {
      var t := s[..|s| - 1];
      FlatBalanced(t);
      NestStep(s, |s| - 1);
      assert s[..|s|] == s;
      NeverBelowStep(s, |s| - 1);
    }
  }

  lemma BlankBalanced(s: string)
    requires PyBlank(s)
    ensures Balanced(s)
  {
    FlatBalanced(s);
  }

  lemma {:induction false} SpreadBalanced(words: seq<string>, gaps: seq<string>)
    requires Selectors(words) && Apart(words, gaps)
    ensures Balanced(Spread(words, gaps))
    decreases |words|
  {
    BlankBalanced(gaps[0]);
    if words != [] {
      SpreadBalanced(words[1..], gaps[1..]);
      BalancedConcat(words[0], Spread(words[1..], gaps[1..]));
      BalancedConcat(gaps[0], words[0] + Spread(words[1..], gaps[1..]));
    }
  }

  lemma {:induction false} SpreadWords(words: seq<string>, gaps: seq<string>)
    requires Selectors(words) && Apart(words, gaps)
    ensures Words(Spread(words, gaps)) == words
    decreases |words|
  {
    if words == [] {
      assert gaps[0] + [] == gaps[0];
      BlankThenWords(gaps[0], []);
    } else {
      var rest := Spread(words[1..], gaps[1..]);
      SpreadWords(words[1..], gaps[1..]);
      SpreadStarts(words[1..], gaps[1..]);
      WordThenWords(words[0], rest);
      BlankThenWords(gaps[0], words[0] + rest);
      assert words == [words[0]] + words[1..];
    }
  }

  lemma SpreadStarts(words: seq<string>, gaps: seq<string>)
    requires Apart(words, gaps)
    requires words != [] ==> gaps[0] != []
    ensures Spread(words, gaps) == [] || PyWhite(Spread(words, gaps)[0])
  {
  }

  /**
   * In the text of a literal, however it is laid out and whatever follows, the closing bracket is the
   * one behind the last gap, and the words before it are the selectors: `[]` and `[]=` among them.
   */
  lemma LiteralReads(words: seq<string>, gaps: seq<string>, rest: string)
    requires Selectors(words) && Apart(words, gaps)
    ensures var body := Spread(words, gaps);
      var s := body + ("]" + rest);
      Closes(s, |body|) && Words(s[..|body|]) == words
  {
    var body := Spread(words, gaps);
    var s := body + ("]" + rest);
    SpreadBalanced(words, gaps);
    assert s[..|body|] == body;
    SpreadWords(words, gaps);
  }

  /** A match up to the first `]` finds the same end exactly when no bracket opens inside. */
  lemma LazyMatchIff(s: string, i: nat)
    requires Closes(s, i)
    ensures ']' !in s[..i] <==> '[' !in s[..i]
  {
    var body := s[..i];
    if ']' in body {
      NestBound(body);
    }
    if '[' in body {
      NestBound(body);
    }
  }

  function Count(s: string, c: char): nat {
    if s == [] then 0 else Count(s[..|s| - 1], c) + if s[|s| - 1] == c then 1 else 0
  }

  lemma {:induction false} NestBound(s: string)
    ensures Nest(s) == Count(s, '[') - Count(s, ']')
    ensures forall c :: c in s <==> Count(s, c) > 0
    decreases |s|
  {
    if s != [] {
      NestBound(s[..|s| - 1]);
      assert s == s[..|s| - 1] + [s[|s| - 1]];
    }
  }
}
