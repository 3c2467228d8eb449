/** Reading the right-hand side of a Ruby constant out of source text. */
module ConstantText {
  import opened PyText

  predicate OpensBracket(c: char) {
    c == '(' || c == '[' || c == '{'
  }

  predicate ClosesBracket(c: char) {
    c == ')' || c == ']' || c == '}'
  }

  function Delta(c: char): int {
    if OpensBracket(c) then 1 else if ClosesBracket(c) then -1 else 0
  }

  /** The bracket depth behind `s`; closing brackets that nothing opened count below zero. */
  function Level(s: string): int {
    if s == [] then 0 else Level(s[..|s| - 1]) + Delta(s[|s| - 1])
  }

  /** A line feed at `i` ends the right-hand side: it stands outside any bracket. */
  predicate Breaks(s: string, i: nat) {
    i < |s| && s[i] == '\n' && Level(s[..i]) == 0
  }

  lemma LevelStep(s: string, i: nat)
    requires i < |s|
    ensures Level(s[..i + 1]) == Level(s[..i]) + Delta(s[i])
  {
    assert s[..i + 1][..i] == s[..i];
  }

  /** The right-hand side of `s` ends at `end`: the first line feed outside any bracket, or the end of the text. */
  ghost predicate EndsAt(s: string, end: nat) {
    end <= |s| && (end < |s| ==> Breaks(s, end)) && forall i: nat :: i < end ==> !Breaks(s, i)
  }

  /** The text behind `NAME = ` up to the end of its right-hand side, stripped. */
  method ConstantRhs(s: string) returns (rhs: string, end: nat)
    ensures EndsAt(s, end) && rhs == PyStrip(s[..end])
  {
    var depth, index := 0, 0;
    while index < |s|
      invariant 0 <= index <= |s|
      invariant depth == Level(s[..index])
      invariant forall i: nat :: i < index ==> !Breaks(s, i)
    {
      var c := s[index];
      LevelStep(s, index);
      if OpensBracket(c) {
        depth := depth + 1;
      } else if ClosesBracket(c) {
        depth := depth - 1;
      } else if c == '\n' && depth == 0 {
        break;
      }
      index := index + 1;
    }
    return PyStrip(s[..index]), index;
  }

  /** There is one end. */
  lemma EndsOnce(s: string, a: nat, b: nat)
    requires EndsAt(s, a) && EndsAt(s, b)
    ensures a == b
  {
  }

  /** Every line feed of `body` stands inside a bracket. */
  predicate FeedsInside(body: string) {
    forall i: nat :: i < |body| ==> !Breaks(body, i)
  }

  lemma BreaksWithin(body: string, rest: string, i: nat)
    requires i <= |body|
    ensures Breaks(body + ("\n" + rest), i) <==> if i < |body| then Breaks(body, i) else Level(body) == 0
  {
    var s := body + ("\n" + rest);
    assert s[..i] == body[..i];
    assert body[..|body|] == body;
  }

  /**
   * A right-hand side followed by a line feed is read whole exactly when its brackets close what they
   * open and every line feed of its own stands inside one, as in a union spread over several lines.
   */
  lemma ReadWholeIff(body: string, rest: string, end: nat)
    requires EndsAt(body + ("\n" + rest), end)
    ensures end == |body| <==> Level(body) == 0 && FeedsInside(body)
  {
    var s := body + ("\n" + rest);
    forall i: nat | i <= |body|
      ensures Breaks(s, i) <==> if i < |body| then Breaks(body, i) else Level(body) == 0
    {
      BreaksWithin(body, rest, i);
    }
    if Level(body) == 0 && FeedsInside(body) {
      EndsOnce(s, end, |body|);
    }
  }

  /** `inner` closes what it opens and never more than that. */
  ghost predicate Nested(inner: string) {
    Level(inner) == 0 && forall j: nat :: j <= |inner| ==> Level(inner[..j]) >= 0
  }

  lemma {:induction false} LevelConcat(a: string, b: string)
    ensures Level(a + b) == Level(a) + Level(b)
    decreases |b|
  {
    if b == [] {
      assert a + b == a;
    } else {
      assert (a + b)[..|a + b| - 1] == a + b[..|b| - 1];
      LevelConcat(a, b[..|b| - 1]);
    }
  }

  predicate Pair(o: char, c: char) {
    (o == '(' && c == ')') || (o == '[' && c == ']') || (o == '{' && c == '}')
  }

  lemma LevelInBrackets(o: char, c: char, inner: string, j: nat)
    requires Pair(o, c) && j <= |inner|
    ensures Level(([o] + inner + [c])[..j + 1]) == 1 + Level(inner[..j])
  {
    var body := [o] + inner + [c];
    assert body[..j + 1] == [o] + inner[..j];
    LevelConcat([o], inner[..j]);
    assert Level([o]) == 1 by { assert [o][..0] == ""; }
  }

  /** A right-hand side in brackets of any kind reads whole, over however many lines it is spread. */
  lemma BracketsReadWhole(o: char, c: char, inner: string, rest: string, end: nat)
    requires Pair(o, c) && Nested(inner) && EndsAt([o] + inner + [c] + ("\n" + rest), end)
    ensures end == |inner| + 2 && ([o] + inner + [c] + ("\n" + rest))[..end] == [o] + inner + [c]
  {
    var body := [o] + inner + [c];
    forall i: nat | i < |body|
      ensures !Breaks(body, i)
    {
      if 0 < i {
        LevelInBrackets(o, c, inner, i - 1);
        assert i - 1 <= |inner| && Level(inner[..i - 1]) >= 0;
      }
    }
    LevelInBrackets(o, c, inner, |inner|);
    LevelStep(body, |body| - 1);
    assert inner[..|inner|] == inner && body[..|body|] == body;
    ReadWholeIff(body, rest, end);
  }

  /** Text without brackets ends with its line. */
  lemma PlainEndsAtFeed(body: string, rest: string, end: nat)
    requires forall c :: c in body ==> c !in "()[]{}\n"
    requires EndsAt(body + ("\n" + rest), end)
    ensures end == |body|
  {
    FlatLevel(body);
    ReadWholeIff(body, rest, end);
  }

  lemma {:induction false} FlatLevel(body: string)
    requires forall c :: c in body ==> c !in "()[]{}\n"
    ensures Level(body) == 0 && FeedsInside(body)
  {
    if body != [] {
      FlatLevel(body[..|body| - 1]);
      assert body[|body| - 1] in body;
    }
    forall i: nat | i < |body|
      ensures !Breaks(body, i)
    {
      assert body[i] in body;
    }
  }
}
