/**
 What the reader makes of one written scalar, for every style, and exactly when
 that is the value that was written.
 */
module ScalarTrip {
  import opened Wrappers
  import opened Text
  import opened Scalars
  import opened Writer
  import opened Reader
  import opened FieldTrip

  /** The reader's state of a field after its written lines. */
  function ReadTail(style: Style, width: nat, value: string): Tail {
    var (first, rest) := FieldTexts(style, width, value);
    var (head, kind) := ScalarHead(Trim(first));
    Absorb(HeadTail(head, kind), StripAll(rest))
  }

  /** The text that a written field reads back as. */
  function ReadBack(style: Style, width: nat, value: string): Option<string> {
    NonNull(ReadTail(style, width, value).fv)
  }

  lemma ReadTailIs(style: Style, width: nat, value: string, first: string, rest: seq<string>, head: string, kind: ScalarKind)
    requires FieldTexts(style, width, value) == (first, rest) && ScalarHead(Trim(first)) == (head, kind)
    ensures ReadTail(style, width, value) == Absorb(HeadTail(head, kind), StripAll(rest))
  {
  }

  // ---- double quotes ------------------------------------------------------------------

  lemma AbsorbNone(t: Tail)
    ensures Absorb(t, StripAll([])) == t
  {
  }

  /** A double-quoted scalar reads back, whatever it holds. */
  lemma DoubleTrip(width: nat, v: string)
    ensures ReadBack(Double, width, v) == Some(v) && !ReadTail(Double, width, v).open
    ensures ScalarHead(Trim(FieldTexts(Double, width, v).0)).0 != []
  {
    var q := QuoteWith('"', EscapeAll(v));
    QuotedBody('"', EscapeAll(v));
    DoubleQuotedRoundTrip(v, []);
    assert q + [] == q;
    AbsorbNone(HeadTail(q, DoubleQuoted));
  }

  // ---- single quotes ------------------------------------------------------------------

  lemma {:induction false} DoubledKeeps(s: string, c: char)
    requires c != '\''
    ensures c in Doubled(s) <==> c in s
  {
    if s != [] {
      DoubledKeeps(s[1..], c);
      assert s == [s[0]] + s[1..];
    }
  }

  lemma SingleHeadTail(v: string)
    ensures var q := QuoteWith('\'', Doubled(v));
            && ScalarHead(q) == (q, SingleQuoted)
            && Trim(q) == q
            && NonNull(HeadTail(q, SingleQuoted).fv) == Some(v)
            && !HeadTail(q, SingleQuoted).open
  {
    var q := QuoteWith('\'', Doubled(v));
    QuotedBody('\'', Doubled(v));
    SingleQuotedRoundTrip(v, []);
    assert q + [] == q;
  }

  lemma SingleTrip(width: nat, v: string)
    requires '\n' !in v
    ensures ReadBack(Single, width, v) == Some(v) && !ReadTail(Single, width, v).open
    ensures ScalarHead(Trim(FieldTexts(Single, width, v).0)).0 != []
    ensures FieldTexts(Single, width, v).1 == []
  {
    var q := QuoteWith('\'', Doubled(v));
    DoubledKeeps(v, '\n');
    SplitFlat(q, '\n');
    SingleHeadTail(v);
    AbsorbNone(HeadTail(q, SingleQuoted));
  }

  lemma UntagAt(tag: string, rest: string)
    requires FindBlank(tag + rest) == Some(|tag|)
    ensures Untagged("!" + tag + rest) == TrimStart(rest)
  {
    var value := "!" + tag + rest;
    ConcatAssoc("!", tag, rest);
    assert value[1..] == tag + rest && value[1 + |tag|..] == rest;
  }

  lemma TagShape(q: string)
    ensures "!!str " + q == "!" + "!str" + (" " + q)
  {
    assert "!!str " == "!" + "!str" + " ";
    ConcatAssoc("!" + "!str", " ", q);
  }

  lemma UntagStr(q: string)
    requires q != [] && !IsWhite(q[0])
    ensures Untagged("!!str " + q) == q
  {
    hide Untagged, FindBlank, Trim, TrimStart;
    TagShape(q);
    FindBlankAfter("!str", " " + q);
    UntagAt("!str", " " + q);
    TrimPrefix(" ", q);
    assert [] + q == q;
    TrimStartSplit([], q);
  }

  lemma TaggedHead(q: string)
    requires q != [] && q[0] == '\''
    ensures ScalarHead("!!str " + q) == ScalarHead(q)
  {
    hide Untagged, KindOf, QuotedSpan, PlainSpan;
    UntagStr(q);
    UntaggedQuote(q);
  }

  lemma UntaggedQuote(q: string)
    requires q != [] && q[0] == '\''
    ensures Untagged(q) == q
  {
  }

  /** `<<` is tagged as a string, and the reader drops the tag. */
  lemma TaggedTrip(width: nat, v: string)
    ensures ReadBack(TaggedSingle, width, v) == Some(v) && !ReadTail(TaggedSingle, width, v).open
    ensures ScalarHead(Trim(FieldTexts(TaggedSingle, width, v).0)).0 != []
  {
    hide Doubled, HeadTail, ScalarHead, Absorb;
    var q := QuoteWith('\'', Doubled(v));
    var first := "!!str " + q;
    SingleHeadTail(v);
    TrimOfTrimmed(first);
    TaggedHead(q);
    AbsorbNone(HeadTail(q, SingleQuoted));
  }

  lemma {:induction false} FindBlankAfter(word: string, rest: string)
    requires ' ' !in word && '\t' !in word && rest != [] && rest[0] == ' '
    ensures FindBlank(word + rest) == Some(|word|)
  {
    if word == [] {
      assert word + rest == rest;
    } else {
      assert (word + rest)[1..] == word[1..] + rest;
      FindBlankAfter(word[1..], rest);
    }
  }

  // ---- single quotes around a final line feed -----------------------------------------------

  lemma {:induction false} DoubledSnoc(s: string, c: char)
    ensures Doubled(s + [c]) == Doubled(s) + Doubled([c])
  {
    if s == [] {
      assert s + [c] == [c];
    } else {
      assert (s + [c])[1..] == s[1..] + [c];
      DoubledSnoc(s[1..], c);
    }
  }

  lemma DoubledOne(c: char)
    ensures Doubled([c]) == if c == '\'' then "''" else [c]
  {
    assert [c][1..] == [];
  }

  lemma {:induction false} DoubledTrimEnd(s: string)
    ensures TrimEnd(Doubled(s)) == Doubled(TrimEnd(s))
    decreases |s|
  {
    if s != [] {
      var f, c := s[..|s| - 1], s[|s| - 1];
      assert s == f + [c];
      DoubledSnoc(f, c);
      DoubledOne(c);
      if IsWhite(c) {
        DoubledTrimEnd(f);
        TrimEndDrop(f, c);
        TrimEndDrop(Doubled(f), c);
      } else {
        var d := Doubled(s);
        assert !IsWhite(d[|d| - 1]);
        assert d + [] == d && s + [] == s;
        TrimEndSplit(d, []);
        TrimEndSplit(s, []);
      }
    }
  }

  lemma TrimEndDrop(f: string, c: char)
    requires IsWhite(c)
    ensures TrimEnd(f + [c]) == TrimEnd(f)
  {
    var k := TailWhite(f, |f|);
    assert f + [c] == f[..k] + (f[k..] + [c]);
    TrimEndSplit(f[..k], f[k..] + [c]);
  }

  lemma LineEndLast(v: string)
    requires '\n' in v && LineEnd(v) + 1 >= |v|
    ensures v != [] && v == v[..|v| - 1] + "\n" && '\n' !in v[..|v| - 1]
  {
    hide LineEnd;
    WholeSlice(v);
    FrontLast(v);
  }

  lemma WholeSlice(v: string)
    ensures v[..|v|] == v
  {
  }

  lemma OpenHead(visible: string)
    ensures ScalarHead("'" + Doubled(visible)) == ("'" + Doubled(visible), SingleQuoted)
    ensures !SqClosed("'" + Doubled(visible))
  {
    var head := "'" + Doubled(visible);
    assert head[1..] == Doubled(visible);
    SingleQuotedReads(visible, []);
  }

  lemma QuoteShape(d: string)
    ensures "'" + d + " " + "'" == QuoteWith('\'', d + " ")
  {
  }

  lemma ClosedByQuote(visible: string)
    ensures var raw := QuoteWith('\'', Doubled(visible) + " ");
            SqClosed(raw) && UnyamlScalar(raw) == visible + " "
  {
    DoubledSnoc(visible, ' ');
    DoubledOne(' ');
    assert Doubled(visible + " ") == Doubled(visible) + " ";
    SingleQuotedRoundTrip(visible + " ", []);
  }

  lemma AbsorbQuote(head: string)
    requires !SqClosed(head) && SqClosed(head + " " + "'")
    ensures Absorb(HeadTail(head, SingleQuoted), StripAll(["'"])) ==
            Tail(FieldVal(head + " " + "'", SingleQuoted, [], None), false, 0)
  {
    var t := HeadTail(head, SingleQuoted);
    TrimOfTrimmed("'");
    assert StripAll(["'"]) == ["'"];
    assert ["'"][..0] == [];
    assert Absorb(t, ["'"]) == AbsorbLine(t, "'");
  }

  /** The first line of such a scalar, once trimmed, opens a quote. */
  lemma SingleFeedHead(width: nat, v: string, body: string)
    requires v == body + "\n" && '\n' !in body
    ensures var (first, rest) := FieldTexts(Single, width, v);
            && ScalarHead(Trim(first)) == ("'" + Doubled(TrimEnd(body)), SingleQuoted)
            && !SqClosed("'" + Doubled(TrimEnd(body)))
            && rest == ["'"]
  {
    SplitQuotedFeed(v, body);
    TrimAfter("'", Doubled(body));
    DoubledTrimEnd(body);
    OpenHead(TrimEnd(body));
  }

  /** The second line closes the quote, and the fold leaves a space. */
  lemma QuotedOverBreak(visible: string)
    ensures var h := "'" + Doubled(visible);
      var t := Absorb(HeadTail(h, SingleQuoted), StripAll(["'"]));
      h != [] && HeadTail(h, SingleQuoted).open && !t.open && NonNull(t.fv) == Some(visible + " ")
  {
    OpenHead(visible);
    ClosedByQuote(visible);
    QuoteShape(Doubled(visible));
    AbsorbQuote("'" + Doubled(visible));
  }

  /**
   A single-quoted scalar whose text ends in a line feed is written over two lines,
   and the reader folds the break into a space: the text never comes back.
   */
  lemma SingleFeedFails(width: nat, v: string)
    requires '\n' in v && LineEnd(v) + 1 >= |v|
    ensures ReadBack(Single, width, v) != Some(v) && !ReadTail(Single, width, v).open
    ensures ScalarHead(Trim(FieldTexts(Single, width, v).0)).0 != []
    ensures FieldTexts(Single, width, v).1 == ["'"]
    ensures HeadTail(ScalarHead(Trim(FieldTexts(Single, width, v).0)).0, ScalarHead(Trim(FieldTexts(Single, width, v).0)).1).open
  {
    hide ReadTail, TrimEnd;
    LineEndLast(v);
    var body := v[..|v| - 1];
    var visible := TrimEnd(body);
    SingleFeedHead(width, v, body);
    ReadTailIs(Single, width, v, FieldTexts(Single, width, v).0, ["'"], "'" + Doubled(visible), SingleQuoted);
    QuotedOverBreak(visible);
    assert (visible + " ")[|visible|] == ' ';
  }

  lemma SplitQuotedFeed(v: string, body: string)
    requires v == body + "\n" && '\n' !in body
    ensures Split(QuoteWith('\'', Doubled(v)), '\n') == ["'" + Doubled(body), "'"]
  {
    DoubledSnoc(body, '\n');
    DoubledOne('\n');
    DoubledKeeps(body, '\n');
    var q := QuoteWith('\'', Doubled(v));
    assert q == ("'" + Doubled(body)) + ("\n" + "'");
    SplitAfter("'" + Doubled(body), '\n', "'");
    SplitFlat("'", '\n');
  }
}
