/** Python strings: white space, stripping and replacing. */
module PyText {
  import opened Text

  /** `str.isspace` of one character in Python: Unicode white space and the four ASCII separators. */
  predicate PyWhite(c: char) {
    IsWhite(c) || 0x1C <= c as int <= 0x1F
  }

  function PyStripLeft(s: string): string {
    if s != [] && PyWhite(s[0]) then PyStripLeft(s[1..]) else s
  }

  function PyStripRight(s: string): (r: string) {
    if s != [] && PyWhite(s[|s| - 1]) then PyStripRight(s[..|s| - 1]) else s
  }

  function PyStrip(s: string): string {
    PyStripRight(PyStripLeft(s))
  }

  predicate PyBlank(s: string) {
    forall i :: 0 <= i < |s| ==> PyWhite(s[i])
  }

  /** Neither end of `s` is white space. */
  predicate Firm(s: string) {
    s == [] || (!PyWhite(s[0]) && !PyWhite(s[|s| - 1]))
  }

  lemma {:induction false} StripLeftCuts(s: string) returns (w: string)
    ensures s == w + PyStripLeft(s) && PyBlank(w)
    ensures PyStripLeft(s) == [] || !PyWhite(PyStripLeft(s)[0])
  {
    if s != [] && PyWhite(s[0]) {
      var w' := StripLeftCuts(s[1..]);
      w := [s[0]] + w';
      assert s == [s[0]] + s[1..];
    } else {
      w := [];
    }
  }

  lemma {:induction false} StripRightCuts(s: string) returns (v: string)
    ensures s == PyStripRight(s) + v && PyBlank(v)
    ensures PyStripRight(s) == [] || !PyWhite(PyStripRight(s)[|PyStripRight(s)| - 1])
    decreases |s|
  {
    if s != [] && PyWhite(s[|s| - 1]) {
      var v' := StripRightCuts(s[..|s| - 1]);
      v := v' + [s[|s| - 1]];
      assert s == s[..|s| - 1] + [s[|s| - 1]];
    } else {
      v := [];
    }
  }

  /** What stripping takes off. */
  lemma StripCuts(s: string) returns (w: string, v: string)
    ensures s == w + PyStrip(s) + v && PyBlank(w) && PyBlank(v)
  {
    w := StripLeftCuts(s);
    v := StripRightCuts(PyStripLeft(s));
    ConcatAssoc(w, PyStrip(s), v);
  }

  lemma {:induction false} StripLeftOf(w: string, t: string)
    requires PyBlank(w) && t != [] && !PyWhite(t[0])
    ensures PyStripLeft(w + t) == t
  {
    if w == [] {
      assert w + t == t;
    } else {
      assert (w + t)[1..] == w[1..] + t;
      StripLeftOf(w[1..], t);
    }
  }

  lemma {:induction false} StripRightOf(t: string, v: string)
    requires PyBlank(v) && t != [] && !PyWhite(t[|t| - 1])
    ensures PyStripRight(t + v) == t
    decreases |v|
  {
    if v == [] {
      assert t + v == t;
    } else {
      assert (t + v)[..|t + v| - 1] == t + v[..|v| - 1];
      StripRightOf(t, v[..|v| - 1]);
    }
  }

  lemma StripOf(w: string, t: string, v: string)
    requires PyBlank(w) && PyBlank(v) && t != [] && Firm(t)
    ensures PyStrip(w + t + v) == t
  {
    ConcatAssoc(w, t, v);
    StripLeftOf(w, t + v);
    StripRightOf(t, v);
  }

  /** `str.replace`. */
  function Replace(s: string, old': string, new': string): string
    requires old' != []
    decreases |s|
  {
    if |s| < |old'| then s
    else if s[..|old'|] == old' then new' + Replace(s[|old'|..], old', new')
    else [s[0]] + Replace(s[1..], old', new')
  }

  lemma ReplaceSkip(s: string, old': string, new': string)
    requires s != [] && old' != [] && s[0] != old'[0]
    ensures Replace(s, old', new') == [s[0]] + Replace(s[1..], old', new')
  {
    if |s| >= |old'| {
      assert s[..|old'|][0] == s[0];
    } else {
      assert s == [s[0]] + s[1..];
    }
  }

  lemma {:induction false} ReplaceBlank(w: string, s: string, old': string, new': string)
    requires PyBlank(w) && old' != [] && !PyWhite(old'[0])
    ensures Replace(w + s, old', new') == w + Replace(s, old', new')
    decreases |w|
  {
    if w == [] {
      assert w + s == s;
    } else {
      assert (w + s)[1..] == w[1..] + s;
      ReplaceSkip(w + s, old', new');
      ReplaceBlank(w[1..], s, old', new');
      ConcatAssoc([w[0]], w[1..], Replace(s, old', new'));
      assert w == [w[0]] + w[1..];
    }
  }

  /** In a line that is one word between blanks, the word is replaced once. */
  lemma ReplaceOnce(w: string, v: string, old': string, new': string)
    requires PyBlank(w) && PyBlank(v) && old' != [] && !PyWhite(old'[0])
    ensures Replace(w + old' + v, old', new') == w + new' + v
  {
    ConcatAssoc(w, old', v);
    ConcatAssoc(w, new', v);
    ReplaceBlank(w, old' + v, old', new');
    assert (old' + v)[..|old'|] == old' && (old' + v)[|old'|..] == v;
    assert v + [] == v;
    ReplaceBlank(v, [], old', new');
  }

  // ---- words -----------------------------------------------------------------------------

  /** A word: not empty, and without white space. */
  predicate Unbroken(w: string) {
    w != [] && forall i :: 0 <= i < |w| ==> !PyWhite(w[i])
  }

  /** The length of the run of visible characters at the start. */
  function RunLength(s: string): (n: nat)
    ensures n <= |s| && (forall i :: 0 <= i < n ==> !PyWhite(s[i])) && (n < |s| ==> PyWhite(s[n]))
  {
    if s == [] || PyWhite(s[0]) then 0 else 1 + RunLength(s[1..])
  }

  /** `str.split()`. */
  function Words(s: string): (r: seq<string>)
    ensures forall i :: 0 <= i < |r| ==> Unbroken(r[i])
    decreases |s|
  {
    if s == [] then []
    else if PyWhite(s[0]) then Words(s[1..])
    else [s[..RunLength(s)]] + Words(s[RunLength(s)..])
  }

  lemma {:induction false} BlankThenWords(gap: string, s: string)
    requires PyBlank(gap)
    ensures Words(gap + s) == Words(s)
    decreases |gap|
  {
    if gap == [] {
      assert gap + s == s;
    } else {
      assert (gap + s)[1..] == gap[1..] + s;
      BlankThenWords(gap[1..], s);
    }
  }

  lemma WordThenWords(w: string, s: string)
    requires Unbroken(w) && (s == [] || PyWhite(s[0]))
    ensures Words(w + s) == [w] + Words(s)
  {
    RunLengthOf(w, s);
    assert (w + s)[..|w|] == w && (w + s)[|w|..] == s;
  }

  lemma {:induction false} RunLengthOf(w: string, s: string)
    requires forall i :: 0 <= i < |w| ==> !PyWhite(w[i])
    requires s == [] || PyWhite(s[0])
    ensures RunLength(w + s) == |w|
  {
    if w == [] {
      assert w + s == s;
    } else {
      assert (w + s)[1..] == w[1..] + s;
      RunLengthOf(w[1..], s);
    }
  }
}
