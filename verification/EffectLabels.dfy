/** The effect-label algebra of the snapshot grader, and the rule that leaves rows out of a snapshot. */
module EffectLabels {
  import opened Text

  /** `bound` admits `name`: the same label, or one nested under it. */
  predicate AdmitsOne(bound: string, name: string) {
    name == bound || StartsWith(name, bound + ".")
  }

  predicate Admits(bounds: seq<string>, name: string) {
    exists i :: 0 <= i < |bounds| && AdmitsOne(bounds[i], name)
  }

  predicate SubsumedBy(labels: seq<string>, bounds: seq<string>) {
    forall i :: 0 <= i < |labels| ==> Admits(bounds, labels[i])
  }

  /** The declared lane as it is rendered: what `other` does not already admit. */
  function ExcludingSubsumedBy(labels: seq<string>, other: seq<string>): (r: seq<string>)
    ensures forall x :: x in r <==> x in labels && !Admits(other, x)
  {
    if labels == [] then []
    else
      assert labels == [labels[0]] + labels[1..];
      (if Admits(other, labels[0]) then [] else [labels[0]]) + ExcludingSubsumedBy(labels[1..], other)
  }

  // ---- labels as paths of segments ---------------------------------------------------

  function Segments(name: string): seq<string> {
    Split(name, '.')
  }

  function Dotted(segments: seq<string>): string {
    if segments == [] then []
    else if |segments| == 1 then segments[0]
    else segments[0] + ("." + Dotted(segments[1..]))
  }

  lemma {:induction false} DottedSegments(name: string)
    ensures Dotted(Segments(name)) == name
  {
    if name != [] {
      DottedSegments(name[1..]);
      var r := Segments(name[1..]);
      assert name == [name[0]] + name[1..];
      if name[0] == '.' {
        assert ([[]] + r)[1..] == r;
        assert Dotted([[]] + r) == [] + ("." + Dotted(r));
      } else {
        var all := [[name[0]] + r[0]] + r[1..];
        assert all[1..] == r[1..];
        if |r| > 1 {
          ConcatAssoc([name[0]], r[0], "." + Dotted(r[1..]));
        }
      }
    }
  }

  lemma {:induction false} DottedAppend(a: seq<string>, b: seq<string>)
    requires a != [] && b != []
    ensures Dotted(a + b) == Dotted(a) + ("." + Dotted(b))
  {
    assert (a + b)[1..] == a[1..] + b;
    if |a| > 1 {
      DottedAppend(a[1..], b);
      ConcatAssoc(a[0], "." + Dotted(a[1..]), "." + Dotted(b));
      ConcatAssoc(".", Dotted(a[1..]), "." + Dotted(b));
    }
  }

  lemma {:induction false} SegmentsUnder(bound: string, rest: string)
    ensures Segments(bound + ("." + rest)) == Segments(bound) + Segments(rest)
  {
    var name := bound + ("." + rest);
    if bound == [] {
      assert name == "." + rest;
      assert name[1..] == rest;
    } else {
      assert name[1..] == bound[1..] + ("." + rest);
      SegmentsUnder(bound[1..], rest);
      var a, b := Segments(bound[1..]), Segments(rest);
      if bound[0] == '.' {
        AppendAssoc([[]], a, b);
      } else {
        assert (a + b)[0] == a[0] && (a + b)[1..] == a[1..] + b;
        AppendAssoc([[bound[0]] + a[0]], a[1..], b);
      }
    }
  }

  /** The string test is prefix order on dot-separated segments: `io` admits `io.net`, not `iota`. */
  lemma AdmitsIsSegmentPrefix(bound: string, name: string)
    ensures AdmitsOne(bound, name) <==> Segments(bound) <= Segments(name)
  {
    var b, l := Segments(bound), Segments(name);
    if StartsWith(name, bound + ".") {
      var rest := name[|bound| + 1..];
      assert name == (bound + ".") + rest;
      ConcatAssoc(bound, ".", rest);
      SegmentsUnder(bound, rest);
    }
    if b <= l {
      DottedSegments(bound);
      DottedSegments(name);
      var rest := l[|b|..];
      assert l == b + rest;
      if rest != [] {
        DottedAppend(b, rest);
        ConcatAssoc(bound, ".", Dotted(rest));
        assert name == (bound + ".") + Dotted(rest);
        assert name[0..|bound + "."|] == bound + ".";
      } else {
        assert l == b;
      }
    }
  }

  /** Admission is a partial order on labels. */
  lemma AdmitsPartialOrder(a: string, b: string, c: string)
    ensures AdmitsOne(a, a)
    ensures AdmitsOne(a, b) && AdmitsOne(b, a) ==> a == b
    ensures AdmitsOne(a, b) && AdmitsOne(b, c) ==> AdmitsOne(a, c)
  {
    AdmitsIsSegmentPrefix(a, b);
    AdmitsIsSegmentPrefix(b, a);
    AdmitsIsSegmentPrefix(b, c);
    AdmitsIsSegmentPrefix(a, c);
    if AdmitsOne(a, b) && AdmitsOne(b, a) {
      DottedSegments(a);
      DottedSegments(b);
    }
  }

  lemma AdmitsThrough(bounds: seq<string>, mids: seq<string>, name: string)
    requires SubsumedBy(mids, bounds) && Admits(mids, name)
    ensures Admits(bounds, name)
  {
    var i :| 0 <= i < |mids| && AdmitsOne(mids[i], name);
    var j :| 0 <= j < |bounds| && AdmitsOne(bounds[j], mids[i]);
    AdmitsPartialOrder(bounds[j], mids[i], name);
  }

  /** Subsumption of name lists is a preorder, and a stronger proven lane renders a shorter declared lane. */
  lemma SubsumedPreorder(a: seq<string>, b: seq<string>, c: seq<string>)
    ensures SubsumedBy(a, a)
    ensures SubsumedBy(a, b) && SubsumedBy(b, c) ==> SubsumedBy(a, c)
    ensures SubsumedBy(b, c) ==>
              forall x :: x in ExcludingSubsumedBy(a, c) ==> x in ExcludingSubsumedBy(a, b)
  {
    forall i | 0 <= i < |a|
      ensures Admits(a, a[i])
    {
      assert AdmitsOne(a[i], a[i]);
    }
    if SubsumedBy(b, c) {
      forall x | Admits(b, x)
        ensures Admits(c, x)
      {
        AdmitsThrough(c, b, x);
      }
    }
  }

  // ---- which rows a snapshot leaves out --------------------------------------------------

  const TRIVIAL_BOUND := ["mutate.local"]
  const SYNTHESISED_ORIGINS: set<string> := {"construct:attr-writer"}

  predicate Omit(trivial: bool, exhaustive: bool, bundles: set<string>, proven: seq<string>, declared: seq<string>) {
    || trivial
    || (proven == [] && declared == [])
    || (exhaustive && bundles != {} && forall origin :: origin in bundles ==> origin in SYNTHESISED_ORIGINS)
  }

  lemma {:induction false} ExcludingNothing(labels: seq<string>)
    ensures ExcludingSubsumedBy(labels, []) == labels
  {
    if labels != [] {
      ExcludingNothing(labels[1..]);
    }
  }

  /** Re-deriving omission from a full snapshot, whose declared lane is already rendered, gives the same answer. */
  lemma OmitFromRendered(trivial: bool, exhaustive: bool, bundles: set<string>, proven: seq<string>, declared: seq<string>)
    ensures Omit(trivial, exhaustive, bundles, proven, declared) ==
            Omit(trivial, exhaustive, bundles, proven, ExcludingSubsumedBy(declared, proven))
  {
    if proven == [] {
      ExcludingNothing(declared);
    }
  }

  /** More taint never drops a row, and it keeps one exactly when only the clause on synthesised bundles would drop it. */
  lemma TaintOnlyKeeps(trivial: bool, bundles: set<string>, proven: seq<string>, declared: seq<string>)
    ensures Omit(trivial, false, bundles, proven, declared) ==> Omit(trivial, true, bundles, proven, declared)
    ensures Omit(trivial, true, bundles, proven, declared) && !Omit(trivial, false, bundles, proven, declared) <==>
            !trivial && (proven != [] || declared != []) && bundles != {} && bundles <= SYNTHESISED_ORIGINS
  {
  }
}
