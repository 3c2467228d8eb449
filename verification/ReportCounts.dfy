/** What the counters and findings of the report comparison stand for: which methods have each verdict, and how many. */
module ReportCounts {
  import opened Ordering
  import opened EffectReport
  import opened VerdictCounts

  datatype MethodVerdict = Unknown | ExtraLabel | ClaimsClean | DeclaresOther | NoMethod | LacksLabel | MoreTainted | AllSame

  /** The verdict `v` applies to a method that both reports have, in terms of its lanes. */
  ghost predicate LanesJudged(r: Lanes, s: Lanes, v: MethodVerdict) {
    match v
    case ExtraLabel => exists x :: x in s.proven && x !in r.proven
    case ClaimsClean => s.exhaustive && !r.exhaustive
    case DeclaresOther => s.declared != r.declared
    case LacksLabel => exists x :: x in r.proven && x !in s.proven
    case MoreTainted => r.proven <= s.proven && r.exhaustive && !s.exhaustive
    case AllSame => r == s
    case _ => false
  }

  ghost predicate MethodJudged(reference: Report, port: Report, name: string, v: MethodVerdict) {
    if name in reference && name in port then LanesJudged(LanesOf(reference[name]), LanesOf(port[name]), v)
    else if name in port then v == Unknown
    else name in reference && v == NoMethod
  }

  /** The counters: three kinds of over-claim and three of under-claim, each kind also counted together. */
  ghost function ReportTally(has: MethodVerdict -> nat): Tally {
    Tally(has(Unknown) + has(ExtraLabel) + has(ClaimsClean), has(DeclaresOther),
          has(NoMethod) + has(LacksLabel) + has(MoreTainted), has(AllSame),
          has(NoMethod), has(LacksLabel), has(MoreTainted))
  }

  ghost function OneMethod(reference: Report, port: Report, name: string): MethodVerdict -> nat {
    (v: MethodVerdict) => Bit(MethodJudged(reference, port, name, v))
  }

  lemma Within(a: set<string>, b: set<string>)
    ensures a <= b <==> !exists x :: x in a && x !in b
    ensures a - b == {} <==> a <= b
  {
    EmptyDifference(a, b);
  }

  lemma LanesVerdict(r: Lanes, s: Lanes)
    ensures LaneTally(r, s) == ReportTally(v => Bit(LanesJudged(r, s, v)))
  {
    Within(s.proven, r.proven);
    Within(r.proven, s.proven);
  }

  /** The counters of one method are its verdicts. */
  lemma MethodVerdicts(reference: Report, port: Report, name: string)
    requires name in reference || name in port
    ensures MethodTally(reference, port, name) == ReportTally(OneMethod(reference, port, name))
  {
    hide LaneTally, LanesJudged, LanesOf;
    if name in reference && name in port {
      LanesVerdict(LanesOf(reference[name]), LanesOf(port[name]));
    }
  }

  // ---- all methods ---------------------------------------------------------------------------------

  ghost function MethodsAs(reference: Report, port: Report, v: MethodVerdict): string -> bool {
    (name: string) => MethodJudged(reference, port, name, v)
  }

  ghost function MethodCounts(reference: Report, port: Report, names: seq<string>): MethodVerdict -> nat {
    (v: MethodVerdict) => Count(names, MethodsAs(reference, port, v))
  }

  lemma ReportPlus(all: MethodVerdict -> nat, before: MethodVerdict -> nat, one: MethodVerdict -> nat)
    requires forall v :: all(v) == before(v) + one(v)
    ensures ReportTally(all) == ReportTally(before).Plus(ReportTally(one))
  {
  }

  lemma MethodStep(reference: Report, port: Report, names: seq<string>, v: MethodVerdict)
    requires names != []
    ensures MethodCounts(reference, port, names)(v) ==
            MethodCounts(reference, port, names[..|names| - 1])(v) + OneMethod(reference, port, names[|names| - 1])(v)
  {
  }

  lemma NothingCounted(reference: Report, port: Report)
    ensures ReportTally(MethodCounts(reference, port, [])) == ZERO
  {
  }

  lemma {:induction false} MethodsCounted(reference: Report, port: Report, names: seq<string>)
    requires Known(reference, port, names)
    ensures TallyOver(reference, port, names) == ReportTally(MethodCounts(reference, port, names))
  {
    hide MethodJudged, MethodTally, ReportTally, OneMethod;
    if names == [] {
      NothingCounted(reference, port);
    } else {
      var front, last := names[..|names| - 1], names[|names| - 1];
      MethodsCounted(reference, port, front);
      MethodVerdicts(reference, port, last);
      forall v: MethodVerdict
        ensures MethodCounts(reference, port, names)(v) ==
                MethodCounts(reference, port, front)(v) + OneMethod(reference, port, last)(v)
      {
        MethodStep(reference, port, names, v);
      }
      ReportPlus(MethodCounts(reference, port, names), MethodCounts(reference, port, front), OneMethod(reference, port, last));
    }
  }

  /** The methods with a verdict. */
  ghost function MethodsWith(reference: Report, port: Report, v: MethodVerdict): set<string> {
    set name | name in reference.Keys + port.Keys && MethodJudged(reference, port, name, v)
  }

  ghost function MethodCards(reference: Report, port: Report): MethodVerdict -> nat {
    (v: MethodVerdict) => |MethodsWith(reference, port, v)|
  }

  /** Every counter of the comparison is the number of methods with its verdicts. */
  lemma MethodCountersCount(reference: Report, port: Report)
    ensures TallyOver(reference, port, Names(reference, port)) == ReportTally(MethodCards(reference, port))
  {
    hide MethodJudged, TallyOver;
    var names := Names(reference, port);
    MethodsCounted(reference, port, names);
    SortsDistinct(names, reference.Keys + port.Keys);
    forall v: MethodVerdict
      ensures MethodCounts(reference, port, names)(v) == MethodCards(reference, port)(v)
    {
      CountCard(names, MethodsAs(reference, port, v));
      assert Those(names, MethodsAs(reference, port, v)) == MethodsWith(reference, port, v);
    }
  }

  // ---- the findings ---------------------------------------------------------------------------------

  /** What a finding says is so. */
  ghost predicate Found(reference: Report, port: Report, f: Finding) {
    match f
    case UnknownMethod(name) => name in port && name !in reference
    case ExtraLabels(name, extra) =>
      name in reference && name in port && extra != {}
      && forall x :: x in extra <==> x in LanesOf(port[name]).proven && x !in LanesOf(reference[name]).proven
    case ClaimsExhaustive(name) =>
      name in reference && name in port && LanesOf(port[name]).exhaustive && !LanesOf(reference[name]).exhaustive
    case DeclaredMismatch(name) =>
      name in reference && name in port && LanesOf(port[name]).declared != LanesOf(reference[name]).declared
  }

  lemma FindingsOfMethod(reference: Report, port: Report, name: string, f: Finding)
    requires name in reference || name in port
    ensures f in MethodFindings(reference, port, name) <==> f.name == name && Found(reference, port, f)
  {
    hide LanesOf;
    if name in reference && name in port {
      var r, s := LanesOf(reference[name]), LanesOf(port[name]);
      Within(s.proven, r.proven);
      if f.ExtraLabels? && f.name == name && Found(reference, port, f) {
        assert f.extra == s.proven - r.proven;
      }
    }
  }

  lemma {:induction false} FindingsAmongMethods(reference: Report, port: Report, names: seq<string>, f: Finding)
    requires Known(reference, port, names)
    ensures f in FindingsOver(reference, port, names) <==> f.name in names && Found(reference, port, f)
  {
    hide Found, MethodFindings;
    if names != [] {
      var front, last := names[..|names| - 1], names[|names| - 1];
      FindingsAmongMethods(reference, port, front, f);
      FindingsOfMethod(reference, port, last, f);
      assert names == front + [last];
    }
  }

  lemma MethodFindingLength(reference: Report, port: Report, name: string)
    requires name in reference || name in port
    ensures var t := MethodTally(reference, port, name); |MethodFindings(reference, port, name)| == t.over + t.mismatch
  {
    hide LanesOf;
  }

  lemma {:induction false} MethodFindingsLength(reference: Report, port: Report, names: seq<string>)
    requires Known(reference, port, names)
    ensures var t := TallyOver(reference, port, names); |FindingsOver(reference, port, names)| == t.over + t.mismatch
  {
    hide MethodFindings, MethodTally;
    if names != [] {
      MethodFindingsLength(reference, port, names[..|names| - 1]);
      MethodFindingLength(reference, port, names[|names| - 1]);
    }
  }

  /** The comparison lists exactly the findings that hold, one for each fatal verdict. */
  lemma ReportFindingsIff(reference: Report, port: Report)
    ensures forall f :: f in FindingsOver(reference, port, Names(reference, port)) <==> Found(reference, port, f)
    ensures var t := TallyOver(reference, port, Names(reference, port));
            |FindingsOver(reference, port, Names(reference, port))| == t.over + t.mismatch
  {
    hide FindingsOver, TallyOver;
    var names := Names(reference, port);
    forall f
      ensures f in FindingsOver(reference, port, names) <==> Found(reference, port, f)
    {
      FindingsAmongMethods(reference, port, names, f);
    }
    MethodFindingsLength(reference, port, names);
  }

  // ---- the lanes of an entry ---------------------------------------------------------------------------

  /** An entry's lanes, read off its fields: a missing lane or an entry of another shape claims nothing. */
  lemma LanesRead(e: Entry, x: string)
    ensures x in LanesOf(e).proven <==> e.Dict? && e.effects.Some? && x in e.effects.value
    ensures x in LanesOf(e).declared <==> e.Dict? && e.declared.Some? && x in e.declared.value
    ensures LanesOf(e).exhaustive <==> e.Dict? && e.exhaustive.Some? && e.exhaustive.value
  {
  }
}
