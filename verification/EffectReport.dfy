/**
 The report comparison: per-method verdicts over three lanes, and its pass
 condition as an order on reports.
 */
module EffectReport {
  import opened Wrappers
  import opened Ordering

  datatype Cause = Cause(cause: string, detail: Option<string>)

  /**
   One method's JSON entry. A missing lane is `None`; `direct` holds the origins of
   its own-body bundles.
   */
  datatype Entry =
    | NotADict
    | Dict(effects: Option<seq<string>>, declared: Option<seq<string>>, exhaustive: Option<bool>,
           direct: set<string>, causes: seq<Cause>)

  type Report = map<string, Entry>

  datatype Lanes = Lanes(proven: set<string>, declared: set<string>, exhaustive: bool)

  function Labels(xs: seq<string>): set<string> {
    set x | x in xs
  }

  function SetOf(labels: Option<seq<string>>): set<string> {
    match labels
    case None => {}
    case Some(xs) => Labels(xs)
  }

  /** The graded lanes, a missing one read as the weakest value. */
  function LanesOf(e: Entry): Lanes {
    match e
    case NotADict => Lanes({}, {}, false)
    case Dict(effects, declared, exhaustive, _, _) =>
      Lanes(SetOf(effects), SetOf(declared), exhaustive == Some(true))
  }

  /** The verdict counters. */
  datatype Tally = Tally(over: nat, mismatch: nat, under: nat, matched: nat,
                         absentMethod: nat, missingLabel: nat, extraTaint: nat)
  {
    function Plus(t: Tally): Tally {
      Tally(over + t.over, mismatch + t.mismatch, under + t.under, matched + t.matched,
            absentMethod + t.absentMethod, missingLabel + t.missingLabel, extraTaint + t.extraTaint)
    }
  }

  const ZERO := Tally(0, 0, 0, 0, 0, 0, 0)

  datatype Finding = UnknownMethod(name: string) | ExtraLabels(name: string, extra: set<string>)
                   | ClaimsExhaustive(name: string) | DeclaredMismatch(name: string)

  // ---- the verdict on one method -------------------------------------------------------

  function Bit(b: bool): nat {
    if b then 1 else 0
  }

  function LaneTally(r: Lanes, s: Lanes): Tally {
    var missing := r.proven - s.proven != {};
    var taint := !missing && r.exhaustive && !s.exhaustive;
    var clean := s.proven <= r.proven && s.declared == r.declared && s.exhaustive == r.exhaustive;
    Tally(Bit(!(s.proven <= r.proven)) + Bit(s.exhaustive && !r.exhaustive),
          Bit(s.declared != r.declared),
          Bit(missing || taint),
          Bit(!missing && !taint && clean),
          0, Bit(missing), Bit(taint))
  }

  function MethodTally(reference: Report, port: Report, name: string): Tally
    requires name in reference || name in port
  {
    if name !in port then ZERO.(under := 1, absentMethod := 1)
    else if name !in reference then ZERO.(over := 1)
    else LaneTally(LanesOf(reference[name]), LanesOf(port[name]))
  }

  function MethodFindings(reference: Report, port: Report, name: string): seq<Finding>
    requires name in reference || name in port
  {
    if name !in port then []
    else if name !in reference then [UnknownMethod(name)]
    else LaneFindings(name, LanesOf(reference[name]), LanesOf(port[name]))
  }

  function LaneFindings(name: string, r: Lanes, s: Lanes): seq<Finding> {
    (if s.proven <= r.proven then [] else [ExtraLabels(name, s.proven - r.proven)])
    + (if s.exhaustive && !r.exhaustive then [ClaimsExhaustive(name)] else [])
    + (if s.declared != r.declared then [DeclaredMismatch(name)] else [])
  }

  predicate Known(reference: Report, port: Report, names: seq<string>) {
    forall i :: 0 <= i < |names| ==> names[i] in reference || names[i] in port
  }

  function TallyOver(reference: Report, port: Report, names: seq<string>): Tally
    requires Known(reference, port, names)
  {
    if names == [] then ZERO
    else
      var n := |names| - 1;
      TallyOver(reference, port, names[..n]).Plus(MethodTally(reference, port, names[n]))
  }

  function FindingsOver(reference: Report, port: Report, names: seq<string>): seq<Finding>
    requires Known(reference, port, names)
  {
    if names == [] then []
    else
      var n := |names| - 1;
      FindingsOver(reference, port, names[..n]) + MethodFindings(reference, port, names[n])
  }

  ghost function Names(reference: Report, port: Report): (r: seq<string>)
    ensures Known(reference, port, r)
  {
    var r := Sorted(reference.Keys + port.Keys);
    assert forall i :: 0 <= i < |r| ==> r[i] in r;
    r
  }

  lemma OverStep(reference: Report, port: Report, names: seq<string>, i: nat)
    requires Known(reference, port, names) && i < |names|
    ensures Known(reference, port, names[..i]) && Known(reference, port, names[..i + 1])
    ensures TallyOver(reference, port, names[..i + 1]) ==
            TallyOver(reference, port, names[..i]).Plus(MethodTally(reference, port, names[i]))
    ensures FindingsOver(reference, port, names[..i + 1]) ==
            FindingsOver(reference, port, names[..i]) + MethodFindings(reference, port, names[i])
  {
    assert names[..i + 1][..i] == names[..i];
  }

  /** The verdicts on one method that both reports have, added to the counters. */
  method JudgeLanes(name: string, r: Lanes, s: Lanes, verdicts0: Tally, findings0: seq<Finding>)
    returns (verdicts: Tally, findings: seq<Finding>)
    ensures verdicts == verdicts0.Plus(LaneTally(r, s))
    ensures findings == findings0 + LaneFindings(name, r, s)
  {
    verdicts, findings := verdicts0, findings0;
    var overLabels, underLabels := s.proven - r.proven, r.proven - s.proven;
    EmptyDifference(s.proven, r.proven);
    if overLabels != {} {
      verdicts := verdicts.(over := verdicts.over + 1);
      findings := findings + [ExtraLabels(name, overLabels)];
    }
    if s.exhaustive && !r.exhaustive {
      verdicts := verdicts.(over := verdicts.over + 1);
      findings := findings + [ClaimsExhaustive(name)];
    }
    if s.declared != r.declared {
      verdicts := verdicts.(mismatch := verdicts.mismatch + 1);
      findings := findings + [DeclaredMismatch(name)];
    }
    if underLabels != {} {
      verdicts := verdicts.(under := verdicts.under + 1, missingLabel := verdicts.missingLabel + 1);
    } else if r.exhaustive && !s.exhaustive {
      verdicts := verdicts.(under := verdicts.under + 1, extraTaint := verdicts.extraTaint + 1);
    } else if overLabels == {} && s.declared == r.declared && s.exhaustive == r.exhaustive {
      verdicts := verdicts.(matched := verdicts.matched + 1);
    }
  }

  lemma EmptyDifference(a: set<string>, b: set<string>)
    ensures a - b == {} <==> a <= b
  {
    if a - b == {} {
      forall x | x in a
        ensures x in b
      {
        assert x !in a - b;
      }
    }
  }

  /** The verdicts on one method, added to the counters. */
  method JudgeMethod(reference: Report, port: Report, name: string, verdicts0: Tally, findings0: seq<Finding>)
    returns (verdicts: Tally, findings: seq<Finding>)
    requires name in reference || name in port
    ensures verdicts == verdicts0.Plus(MethodTally(reference, port, name))
    ensures findings == findings0 + MethodFindings(reference, port, name)
  {
    verdicts, findings := verdicts0, findings0;
    if name !in port {
      verdicts := verdicts.(under := verdicts.under + 1, absentMethod := verdicts.absentMethod + 1);
    } else if name !in reference {
      verdicts := verdicts.(over := verdicts.over + 1);
      findings := findings + [UnknownMethod(name)];
    } else {
      verdicts, findings := JudgeLanes(name, LanesOf(reference[name]), LanesOf(port[name]), verdicts, findings);
    }
  }

  /** The comparison over a list of methods. */
  method CompareOver(reference: Report, port: Report, names: seq<string>) returns (verdicts: Tally, findings: seq<Finding>)
    requires Known(reference, port, names)
    ensures verdicts == TallyOver(reference, port, names)
    ensures findings == FindingsOver(reference, port, names)
  {
    verdicts, findings := ZERO, [];
    for i := 0 to |names|
      invariant Known(reference, port, names[..i])
      invariant verdicts == TallyOver(reference, port, names[..i])
      invariant findings == FindingsOver(reference, port, names[..i])
    {
      OverStep(reference, port, names, i);
      verdicts, findings := JudgeMethod(reference, port, names[i], verdicts, findings);
    }
    assert names[..|names|] == names;
  }

  /** The comparison, method by method in name order. */
  method Compare(reference: Report, port: Report) returns (verdicts: Tally, findings: seq<Finding>)
    ensures verdicts == TallyOver(reference, port, Names(reference, port))
    ensures findings == FindingsOver(reference, port, Names(reference, port))
  {
    var names := Sort(reference.Keys + port.Keys);
    assert names == Names(reference, port);
    verdicts, findings := CompareOver(reference, port, names);
  }

  // ---- the gate ------------------------------------------------------------------------

  predicate Clean(t: Tally) {
    t.over == 0 && t.mismatch == 0
  }

  /** The port claims no more than the reference: no extra method, label or exhaustiveness, and the same declared lane. */
  predicate LaneRefines(r: Lanes, s: Lanes) {
    s.proven <= r.proven && (s.exhaustive ==> r.exhaustive) && s.declared == r.declared
  }

  predicate RefinesOn(reference: Report, port: Report, name: string) {
    name in port ==> name in reference && LaneRefines(LanesOf(reference[name]), LanesOf(port[name]))
  }

  ghost predicate Refines(reference: Report, port: Report) {
    forall name :: RefinesOn(reference, port, name)
  }

  lemma MethodCleanIff(reference: Report, port: Report, name: string)
    requires name in reference || name in port
    ensures Clean(MethodTally(reference, port, name)) <==> RefinesOn(reference, port, name)
    ensures Clean(MethodTally(reference, port, name)) <==> MethodFindings(reference, port, name) == []
  {
  }

  predicate RefinesOver(reference: Report, port: Report, names: seq<string>) {
    names == [] || (RefinesOver(reference, port, names[..|names| - 1]) && RefinesOn(reference, port, names[|names| - 1]))
  }

  lemma {:induction false} RefinesOverEach(reference: Report, port: Report, names: seq<string>)
    ensures RefinesOver(reference, port, names) <==> forall name :: name in names ==> RefinesOn(reference, port, name)
  {
    if names != [] {
      RefinesOverEach(reference, port, names[..|names| - 1]);
      assert names == names[..|names| - 1] + [names[|names| - 1]];
    }
  }

  lemma {:induction false} OverCleanIff(reference: Report, port: Report, names: seq<string>)
    requires Known(reference, port, names)
    ensures Clean(TallyOver(reference, port, names)) <==> RefinesOver(reference, port, names)
    ensures Clean(TallyOver(reference, port, names)) <==> FindingsOver(reference, port, names) == []
  {
    if names != [] {
      var n := |names| - 1;
      OverStep(reference, port, names, n);
      assert names[..n + 1] == names;
      OverCleanIff(reference, port, names[..n]);
      MethodCleanIff(reference, port, names[n]);
    }
  }

  lemma NamesCover(reference: Report, port: Report)
    ensures forall name :: name in Names(reference, port) <==> name in reference || name in port
  {
  }

  lemma CoverRefines(reference: Report, port: Report, names: seq<string>)
    requires forall name :: name in port ==> name in names
    ensures RefinesOver(reference, port, names) <==> Refines(reference, port)
  {
    RefinesOverEach(reference, port, names);
  }

  /** The gate passes, and lists nothing, exactly when the port's report refines the reference's. */
  lemma GateIff(reference: Report, port: Report)
    ensures Clean(TallyOver(reference, port, Names(reference, port))) <==> Refines(reference, port)
    ensures FindingsOver(reference, port, Names(reference, port)) == [] <==> Refines(reference, port)
  {
    NamesCover(reference, port);
    CoverRefines(reference, port, Names(reference, port));
    OverCleanIff(reference, port, Names(reference, port));
  }

  /** Passing the gate is reflexive and transitive. */
  lemma RefinesPreorder(a: Report, b: Report, c: Report)
    ensures Refines(a, a)
    ensures Refines(a, b) && Refines(b, c) ==> Refines(a, c)
  {
    if Refines(a, b) && Refines(b, c) {
      forall name
        ensures RefinesOn(a, c, name)
      {
        assert RefinesOn(a, b, name) && RefinesOn(b, c, name);
      }
    }
  }

  /** The lanes of the two reports agree on every method. */
  ghost predicate SameLanes(a: Report, b: Report) {
    a.Keys == b.Keys && forall name :: name in a ==> LanesOf(a[name]) == LanesOf(b[name])
  }

  /** Every method gets a verdict, and a match excludes every other one. */
  lemma EveryMethodJudged(reference: Report, port: Report, name: string)
    requires name in reference || name in port
    ensures var t := MethodTally(reference, port, name);
            && t.over + t.mismatch + t.under + t.matched > 0
            && t.under == t.absentMethod + t.missingLabel + t.extraTaint
            && (t.matched > 0 <==> t == ZERO.(matched := 1))
            && (t.matched > 0 <==> name in reference && name in port && LanesOf(reference[name]) == LanesOf(port[name]))
  {
    if name in reference && name in port {
      var r, s := LanesOf(reference[name]), LanesOf(port[name]);
      EmptyDifference(r.proven, s.proven);
    }
  }

  predicate SameOn(a: Report, b: Report, name: string) {
    name in a && name in b && LanesOf(a[name]) == LanesOf(b[name])
  }

  predicate SameOver(a: Report, b: Report, names: seq<string>) {
    names == [] || (SameOver(a, b, names[..|names| - 1]) && SameOn(a, b, names[|names| - 1]))
  }

  lemma {:induction false} AllMatchedOver(reference: Report, port: Report, names: seq<string>)
    requires Known(reference, port, names)
    ensures var t := TallyOver(reference, port, names);
            t.matched <= |names| && (t.matched == |names| <==> SameOver(reference, port, names))
  {
    if names != [] {
      var n := |names| - 1;
      OverStep(reference, port, names, n);
      assert names[..n + 1] == names;
      AllMatchedOver(reference, port, names[..n]);
      EveryMethodJudged(reference, port, names[n]);
    }
  }

  lemma {:induction false} SameOverEach(a: Report, b: Report, names: seq<string>)
    ensures SameOver(a, b, names) <==> forall name :: name in names ==> SameOn(a, b, name)
  {
    if names != [] {
      SameOverEach(a, b, names[..|names| - 1]);
      assert names == names[..|names| - 1] + [names[|names| - 1]];
    }
  }

  lemma CoverSame(reference: Report, port: Report, names: seq<string>)
    requires forall name :: name in names <==> name in reference || name in port
    ensures SameOver(reference, port, names) <==> SameLanes(reference, port)
  {
    SameOverEach(reference, port, names);
    if SameOver(reference, port, names) {
      forall name
        ensures name in reference <==> name in port
      {
        assert name in names ==> SameOn(reference, port, name);
      }
    }
  }

  /** Every method matches exactly when the reports agree on all lanes. */
  lemma AllMatchedIff(reference: Report, port: Report)
    ensures TallyOver(reference, port, Names(reference, port)).matched == |Names(reference, port)|
            <==> SameLanes(reference, port)
  {
    NamesCover(reference, port);
    AllMatchedOver(reference, port, Names(reference, port));
    CoverSame(reference, port, Names(reference, port));
  }

  /** Reports that refine each other agree on all lanes. */
  lemma RefinesAntisymmetric(a: Report, b: Report)
    ensures SameLanes(a, b) <==> Refines(a, b) && Refines(b, a)
  {
    if Refines(a, b) && Refines(b, a) {
      forall name
        ensures name in a <==> name in b
        ensures name in a ==> LanesOf(a[name]) == LanesOf(b[name])
      {
        assert RefinesOn(a, b, name) && RefinesOn(b, a, name);
      }
    }
  }
}
