/** The snapshot synthesised from a report, and the comparison of two snapshots row by row. */
module EffectSnapshot {
  import opened Wrappers
  import opened Ordering
  import opened EffectLabels
  import opened EffectReport

  /** One row of the `methods:` table. */
  datatype Row = Row(effects: seq<string>, declared: seq<string>, exhaustive: bool, unresolved: int)

  type Table = map<string, Row>

  function RenderCause(c: Cause): string {
    if c.detail.None? || c.detail.value == [] then c.cause else c.cause + "(" + c.detail.value + ")"
  }

  function RenderedCauses(causes: seq<Cause>): set<string> {
    set i | 0 <= i < |causes| :: RenderCause(causes[i])
  }

  /** The row has both lanes that no default could safely replace. */
  predicate Complete(e: Entry) {
    e.Dict? && e.effects.Some? && e.exhaustive.Some?
  }

  /** Some proven label admits the declared one, so that it need not be rendered. */
  predicate Covered(l: Lanes, x: string) {
    exists p :: p in l.proven && AdmitsOne(p, x)
  }

  /** Nothing beyond the trivial bound is proven, and every declared label is covered. */
  predicate Trivial(l: Lanes) {
    (forall p :: p in l.proven ==> Admits(TRIVIAL_BOUND, p)) && forall x :: x in l.declared ==> Covered(l, x)
  }

  predicate Bare(l: Lanes) {
    l.proven == {} && l.declared == {}
  }

  /** All that is known of the method comes from synthesised code. */
  predicate Bundled(l: Lanes, origins: set<string>) {
    l.exhaustive && origins != {} && origins <= SYNTHESISED_ORIGINS
  }

  /** The entry gets no row. */
  predicate Dropped(l: Lanes, origins: set<string>) {
    Trivial(l) || Bare(l) || Bundled(l, origins)
  }

  /** The row carries the lanes: both sorted, the declared one rendered against the proven one. */
  ghost predicate Carries(row: Row, l: Lanes) {
    && Labels(row.effects) == l.proven && row.effects == Sorted(l.proven)
    && row.declared == ExcludingSubsumedBy(Sorted(l.declared), Sorted(l.proven))
    && row.exhaustive == l.exhaustive
  }

  /** The row the port would write for an entry, in terms of its lanes and origins, or `None`. */
  ghost function RowOf(e: Entry): (r: Option<Row>)
    requires Complete(e)
    ensures r.None? <==> Dropped(LanesOf(e), e.direct)
    ensures r.Some? ==> Carries(r.value, LanesOf(e))
  {
    var l := LanesOf(e);
    if Dropped(l, e.direct) then None
    else
      Some(Row(Sorted(l.proven), ExcludingSubsumedBy(Sorted(l.declared), Sorted(l.proven)), l.exhaustive,
               if l.exhaustive then 0 else |RenderedCauses(e.causes)|))
  }

  /** The label is `bound` or dotted under it. */
  predicate Under(bound: string, name: string) {
    name == bound || (|name| > |bound| && name[..|bound|] == bound && name[|bound|] == '.')
  }

  lemma UnderIsAdmitted(bound: string, name: string)
    ensures Under(bound, name) <==> AdmitsOne(bound, name)
  {
    if |name| > |bound| {
      assert name[0..|bound| + 1] == name[..|bound|] + [name[|bound|]];
    }
    assert |bound + "."| == |bound| + 1 && (bound + ".")[..|bound|] == bound && (bound + ".")[|bound|] == '.';
  }

  /**
   An entry gets no row exactly when nothing but `mutate.local` is proven and every declared label lies under
   a proven one, or it has no labels at all, or it is exhaustive and comes from attribute writers alone.
   */
  lemma NoRowIff(e: Entry)
    requires Complete(e)
    ensures var l := LanesOf(e);
            RowOf(e).None? <==>
            || ((forall p :: p in l.proven ==> Under("mutate.local", p))
                && forall x :: x in l.declared ==> exists p :: p in l.proven && Under(p, x))
            || (l.proven == {} && l.declared == {})
            || (l.exhaustive && e.direct == {"construct:attr-writer"})
  {
    var l := LanesOf(e);
    forall a, b
      ensures Under(a, b) <==> AdmitsOne(a, b)
    {
      UnderIsAdmitted(a, b);
    }
    forall p
      ensures Admits(TRIVIAL_BOUND, p) <==> Under("mutate.local", p)
    {
      assert TRIVIAL_BOUND[0] == "mutate.local";
    }
  }

  /** What a cause is written as. */
  predicate Spells(c: Cause, s: string) {
    if c.detail == None || c.detail == Some("") then s == c.cause else s == c.cause + ("(" + (c.detail.value + ")"))
  }

  /** The count of a row that is not exhaustive: its causes, alike ones counted once. */
  lemma UnresolvedIs(e: Entry, spellings: set<string>)
    requires Complete(e) && RowOf(e).Some?
    requires forall s :: s in spellings <==> exists c :: c in e.causes && Spells(c, s)
    ensures RowOf(e).value.unresolved == if LanesOf(e).exhaustive then 0 else |spellings|
  {
    forall c: Cause, s
      ensures Spells(c, s) <==> RenderCause(c) == s
    {
      if c.detail.Some? {
        assert c.cause + "(" + c.detail.value + ")" == c.cause + ("(" + (c.detail.value + ")"));
      }
    }
    assert RenderedCauses(e.causes) == spellings by {
      forall s
        ensures s in RenderedCauses(e.causes) <==> s in spellings
      {
        if s in RenderedCauses(e.causes) {
          var i :| 0 <= i < |e.causes| && s == RenderCause(e.causes[i]);
          assert e.causes[i] in e.causes;
        }
        if s in spellings {
          var c :| c in e.causes && Spells(c, s);
          var i :| 0 <= i < |e.causes| && e.causes[i] == c;
        }
      }
    }
  }

  lemma SortedAdmits(s: set<string>, x: string)
    ensures Admits(Sorted(s), x) <==> exists p :: p in s && AdmitsOne(p, x)
  {
    var r := Sorted(s);
    if Admits(r, x) {
      var i :| 0 <= i < |r| && AdmitsOne(r[i], x);
      assert r[i] in r;
    }
    if p :| p in s && AdmitsOne(p, x) {
      assert p in r;
    }
  }

  lemma RenderedEmptyIff(l: Lanes)
    ensures ExcludingSubsumedBy(Sorted(l.declared), Sorted(l.proven)) == [] <==> forall x :: x in l.declared ==> Covered(l, x)
  {
    var rendered := ExcludingSubsumedBy(Sorted(l.declared), Sorted(l.proven));
    forall x
      ensures x in rendered <==> x in l.declared && !Covered(l, x)
    {
      SortedAdmits(l.proven, x);
    }
    if rendered != [] {
      assert rendered[0] in rendered;
    }
  }

  lemma SortedSubsumedIff(s: set<string>, bounds: seq<string>)
    ensures SubsumedBy(Sorted(s), bounds) <==> forall p :: p in s ==> Admits(bounds, p)
    ensures Sorted(s) == [] <==> s == {}
  {
    var r := Sorted(s);
    if SubsumedBy(r, bounds) {
      forall p | p in s
        ensures Admits(bounds, p)
      {
        var i :| 0 <= i < |r| && r[i] == p;
      }
    }
    if r != [] {
      assert r[0] in r;
    }
    if p :| p in s {
      assert p in r;
    }
  }

  /** The omission rule on sorted lists, as it is called, is `Dropped` on the lanes. */
  lemma OmitIsDropped(l: Lanes, origins: set<string>)
    ensures var proven, declared := Sorted(l.proven), Sorted(l.declared);
      var trivial := SubsumedBy(proven, TRIVIAL_BOUND) && ExcludingSubsumedBy(declared, proven) == [];
      Omit(trivial, l.exhaustive, origins, proven, declared) <==> Dropped(l, origins)
  {
    RenderedEmptyIff(l);
    SortedSubsumedIff(l.proven, TRIVIAL_BOUND);
    SortedSubsumedIff(l.declared, TRIVIAL_BOUND);
  }

  ghost predicate AllComplete(report: Report) {
    forall name :: name in report ==> Complete(report[name])
  }

  ghost function Synthesised(report: Report): (r: Table)
    requires AllComplete(report)
    ensures forall name :: name in r <==> name in report && RowOf(report[name]).Some?
    ensures forall name :: name in r ==> r[name] == RowOf(report[name]).value
  {
    map name | name in report && RowOf(report[name]).Some? :: RowOf(report[name]).value
  }

  /**
   The row as the port's side of the comparison builds it, from sorted lists and the omission
   rule. It is `None` exactly when the lanes and origins say so, and carries the lanes otherwise.
   */
  method RowFor(e: Entry) returns (row: Option<Row>)
    requires Complete(e)
    ensures row.None? <==> Dropped(LanesOf(e), e.direct)
    ensures row.Some? ==> Carries(row.value, LanesOf(e))
    ensures row == RowOf(e)
  {
    OmitIsDropped(LanesOf(e), e.direct);
    var proven := Sort(SetOf(e.effects));
    var declared := Sort(SetOf(e.declared));
    var exhaustive := e.exhaustive.value;
    var rendered := ExcludingSubsumedBy(declared, proven);
    var trivial := SubsumedBy(proven, TRIVIAL_BOUND) && rendered == [];
    if Omit(trivial, exhaustive, e.direct, proven, declared) {
      return None;
    }
    return Some(Row(proven, rendered, exhaustive, if exhaustive then 0 else |RenderedCauses(e.causes)|));
  }

  /** Build the table entry by entry; an incomplete entry makes the whole comparison invalid. */
  method Synthesise(report: Report) returns (r: Result<Table, ()>)
    ensures r.Ok? <==> AllComplete(report)
    ensures r.Ok? ==> r.value == Synthesised(report)
  {
    hide RowOf;
    var out: Table := map[];
    var todo := report.Keys;
    while todo != {}
      invariant todo <= report.Keys
      invariant forall name :: name in report && name !in todo ==> Complete(report[name])
      invariant forall name :: name in out <==> name in report && name !in todo && RowOf(report[name]).Some?
      invariant forall name :: name in out ==> out[name] == RowOf(report[name]).value
      decreases todo
    {
      var name :| name in todo;
      if !Complete(report[name]) {
        return Err(());
      }
      var row := RowFor(report[name]);
      if row.Some? {
        out := out[name := row.value];
      }
      todo := todo - {name};
    }
    return Ok(out);
  }

  // ---- the comparison of two tables --------------------------------------------------------

  datatype SnapshotTally = SnapshotTally(
    rowOmitted: nat, extraLabel: nat, claimsExhaustive: nat, mismatch: nat,
    absentRow: nat, missingLabel: nat, extraTaint: nat, unresolvedOnly: nat, matched: nat)
  {
    function Plus(t: SnapshotTally): SnapshotTally {
      SnapshotTally(rowOmitted + t.rowOmitted, extraLabel + t.extraLabel, claimsExhaustive + t.claimsExhaustive,
                    mismatch + t.mismatch, absentRow + t.absentRow, missingLabel + t.missingLabel,
                    extraTaint + t.extraTaint, unresolvedOnly + t.unresolvedOnly, matched + t.matched)
    }

    /** The `OVER` counter: its three kinds together. */
    function Over(): nat {
      rowOmitted + extraLabel + claimsExhaustive
    }
  }

  const NONE := SnapshotTally(0, 0, 0, 0, 0, 0, 0, 0, 0)

  function RowTally(gold: Row, row: Row): SnapshotTally {
    var extra := !(Labels(row.effects) <= Labels(gold.effects));
    var claims := row.exhaustive && !gold.exhaustive;
    var differs := row.declared != gold.declared;
    if extra || claims || differs then
      NONE.(extraLabel := Bit(extra), claimsExhaustive := Bit(claims), mismatch := Bit(differs))
    else if !(Labels(gold.effects) <= Labels(row.effects)) then NONE.(missingLabel := 1)
    else if gold.exhaustive && !row.exhaustive then NONE.(extraTaint := 1)
    else if row.unresolved != gold.unresolved then NONE.(unresolvedOnly := 1)
    else NONE.(matched := 1)
  }

  datatype SnapshotFinding = OmittedRow(name: string) | ExtraDirectLabels(name: string, extra: set<string>)
                           | ClaimsRowExhaustive(name: string) | RowDeclaredMismatch(name: string)

  function RowFindings(name: string, gold: Row, row: Row): seq<SnapshotFinding> {
    (if Labels(row.effects) <= Labels(gold.effects) then []
     else [ExtraDirectLabels(name, Labels(row.effects) - Labels(gold.effects))])
    + (if row.exhaustive && !gold.exhaustive then [ClaimsRowExhaustive(name)] else [])
    + (if row.declared != gold.declared then [RowDeclaredMismatch(name)] else [])
  }

  function NameTally(reference: Table, port: Table, name: string): SnapshotTally
    requires name in reference || name in port
  {
    if name !in port then NONE.(absentRow := 1)
    else if name !in reference then NONE.(rowOmitted := 1)
    else RowTally(reference[name], port[name])
  }

  function NameFindings(reference: Table, port: Table, name: string): seq<SnapshotFinding>
    requires name in reference || name in port
  {
    if name !in port then []
    else if name !in reference then [OmittedRow(name)]
    else RowFindings(name, reference[name], port[name])
  }

  predicate KnownRows(reference: Table, port: Table, names: seq<string>) {
    forall i :: 0 <= i < |names| ==> names[i] in reference || names[i] in port
  }

  function NamesTally(reference: Table, port: Table, names: seq<string>): SnapshotTally
    requires KnownRows(reference, port, names)
  {
    if names == [] then NONE
    else
      var n := |names| - 1;
      NamesTally(reference, port, names[..n]).Plus(NameTally(reference, port, names[n]))
  }

  function NamesFindings(reference: Table, port: Table, names: seq<string>): seq<SnapshotFinding>
    requires KnownRows(reference, port, names)
  {
    if names == [] then []
    else
      var n := |names| - 1;
      NamesFindings(reference, port, names[..n]) + NameFindings(reference, port, names[n])
  }

  /** The names of either table in sorted order. */
  ghost function RowNames(reference: Table, port: Table): (r: seq<string>)
    ensures KnownRows(reference, port, r)
    ensures forall name :: name in r <==> name in reference || name in port
  {
    var r := Sorted(reference.Keys + port.Keys);
    assert forall i :: 0 <= i < |r| ==> r[i] in r;
    r
  }

  method JudgeRow(name: string, gold: Row, row: Row, verdicts0: SnapshotTally, findings0: seq<SnapshotFinding>)
    returns (verdicts: SnapshotTally, findings: seq<SnapshotFinding>)
    ensures verdicts == verdicts0.Plus(RowTally(gold, row))
    ensures findings == findings0 + RowFindings(name, gold, row)
  {
    verdicts, findings := verdicts0, findings0;
    var overLabels := Labels(row.effects) - Labels(gold.effects);
    var underLabels := Labels(gold.effects) - Labels(row.effects);
    EmptyDifference(Labels(row.effects), Labels(gold.effects));
    EmptyDifference(Labels(gold.effects), Labels(row.effects));
    var fatal := false;
    if overLabels != {} {
      verdicts, fatal := verdicts.(extraLabel := verdicts.extraLabel + 1), true;
      findings := findings + [ExtraDirectLabels(name, overLabels)];
    }
    if row.exhaustive && !gold.exhaustive {
      verdicts, fatal := verdicts.(claimsExhaustive := verdicts.claimsExhaustive + 1), true;
      findings := findings + [ClaimsRowExhaustive(name)];
    }
    if row.declared != gold.declared {
      verdicts, fatal := verdicts.(mismatch := verdicts.mismatch + 1), true;
      findings := findings + [RowDeclaredMismatch(name)];
    }
    if fatal {
      return;
    }
    if underLabels != {} {
      verdicts := verdicts.(missingLabel := verdicts.missingLabel + 1);
    } else if gold.exhaustive && !row.exhaustive {
      verdicts := verdicts.(extraTaint := verdicts.extraTaint + 1);
    } else if row.unresolved != gold.unresolved {
      verdicts := verdicts.(unresolvedOnly := verdicts.unresolvedOnly + 1);
    } else {
      verdicts := verdicts.(matched := verdicts.matched + 1);
    }
  }

  method JudgeName(reference: Table, port: Table, name: string, verdicts0: SnapshotTally, findings0: seq<SnapshotFinding>)
    returns (verdicts: SnapshotTally, findings: seq<SnapshotFinding>)
    requires name in reference || name in port
    ensures verdicts == verdicts0.Plus(NameTally(reference, port, name))
    ensures findings == findings0 + NameFindings(reference, port, name)
  {
    verdicts, findings := verdicts0, findings0;
    if name !in port {
      verdicts := verdicts.(absentRow := verdicts.absentRow + 1);
    } else if name !in reference {
      verdicts := verdicts.(rowOmitted := verdicts.rowOmitted + 1);
      findings := findings + [OmittedRow(name)];
    } else {
      verdicts, findings := JudgeRow(name, reference[name], port[name], verdicts, findings);
    }
  }

  lemma NamesTallyStep(reference: Table, port: Table, names: seq<string>, i: nat)
    requires KnownRows(reference, port, names) && i < |names|
    ensures KnownRows(reference, port, names[..i]) && KnownRows(reference, port, names[..i + 1])
    ensures NamesTally(reference, port, names[..i + 1]) ==
            NamesTally(reference, port, names[..i]).Plus(NameTally(reference, port, names[i]))
    ensures NamesFindings(reference, port, names[..i + 1]) ==
            NamesFindings(reference, port, names[..i]) + NameFindings(reference, port, names[i])
  {
    assert names[..i + 1][..i] == names[..i];
  }

  /** The comparison over a list of names. */
  method CompareRows(reference: Table, port: Table, names: seq<string>)
    returns (verdicts: SnapshotTally, findings: seq<SnapshotFinding>)
    requires KnownRows(reference, port, names)
    ensures verdicts == NamesTally(reference, port, names)
    ensures findings == NamesFindings(reference, port, names)
  {
    verdicts, findings := NONE, [];
    for i := 0 to |names|
      invariant KnownRows(reference, port, names[..i])
      invariant verdicts == NamesTally(reference, port, names[..i])
      invariant findings == NamesFindings(reference, port, names[..i])
    {
      NamesTallyStep(reference, port, names, i);
      verdicts, findings := JudgeName(reference, port, names[i], verdicts, findings);
    }
    assert names[..|names|] == names;
  }

  /** The comparison of two tables, name by name in sorted order. */
  method CompareTables(reference: Table, port: Table) returns (verdicts: SnapshotTally, findings: seq<SnapshotFinding>)
    ensures verdicts == NamesTally(reference, port, RowNames(reference, port))
    ensures findings == NamesFindings(reference, port, RowNames(reference, port))
  {
    var names := Sort(reference.Keys + port.Keys);
    assert names == RowNames(reference, port);
    verdicts, findings := CompareRows(reference, port, names);
  }

  // ---- a clean report, seen as snapshots ------------------------------------------------------

  predicate NoOverClaim(t: SnapshotTally) {
    t.rowOmitted == 0 && t.extraLabel == 0 && t.claimsExhaustive == 0
  }

  lemma CarriedTally(gold: Row, row: Row, r: Lanes, s: Lanes)
    requires Carries(gold, r) && Carries(row, s) && LaneRefines(r, s)
    ensures NoOverClaim(RowTally(gold, row))
    ensures RowTally(gold, row).mismatch > 0 ==> s.proven < r.proven
  {
    if s.proven == r.proven {
      assert row.declared == gold.declared;
    } else {
      assert s.proven < r.proven;
    }
  }

  /**
   When the report gate passes, rows that both snapshots carry are never over-claimed.
   Their declared lanes can differ only where the port lacks a proven label, through
   the rendering of the declared lane.
   */
  lemma CleanReportRow(reference: Report, port: Report, name: string)
    requires AllComplete(reference) && AllComplete(port) && Refines(reference, port)
    requires name in Synthesised(reference) && name in Synthesised(port)
    ensures var t := RowTally(Synthesised(reference)[name], Synthesised(port)[name]);
            && NoOverClaim(t)
            && (t.mismatch > 0 ==> LanesOf(port[name]).proven < LanesOf(reference[name]).proven)
  {
    assert RefinesOn(reference, port, name);
    var a, b := Synthesised(reference)[name], Synthesised(port)[name];
    CarriedTally(a, b, LanesOf(reference[name]), LanesOf(port[name]));
  }

  /** Some row is in the port's table and not in the reference's. */
  predicate Manufactured(reference: Table, port: Table, names: seq<string>) {
    names != [] &&
    (Manufactured(reference, port, names[..|names| - 1])
     || (names[|names| - 1] in port && names[|names| - 1] !in reference))
  }

  lemma {:induction false} ManufacturedSome(reference: Table, port: Table, names: seq<string>)
    ensures Manufactured(reference, port, names) <==> exists name :: name in names && name in port && name !in reference
  {
    if names != [] {
      ManufacturedSome(reference, port, names[..|names| - 1]);
      assert names == names[..|names| - 1] + [names[|names| - 1]];
    }
  }

  predicate SharedClean(reference: Table, port: Table) {
    forall name :: name in reference && name in port ==> NoOverClaim(RowTally(reference[name], port[name]))
  }

  lemma {:induction false} SharedCleanOver(reference: Table, port: Table, names: seq<string>)
    requires KnownRows(reference, port, names) && SharedClean(reference, port)
    ensures var t := NamesTally(reference, port, names);
            && t.extraLabel == 0 && t.claimsExhaustive == 0
            && (t.Over() > 0 <==> Manufactured(reference, port, names))
  {
    if names != [] {
      var n := |names| - 1;
      NamesTallyStep(reference, port, names, n);
      assert names[..n + 1] == names;
      SharedCleanOver(reference, port, names[..n]);
    }
  }

  // ---- when a row is manufactured ----------------------------------------------------------------

  /** The reference's row is trivial, and the port has lost the label that covers a declared one. */
  predicate CoverLost(r: Lanes, s: Lanes) {
    Trivial(r) && exists x :: x in s.declared && !Covered(s, x)
  }

  /** The reference drops the row as synthesised; the port, more tainted or with other origins, does not. */
  predicate BundleLost(r: Lanes, origins: set<string>, s: Lanes) {
    Bundled(r, origins) && !Trivial(s) && !Bare(s)
  }

  /** The port's entry gets a row although the reference's gets none. */
  predicate Manufactures(r: Lanes, rOrigins: set<string>, s: Lanes, sOrigins: set<string>) {
    (!s.exhaustive || sOrigins == {} || !(sOrigins <= SYNTHESISED_ORIGINS))
    && (CoverLost(r, s) || BundleLost(r, rOrigins, s))
  }

  /**
   Two entries that pass the report gate: the reference's is dropped and the port's kept
   exactly on one of two routes. A label lost by the port leaves a declared label
   uncovered in a row that was trivial, or a row dropped as synthesised loses its
   exhaustiveness or has other origins.
   */
  lemma ManufacturesIff(r: Lanes, rOrigins: set<string>, s: Lanes, sOrigins: set<string>)
    requires LaneRefines(r, s)
    ensures Dropped(r, rOrigins) && !Dropped(s, sOrigins) <==> Manufactures(r, rOrigins, s, sOrigins)
  {
    if Trivial(r) && !Trivial(s) {
      assert forall p :: p in s.proven ==> Admits(TRIVIAL_BOUND, p);
      var x :| x in s.declared && !Covered(s, x);
    }
    if CoverLost(r, s) {
      var x :| x in s.declared && !Covered(s, x);
      assert !Trivial(s) && !Bare(s);
    }
  }

  /** The port's taint alone keeps a row exactly when only the clause on synthesised bundles would drop it. */
  lemma TaintKeepsIff(e: Entry)
    requires Complete(e)
    ensures RowOf(e.(exhaustive := Some(false))).Some? && RowOf(e.(exhaustive := Some(true))).None? <==>
            var l := LanesOf(e);
            !Trivial(l) && (l.proven != {} || l.declared != {}) && e.direct != {} && e.direct <= SYNTHESISED_ORIGINS
  {
    var clean, tainted := LanesOf(e.(exhaustive := Some(true))), LanesOf(e.(exhaustive := Some(false)));
    TrivialIgnoresTaint(LanesOf(e), clean);
    TrivialIgnoresTaint(LanesOf(e), tainted);
  }

  lemma TrivialIgnoresTaint(a: Lanes, b: Lanes)
    requires a.proven == b.proven && a.declared == b.declared
    ensures Trivial(a) <==> Trivial(b)
  {
    assert forall x :: Covered(a, x) <==> Covered(b, x);
  }

  /** The entries of a method both reports have take one of the routes. */
  predicate TakesARoute(reference: Report, port: Report, name: string) {
    && name in reference && reference[name].Dict? && name in port && port[name].Dict?
    && Manufactures(LanesOf(reference[name]), reference[name].direct, LanesOf(port[name]), port[name].direct)
  }

  lemma RowManufacturedIff(reference: Report, port: Report, name: string)
    requires AllComplete(reference) && AllComplete(port) && Refines(reference, port)
    ensures name in Synthesised(port) && name !in Synthesised(reference) <==>
            TakesARoute(reference, port, name)
  {
    hide Manufactures, Dropped, RowOf;
    assert RefinesOn(reference, port, name);
    if name in port {
      ManufacturesIff(LanesOf(reference[name]), reference[name].direct, LanesOf(port[name]), port[name].direct);
    }
  }

  /**
   When the report gate passes, the snapshot comparison over-claims in one way only, a
   row that the reference's snapshot omits, and exactly when some entry of the two
   reports takes one of the two routes.
   */
  lemma CleanReportSnapshot(reference: Report, port: Report)
    requires AllComplete(reference) && AllComplete(port) && Refines(reference, port)
    ensures var a, b := Synthesised(reference), Synthesised(port);
            var t := NamesTally(a, b, RowNames(a, b));
            && t.extraLabel == 0 && t.claimsExhaustive == 0
            && (t.Over() > 0 <==> exists name :: TakesARoute(reference, port, name))
  {
    hide TakesARoute, RowOf, NoOverClaim, RowTally;
    var a, b := Synthesised(reference), Synthesised(port);
    forall name | name in a && name in b
      ensures NoOverClaim(RowTally(a[name], b[name]))
    {
      CleanReportRow(reference, port, name);
    }
    SharedCleanOver(a, b, RowNames(a, b));
    ManufacturedSome(a, b, RowNames(a, b));
    forall name
      ensures name in b && name !in a <==> TakesARoute(reference, port, name)
    {
      RowManufacturedIff(reference, port, name);
    }
  }

  /** The first route: nothing is more tainted, and a lost label alone writes a row the reference does not carry. */
  lemma LostLabelManufacturesRow(name: string)
    ensures var gold := Dict(Some(["mutate.local"]), Some(["mutate.local"]), Some(true), {}, []);
            var mine := gold.(effects := Some([]));
            var reference, port: Report := map[name := gold], map[name := mine];
            && AllComplete(reference) && AllComplete(port) && Refines(reference, port)
            && name in Synthesised(port) && name !in Synthesised(reference)
  {
    var gold := Dict(Some(["mutate.local"]), Some(["mutate.local"]), Some(true), {}, []);
    var mine := gold.(effects := Some([]));
    var reference, port: Report := map[name := gold], map[name := mine];
    var r, s := LanesOf(gold), LanesOf(mine);
    assert r.proven == {"mutate.local"} && r.declared == {"mutate.local"} && s.proven == {};
    assert AdmitsOne(TRIVIAL_BOUND[0], "mutate.local") && Covered(r, "mutate.local");
    assert "mutate.local" in s.declared && !Covered(s, "mutate.local");
    RowManufacturedIff(reference, port, name);
  }

  /** The second route: a port that is merely more tainted writes a row that the reference's snapshot does not carry. */
  lemma TaintManufacturesRow(name: string)
    ensures var bundles := SYNTHESISED_ORIGINS;
            var gold := Dict(Some(["io"]), None, Some(true), bundles, []);
            var mine := gold.(exhaustive := Some(false));
            var reference, port: Report := map[name := gold], map[name := mine];
            && AllComplete(reference) && AllComplete(port)
            && Refines(reference, port)
            && name in Synthesised(port) && name !in Synthesised(reference)
  {
    var gold := Dict(Some(["io"]), None, Some(true), SYNTHESISED_ORIGINS, []);
    var mine := gold.(exhaustive := Some(false));
    assert LanesOf(mine).proven == {"io"};
    assert !AdmitsOne(TRIVIAL_BOUND[0], "io") && !Admits(TRIVIAL_BOUND, "io");
    RowManufacturedIff(map[name := gold], map[name := mine], name);
  }
}
