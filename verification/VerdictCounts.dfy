/** What the counters and findings of the snapshot comparison stand for: which rows have each verdict, and how many. */
module VerdictCounts {
  import opened Ordering
  import opened EffectReport
  import opened EffectSnapshot

  // ---- the verdict on one name ------------------------------------------------------------------

  datatype Verdict = Omitted | Extra | Claims | Differs | Absent | Missing | Tainted | Recounted | Matches

  /** The port's row claims no more than the reference's. */
  ghost predicate RowRefines(gold: Row, row: Row) {
    && (forall x :: x in row.effects ==> x in gold.effects)
    && (row.exhaustive ==> gold.exhaustive)
    && row.declared == gold.declared
  }

  ghost predicate SameLabels(gold: Row, row: Row) {
    forall x :: x in row.effects <==> x in gold.effects
  }

  ghost predicate SameRow(gold: Row, row: Row) {
    SameLabels(gold, row) && row.exhaustive == gold.exhaustive && row.declared == gold.declared
  }

  /** The verdict `v` applies to a row that both tables have. */
  ghost predicate Shared(gold: Row, row: Row, v: Verdict) {
    match v
    case Extra => exists x :: x in row.effects && x !in gold.effects
    case Claims => row.exhaustive && !gold.exhaustive
    case Differs => row.declared != gold.declared
    case Missing => RowRefines(gold, row) && exists x :: x in gold.effects && x !in row.effects
    case Tainted => RowRefines(gold, row) && SameLabels(gold, row) && gold.exhaustive && !row.exhaustive
    case Recounted => SameRow(gold, row) && row.unresolved != gold.unresolved
    case Matches => SameRow(gold, row) && row.unresolved == gold.unresolved
    case _ => false
  }

  /** The verdict `v` applies to the name. */
  ghost predicate Judged(reference: Table, port: Table, name: string, v: Verdict) {
    if name in reference && name in port then Shared(reference[name], port[name], v)
    else if name in port then v == Omitted
    else name in reference && v == Absent
  }

  lemma LabelsWithin(a: seq<string>, b: seq<string>)
    ensures Labels(a) <= Labels(b) <==> forall x :: x in a ==> x in b
    ensures !(Labels(a) <= Labels(b)) <==> exists x :: x in a && x !in b
  {
    if Labels(a) <= Labels(b) {
      forall x | x in a
        ensures x in b
      {
        assert x in Labels(a);
      }
    }
  }

  ghost function TallyOf(has: Verdict -> nat): SnapshotTally {
    SnapshotTally(has(Omitted), has(Extra), has(Claims), has(Differs), has(Absent), has(Missing), has(Tainted),
                  has(Recounted), has(Matches))
  }

  ghost function OneOf(reference: Table, port: Table, name: string): Verdict -> nat {
    (v: Verdict) => Bit(Judged(reference, port, name, v))
  }

  lemma SharedVerdict(gold: Row, row: Row)
    ensures RowTally(gold, row) == TallyOf(v => Bit(Shared(gold, row, v)))
  {
    LabelsWithin(row.effects, gold.effects);
    LabelsWithin(gold.effects, row.effects);
  }

  /** The counters of one name are its verdicts. */
  lemma NameVerdict(reference: Table, port: Table, name: string)
    requires name in reference || name in port
    ensures NameTally(reference, port, name) == TallyOf(OneOf(reference, port, name))
  {
    hide RowTally, Shared;
    if name in reference && name in port {
      SharedVerdict(reference[name], port[name]);
    }
  }

  /** A name that is fatal in no way has one verdict; a match stands alone. */
  lemma OneVerdict(reference: Table, port: Table, name: string)
    requires name in reference || name in port
    ensures exists v :: Judged(reference, port, name, v)
    ensures forall v, w :: Judged(reference, port, name, v) && Judged(reference, port, name, w) && v != w ==>
              v in {Extra, Claims, Differs} && w in {Extra, Claims, Differs}
  {
    if name in reference && name in port {
      var gold, row := reference[name], port[name];
      var v := if exists x :: x in row.effects && x !in gold.effects then Extra
               else if row.exhaustive && !gold.exhaustive then Claims
               else if row.declared != gold.declared then Differs
               else if exists x :: x in gold.effects && x !in row.effects then Missing
               else if gold.exhaustive && !row.exhaustive then Tainted
               else if row.unresolved != gold.unresolved then Recounted else Matches;
      assert Judged(reference, port, name, v);
    } else {
      assert Judged(reference, port, name, if name in port then Omitted else Absent);
    }
  }

  // ---- all names ------------------------------------------------------------------------------------

  ghost function Count(names: seq<string>, p: string -> bool): nat {
    if names == [] then 0 else Count(names[..|names| - 1], p) + Bit(p(names[|names| - 1]))
  }

  ghost function JudgedAs(reference: Table, port: Table, v: Verdict): string -> bool {
    (name: string) => Judged(reference, port, name, v)
  }

  ghost function CountsOf(reference: Table, port: Table, names: seq<string>): Verdict -> nat {
    (v: Verdict) => Count(names, JudgedAs(reference, port, v))
  }

  lemma TallyPlus(all: Verdict -> nat, before: Verdict -> nat, one: Verdict -> nat)
    requires forall v :: all(v) == before(v) + one(v)
    ensures TallyOf(all) == TallyOf(before).Plus(TallyOf(one))
  {
  }

  lemma CountStep(reference: Table, port: Table, names: seq<string>, v: Verdict)
    requires names != []
    ensures CountsOf(reference, port, names)(v) ==
            CountsOf(reference, port, names[..|names| - 1])(v) + OneOf(reference, port, names[|names| - 1])(v)
  {
  }

  lemma NoneCounted(reference: Table, port: Table)
    ensures TallyOf(CountsOf(reference, port, [])) == NONE
  {
  }

  lemma {:induction false} Counted(reference: Table, port: Table, names: seq<string>)
    requires KnownRows(reference, port, names)
    ensures NamesTally(reference, port, names) == TallyOf(CountsOf(reference, port, names))
  {
    hide Judged, NameTally, TallyOf, OneOf;
    if names == [] {
      NoneCounted(reference, port);
    } else {
      var front, last := names[..|names| - 1], names[|names| - 1];
      Counted(reference, port, front);
      NameVerdict(reference, port, last);
      forall v: Verdict
        ensures CountsOf(reference, port, names)(v) == CountsOf(reference, port, front)(v) + OneOf(reference, port, last)(v)
      {
        CountStep(reference, port, names, v);
      }
      TallyPlus(CountsOf(reference, port, names), CountsOf(reference, port, front), OneOf(reference, port, last));
    }
  }

  ghost function Those(names: seq<string>, p: string -> bool): set<string> {
    set x | x in names && p(x)
  }

  lemma ThoseStep(front: seq<string>, last: string, p: string -> bool)
    requires last !in front
    ensures |Those(front + [last], p)| == |Those(front, p)| + Bit(p(last))
  {
    assert Those(front + [last], p) == if p(last) then Those(front, p) + {last} else Those(front, p);
  }

  lemma {:induction false} CountCard(names: seq<string>, p: string -> bool)
    requires forall i, j :: 0 <= i < j < |names| ==> names[i] != names[j]
    ensures Count(names, p) == |Those(names, p)|
  {
    if names == [] {
      assert Those(names, p) == {};
    } else {
      var front, last := names[..|names| - 1], names[|names| - 1];
      CountCard(front, p);
      assert names == front + [last] && last !in front;
      ThoseStep(front, last, p);
    }
  }

  /** The names with a verdict. */
  ghost function With(reference: Table, port: Table, v: Verdict): set<string> {
    set name | name in reference.Keys + port.Keys && Judged(reference, port, name, v)
  }

  ghost function CardsOf(reference: Table, port: Table): Verdict -> nat {
    (v: Verdict) => |With(reference, port, v)|
  }

  /** Every counter of the comparison is the number of names with its verdict. */
  lemma CountersCount(reference: Table, port: Table)
    ensures NamesTally(reference, port, RowNames(reference, port)) == TallyOf(CardsOf(reference, port))
  {
    hide Judged, NamesTally;
    var names := RowNames(reference, port);
    Counted(reference, port, names);
    SortsDistinct(names, reference.Keys + port.Keys);
    forall v: Verdict
      ensures CountsOf(reference, port, names)(v) == CardsOf(reference, port)(v)
    {
      CountCard(names, JudgedAs(reference, port, v));
      assert Those(names, JudgedAs(reference, port, v)) == With(reference, port, v);
    }
  }

  // ---- the gate ---------------------------------------------------------------------------------------

  /** The port's table claims no more than the reference's: no row of its own, and refined rows. */
  ghost predicate TableRefines(reference: Table, port: Table) {
    forall name :: name in port ==> name in reference && RowRefines(reference[name], port[name])
  }

  ghost predicate SameTables(reference: Table, port: Table) {
    && reference.Keys == port.Keys
    && forall name :: name in port ==> SameRow(reference[name], port[name]) && port[name].unresolved == reference[name].unresolved
  }

  lemma NoneWith(reference: Table, port: Table, v: Verdict)
    ensures |With(reference, port, v)| == 0 <==>
            forall name :: name in reference || name in port ==> !Judged(reference, port, name, v)
  {
    if forall name :: name in reference || name in port ==> !Judged(reference, port, name, v) {
      assert With(reference, port, v) == {};
    }
    if |With(reference, port, v)| == 0 {
      forall name | name in reference || name in port
        ensures !Judged(reference, port, name, v)
      {
        assert name !in With(reference, port, v);
      }
    }
  }

  lemma FatalIff(reference: Table, port: Table)
    ensures TableRefines(reference, port) <==>
            forall name, v :: (name in reference || name in port) && v in {Omitted, Extra, Claims, Differs} ==>
              !Judged(reference, port, name, v)
  {
    forall name | name in port
      ensures name in reference && RowRefines(reference[name], port[name]) <==>
              forall v :: v in {Omitted, Extra, Claims, Differs} ==> !Judged(reference, port, name, v)
    {
      FatalOn(reference, port, name);
    }
  }

  lemma FatalOn(reference: Table, port: Table, name: string)
    requires name in port
    ensures name in reference && RowRefines(reference[name], port[name]) <==>
            forall v :: v in {Omitted, Extra, Claims, Differs} ==> !Judged(reference, port, name, v)
  {
    assert Judged(reference, port, name, Omitted) <==> name !in reference;
    if name in reference {
      var gold, row := reference[name], port[name];
      assert Judged(reference, port, name, Extra) <==> exists x :: x in row.effects && x !in gold.effects;
      assert Judged(reference, port, name, Claims) <==> row.exhaustive && !gold.exhaustive;
      assert Judged(reference, port, name, Differs) <==> row.declared != gold.declared;
    }
  }

  /** Nothing is over-claimed or mismatched exactly when the port's table claims no more than the reference's. */
  lemma SnapshotGateIff(reference: Table, port: Table)
    ensures var t := NamesTally(reference, port, RowNames(reference, port));
            t.Over() == 0 && t.mismatch == 0 <==> TableRefines(reference, port)
  {
    hide NamesTally, With, Judged, TableRefines, RowNames;
    CountersCount(reference, port);
    NoneWith(reference, port, Omitted);
    NoneWith(reference, port, Extra);
    NoneWith(reference, port, Claims);
    NoneWith(reference, port, Differs);
    FatalIff(reference, port);
  }

  lemma AllIn(a: set<string>, b: set<string>)
    requires a <= b
    ensures |a| <= |b| && (|a| == |b| <==> a == b)
  {
    assert |b| == |a| + |b - a| by { assert a + (b - a) == b; }
    if |a| == |b| {
      assert b - a == {};
      assert a == b;
    }
  }

  lemma NamesCard(reference: Table, port: Table)
    ensures |RowNames(reference, port)| == |reference.Keys + port.Keys|
  {
    ListCard(RowNames(reference, port), reference.Keys + port.Keys);
  }

  lemma {:induction false} ListCard(r: seq<string>, s: set<string>)
    requires Sorts(r, s)
    ensures |r| == |s|
  {
    if r == [] {
      assert s == {};
    } else {
      SortsTail(r, s);
      ListCard(r[1..], s - {r[0]});
    }
  }

  lemma WithinAll(reference: Table, port: Table)
    ensures With(reference, port, Matches) <= reference.Keys + port.Keys
  {
  }

  lemma AllMatchSame(reference: Table, port: Table)
    ensures With(reference, port, Matches) == reference.Keys + port.Keys <==> SameTables(reference, port)
  {
    var matching, all := With(reference, port, Matches), reference.Keys + port.Keys;
    if matching == all {
      forall name | name in all
        ensures name in reference && name in port && Shared(reference[name], port[name], Matches)
      {
        assert name in matching;
      }
      assert reference.Keys == port.Keys;
    }
    if SameTables(reference, port) {
      assert forall name :: name in all ==> Judged(reference, port, name, Matches);
      assert matching == all;
    }
  }

  /** Every name matches exactly when the tables hold the same names with the same contents, labels compared as sets. */
  lemma AllRowsMatchIff(reference: Table, port: Table)
    ensures NamesTally(reference, port, RowNames(reference, port)).matched == |RowNames(reference, port)|
            <==> SameTables(reference, port)
  {
    hide NamesTally, With, SameTables, RowNames;
    CountersCount(reference, port);
    NamesCard(reference, port);
    WithinAll(reference, port);
    AllIn(With(reference, port, Matches), reference.Keys + port.Keys);
    AllMatchSame(reference, port);
  }

  // ---- the findings -------------------------------------------------------------------------------------

  /** What a finding says is so. */
  ghost predicate Holds(reference: Table, port: Table, f: SnapshotFinding) {
    match f
    case OmittedRow(name) => name in port && name !in reference
    case ExtraDirectLabels(name, extra) =>
      name in reference && name in port && extra != {}
      && forall x :: x in extra <==> x in port[name].effects && x !in reference[name].effects
    case ClaimsRowExhaustive(name) =>
      name in reference && name in port && port[name].exhaustive && !reference[name].exhaustive
    case RowDeclaredMismatch(name) => name in reference && name in port && port[name].declared != reference[name].declared
  }

  ghost function NameOf(f: SnapshotFinding): string {
    f.name
  }

  lemma FindingsOfRow(reference: Table, port: Table, name: string, f: SnapshotFinding)
    requires name in reference || name in port
    ensures f in NameFindings(reference, port, name) <==> NameOf(f) == name && Holds(reference, port, f)
  {
    if name in reference && name in port {
      var gold, row := reference[name], port[name];
      LabelsWithin(row.effects, gold.effects);
      var extra := Labels(row.effects) - Labels(gold.effects);
      EmptyDifference(Labels(row.effects), Labels(gold.effects));
      if f.ExtraDirectLabels? && f.name == name && Holds(reference, port, f) {
        assert f.extra == extra;
      }
    }
  }

  lemma {:induction false} FindingsAmong(reference: Table, port: Table, names: seq<string>, f: SnapshotFinding)
    requires KnownRows(reference, port, names)
    ensures f in NamesFindings(reference, port, names) <==> NameOf(f) in names && Holds(reference, port, f)
  {
    hide Holds, NameFindings;
    if names != [] {
      var front, last := names[..|names| - 1], names[|names| - 1];
      FindingsAmong(reference, port, front, f);
      FindingsOfRow(reference, port, last, f);
      assert names == front + [last];
    }
  }

  lemma RowFindingLength(name: string, gold: Row, row: Row)
    ensures var t := RowTally(gold, row); |RowFindings(name, gold, row)| == t.Over() + t.mismatch
  {
    hide Labels;
  }

  lemma FindingLength(reference: Table, port: Table, name: string)
    requires name in reference || name in port
    ensures var t := NameTally(reference, port, name); |NameFindings(reference, port, name)| == t.Over() + t.mismatch
  {
    hide RowFindings, RowTally;
    if name in reference && name in port {
      RowFindingLength(name, reference[name], port[name]);
    }
  }

  lemma {:induction false} FindingsLength(reference: Table, port: Table, names: seq<string>)
    requires KnownRows(reference, port, names)
    ensures var t := NamesTally(reference, port, names); |NamesFindings(reference, port, names)| == t.Over() + t.mismatch
  {
    hide NameFindings, NameTally;
    if names != [] {
      FindingsLength(reference, port, names[..|names| - 1]);
      FindingLength(reference, port, names[|names| - 1]);
    }
  }

  /** The comparison lists exactly the findings that hold, one for each fatal verdict. */
  lemma FindingsIff(reference: Table, port: Table)
    ensures forall f :: f in NamesFindings(reference, port, RowNames(reference, port)) <==> Holds(reference, port, f)
    ensures var t := NamesTally(reference, port, RowNames(reference, port));
            |NamesFindings(reference, port, RowNames(reference, port))| == t.Over() + t.mismatch
  {
    hide NamesFindings, NamesTally;
    var names := RowNames(reference, port);
    forall f
      ensures f in NamesFindings(reference, port, names) <==> Holds(reference, port, f)
    {
      FindingsAmong(reference, port, names, f);
    }
    FindingsLength(reference, port, names);
  }
}
