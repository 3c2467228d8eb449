/** Auditing a baseline against a stream, pruning it, and how both agree with the filter. */
module Audit {
  import opened Wrappers
  import opened Grouping
  import opened Baseline
  import opened Filter
  import opened FilterLaws

  datatype DriftStatus = Over | Cleared | Reducible | Within

  datatype DriftRow = DriftRow(bucket: Bucket, actual: nat, status: DriftStatus, delta: int)

  function StatusFor(actual: nat, count: nat): DriftStatus {
    if actual == 0 then Cleared
    else if actual > count then Over
    else if actual == count then Within
    else Reducible
  }

  function AuditRow(rx: Engine, rows: seq<Bucket>, es: seq<Entry>, b: Bucket): DriftRow {
    var actual := Actual(rx, rows, es, KeyOf(b));
    DriftRow(b, actual, StatusFor(actual, b.count), actual - b.count)
  }

  ghost predicate CountsAgree(seen: seq<Option<BinKey>>, counts: map<RowKey, nat>) {
    forall k :: CountIn(counts, k) == |Occurrences(seen, Claimed(k))|
  }

  function CountIn(counts: map<RowKey, nat>, k: RowKey): nat {
    if k in counts then counts[k] else 0
  }

  lemma CountsAgreeStep(seen: seq<Option<BinKey>>, counts: map<RowKey, nat>, o: Option<BinKey>, counts': map<RowKey, nat>)
    requires CountsAgree(seen, counts)
    requires counts' == if o.Some? && o.value.Claimed? then counts[o.value.row := CountIn(counts, o.value.row) + 1] else counts
    ensures CountsAgree(seen + [o], counts')
  {
    forall k
      ensures CountIn(counts', k) == |Occurrences(seen + [o], Claimed(k))|
    {
      OccurrencesStep(seen, o, Claimed(k));
    }
  }

  lemma BinOfClaim(rx: Engine, rows: seq<Bucket>, e: Entry)
    ensures match Claim(rx, rows, e)
            case Some(i) => i < |rows| && BinOf(rx, rows, e) == Some(Claimed(KeyOf(rows[i])))
            case None => BinOf(rx, rows, e).Some? ==> BinOf(rx, rows, e).value.NoBucket?
  {
    if e.rule.None? {
      RulelessIsUnclaimed(rx, rows, e);
    }
  }

  /** One pass over the stream, counting claims per row key. */
  method CountClaims(rx: Engine, rows: seq<Bucket>, es: seq<Entry>) returns (counts: map<RowKey, nat>)
    ensures CountsAgree(Bins(rx, rows, es), counts)
  {
    hide Takes, Claim;
    ghost var ks := Bins(rx, rows, es);
    ghost var seen: seq<Option<BinKey>> := [];
    counts := map[];
    for i := 0 to |es|
      invariant seen == ks[..i]
      invariant CountsAgree(seen, counts)
    {
      var claim := ClaimBucket(rx, rows, es[i]);
      BinOfClaim(rx, rows, es[i]);
      ghost var counts0 := counts;
      if claim.Some? {
        var key := KeyOf(rows[claim.value]);
        counts := counts[key := CountIn(counts, key) + 1];
      }
      CountsAgreeStep(seen, counts0, ks[i], counts);
      seen := seen + [ks[i]];
    }
    assert seen == ks;
  }

  /** The audit: count the claims per row key, then report every row in file order. */
  method AuditStream(rx: Engine, rows: seq<Bucket>, es: seq<Entry>) returns (drift: seq<DriftRow>)
    ensures |drift| == |rows|
    ensures forall r :: 0 <= r < |rows| ==> drift[r] == AuditRow(rx, rows, es, rows[r])
  {
    hide Bins, Occurrences, StatusFor;
    var counts := CountClaims(rx, rows, es);
    drift := [];
    for r := 0 to |rows|
      invariant |drift| == r
      invariant forall x :: 0 <= x < r ==> drift[x] == AuditRow(rx, rows, es, rows[x])
    {
      var b := rows[r];
      var actual := CountIn(counts, KeyOf(b));
      drift := drift + [DriftRow(b, actual, StatusFor(actual, b.count), actual - b.count)];
    }
  }

  // ---- what the audit reports ------------------------------------------------

  /** The positions of the diagnostics that a row of this key claims. */
  ghost function ClaimedUnder(rx: Engine, rows: seq<Bucket>, es: seq<Entry>, k: RowKey): set<nat> {
    set i: nat | i < |es| && Claim(rx, rows, es[i]).Some? && KeyOf(rows[Claim(rx, rows, es[i]).value]) == k
  }

  lemma ActualCard(rx: Engine, rows: seq<Bucket>, es: seq<Entry>, k: RowKey)
    ensures Actual(rx, rows, es, k) == |ClaimedUnder(rx, rows, es, k)|
  {
    var ks := Bins(rx, rows, es);
    forall i: nat | i < |es|
      ensures ks[i] == Some(Claimed(k)) <==> i in ClaimedUnder(rx, rows, es, k)
    {
      BinOfClaim(rx, rows, es[i]);
    }
    OccurrencesCard(ks, Claimed(k));
    assert Positions(ks, Claimed(k)) == ClaimedUnder(rx, rows, es, k);
  }

  /** Each row's report: how many diagnostics its key claims, how far that is above the recorded count, and the status. */
  lemma DriftMeans(rx: Engine, rows: seq<Bucket>, es: seq<Entry>, r: nat)
    requires r < |rows|
    ensures var d, n := AuditRow(rx, rows, es, rows[r]), |ClaimedUnder(rx, rows, es, KeyOf(rows[r]))|;
            && d.bucket == rows[r] && d.actual == n && n == rows[r].count + d.delta
            && (d.status == Over <==> d.delta > 0)
            && (d.status == Cleared <==> n == 0)
            && (d.status == Within <==> n > 0 && d.delta == 0)
            && (d.status == Reducible <==> n > 0 && d.delta < 0)
  {
    ActualCard(rx, rows, es, KeyOf(rows[r]));
  }

  // ---- filter and audit agree ----------------------------------------------

  /**
   The two views agree on every diagnostic: it surfaces exactly when no row claims
   it or the claiming row, the first of its key, audits as `Over`.
   */
  lemma SurfacesIffOver(rx: Engine, rows: seq<Bucket>, es: seq<Entry>, i: nat)
    requires i < |es|
    ensures i in Surfaced(rx, rows, es) <==>
            match Claim(rx, rows, es[i])
            case None => true
            case Some(r) => r == HomeRow(rows, KeyOf(rows[r])) && AuditRow(rx, rows, es, rows[r]).status == Over
  {
    SurfacedMembers(rx, rows, es);
    if Claim(rx, rows, es[i]).Some? {
      ClaimIsHome(rx, rows, es[i]);
      if es[i].rule.None? {
        RulelessIsUnclaimed(rx, rows, es[i]);
      }
      var r := Claim(rx, rows, es[i]).value;
      var k := Claimed(KeyOf(rows[r]));
      assert i in Occurrences(Bins(rx, rows, es), k);
      assert |Occurrences(Bins(rx, rows, es), k)| > 0;
    }
  }

  function Sum(xs: seq<nat>): nat {
    if xs == [] then 0 else Sum(xs[..|xs| - 1]) + xs[|xs| - 1]
  }

  lemma {:induction false} SumTelescopes(xs: seq<nat>, ys: seq<nat>)
    requires |ys| == |xs| + 1 && ys[0] == 0
    requires forall r :: 0 <= r < |xs| ==> ys[r + 1] == ys[r] + xs[r]
    ensures Sum(xs) == ys[|xs|]
  {
    if xs != [] {
      SumTelescopes(xs[..|xs| - 1], ys[..|xs|]);
    }
  }

  /** What row `r` adds to the silenced count: its `actual`, if it comes first for its key and is not `Over`. */
  function QuietShare(rx: Engine, rows: seq<Bucket>, es: seq<Entry>, r: nat): nat
    requires r < |rows|
  {
    var row := AuditRow(rx, rows, es, rows[r]);
    if HomeRow(rows, KeyOf(rows[r])) == r && row.status != Over then row.actual else 0
  }

  function QuietActuals(rx: Engine, rows: seq<Bucket>, es: seq<Entry>): nat {
    Sum(seq(|rows|, r requires 0 <= r < |rows| => QuietShare(rx, rows, es, r)))
  }

  function Claims(rx: Engine, rows: seq<Bucket>, es: seq<Entry>): (r: seq<Option<nat>>)
    ensures |r| == |es| && forall i :: 0 <= i < |es| ==> r[i] == Claim(rx, rows, es[i])
  {
    seq(|es|, i requires 0 <= i < |es| => Claim(rx, rows, es[i]))
  }

  /** The rows whose threshold is exceeded. */
  function OverRows(rx: Engine, rows: seq<Bucket>, es: seq<Entry>): set<nat> {
    set r: nat | r < |rows| && Actual(rx, rows, es, KeyOf(rows[r])) > rows[r].count
  }

  /** The positions claimed by a row below `n` that is not in `over`. */
  ghost function SilencedBelow(claims: seq<Option<nat>>, over: set<nat>, n: nat): set<nat> {
    set i: nat | i < |claims| && claims[i].Some? && claims[i].value < n && claims[i].value !in over
  }

  lemma SilencedBelowNone(claims: seq<Option<nat>>, over: set<nat>)
    ensures |SilencedBelow(claims, over, 0)| == 0
  {
    assert SilencedBelow(claims, over, 0) == {};
  }

  lemma SilencedByRow(claims: seq<Option<nat>>, over: set<nat>, r: nat)
    ensures |SilencedBelow(claims, over, r + 1)| == |SilencedBelow(claims, over, r)|
            + if r in over then 0 else |Positions(claims, r)|
  {
    var below, upto := SilencedBelow(claims, over, r), SilencedBelow(claims, over, r + 1);
    var here := Positions(claims, r);
    if r in over {
      assert upto == below;
    } else {
      assert upto == below + here && below !! here;
    }
  }

  lemma ClaimedByCard(rx: Engine, rows: seq<Bucket>, es: seq<Entry>, r: nat)
    requires r < |rows|
    ensures |Positions(Claims(rx, rows, es), r)| ==
            if HomeRow(rows, KeyOf(rows[r])) == r then Actual(rx, rows, es, KeyOf(rows[r])) else 0
  {
    var k, ks, cs := Claimed(KeyOf(rows[r])), Bins(rx, rows, es), Claims(rx, rows, es);
    forall i: nat | i < |es|
      ensures ks[i] == Some(k) && HomeRow(rows, k.row) == r <==> cs[i] == Some(r)
    {
      RowClaims(rx, rows, es[i], r);
    }
    if HomeRow(rows, k.row) == r {
      OccurrencesCard(ks, k);
      assert Positions(cs, r) == Positions(ks, k);
    } else {
      assert Positions(cs, r) == {};
    }
  }

  lemma QuietActualsCard(rx: Engine, rows: seq<Bucket>, es: seq<Entry>)
    ensures QuietActuals(rx, rows, es) == |SilencedBelow(Claims(rx, rows, es), OverRows(rx, rows, es), |rows|)|
  {
    var cs, over := Claims(rx, rows, es), OverRows(rx, rows, es);
    var xs := seq(|rows|, r requires 0 <= r < |rows| => QuietShare(rx, rows, es, r));
    var ys: seq<nat> := seq(|rows| + 1, n requires n >= 0 => |SilencedBelow(cs, over, n)|);
    SilencedBelowNone(cs, over);
    forall r: nat | r < |xs|
      ensures ys[r + 1] == ys[r] + xs[r]
    {
      QuietShareCard(rx, rows, es, r);
    }
    SumTelescopes(xs, ys);
  }

  lemma QuietShareCard(rx: Engine, rows: seq<Bucket>, es: seq<Entry>, r: nat)
    requires r < |rows|
    ensures var cs, over := Claims(rx, rows, es), OverRows(rx, rows, es);
            QuietShare(rx, rows, es, r) == |SilencedBelow(cs, over, r + 1)| - |SilencedBelow(cs, over, r)|
  {
    SilencedByRow(Claims(rx, rows, es), OverRows(rx, rows, es), r);
    ClaimedByCard(rx, rows, es, r);
    StatusOver(rx, rows, es, r);
  }

  lemma StatusOver(rx: Engine, rows: seq<Bucket>, es: seq<Entry>, r: nat)
    requires r < |rows|
    ensures r in OverRows(rx, rows, es) <==> AuditRow(rx, rows, es, rows[r]).status == Over
  {
  }

  lemma RowClaims(rx: Engine, rows: seq<Bucket>, e: Entry, r: nat)
    requires r < |rows|
    ensures BinOf(rx, rows, e) == Some(Claimed(KeyOf(rows[r]))) && HomeRow(rows, KeyOf(rows[r])) == r
            <==> Claim(rx, rows, e) == Some(r)
  {
    if Claim(rx, rows, e).Some? {
      ClaimIsHome(rx, rows, e);
      if e.rule.None? {
        RulelessIsUnclaimed(rx, rows, e);
      }
    }
  }

  lemma QuietPositions(rx: Engine, rows: seq<Bucket>, es: seq<Entry>, i: nat)
    requires i < |es|
    ensures i in SilencedBelow(Claims(rx, rows, es), OverRows(rx, rows, es), |rows|) <==> !Passes(rx, rows, es, es[i])
  {
    if Claim(rx, rows, es[i]).Some? {
      ClaimIsHome(rx, rows, es[i]);
    }
  }

  /** The silenced count is what the audit reports over first-of-key rows that are not `Over`. */
  lemma SilencedIsAuditSum(rx: Engine, rows: seq<Bucket>, es: seq<Entry>)
    ensures Silenced(rx, rows, es) == QuietActuals(rx, rows, es)
  {
    QuietActualsCard(rx, rows, es);
    FilterConserves(rx, rows, es);
    SurfacedMembers(rx, rows, es);
    SurfacedOrder(rx, rows, es);
    var loud := Surfaced(rx, rows, es);
    var quiet := SilencedBelow(Claims(rx, rows, es), OverRows(rx, rows, es), |rows|);
    forall i: nat | i < |es|
      ensures i in quiet <==> i !in loud
    {
      QuietPositions(rx, rows, es, i);
    }
    ComplementCard(loud, quiet, |es|);
  }

  lemma ComplementCard(loud: seq<nat>, quiet: set<nat>, n: nat)
    requires forall x, y :: 0 <= x < y < |loud| ==> loud[x] != loud[y]
    requires forall i :: i in loud ==> i < n
    requires forall i :: i in quiet ==> i < n
    requires forall i: nat :: i < n ==> (i in quiet <==> i !in loud)
    ensures |loud| + |quiet| == n
  {
    var loudSet := set i | i in loud;
    DistinctCard(loud, loudSet);
    var all := set i | i in Iota(n);
    IncreasingCard(Iota(n), all);
    assert all == loudSet + quiet && loudSet !! quiet;
  }

  lemma {:induction false} DistinctCard(r: seq<nat>, s: set<nat>)
    requires forall x, y :: 0 <= x < y < |r| ==> r[x] != r[y]
    requires forall i :: i in r <==> i in s
    ensures |r| == |s|
  {
    if r == [] {
      assert s == {};
    } else {
      assert r[0] in r;
      assert forall i :: i in r <==> i == r[0] || i in r[1..];
      assert r[0] !in r[1..];
      DistinctCard(r[1..], s - {r[0]});
    }
  }

  // ---- pruning -------------------------------------------------------------

  /** The rows that remain once every row of `remove`, compared whole, is dropped. */
  function Without(rows: seq<Bucket>, remove: seq<Bucket>): (r: seq<Bucket>)
    ensures forall b :: b in r <==> b in rows && b !in remove
  {
    if rows == [] then []
    else
      assert rows == [rows[0]] + rows[1..];
      (if rows[0] in remove then [] else [rows[0]]) + Without(rows[1..], remove)
  }

  function ClaimedRow(rx: Engine, rows: seq<Bucket>, e: Entry): Option<Bucket> {
    match Claim(rx, rows, e)
    case Some(i) => Some(rows[i])
    case None => None
  }

  function HitRow(rx: Engine, rows: seq<Bucket>, e: Entry, byMessage: bool): Option<Bucket> {
    if rows == [] then None
    else if Hit(rx, rows[0], e, byMessage) then Some(rows[0])
    else HitRow(rx, rows[1..], e, byMessage)
  }

  function RowAt(rows: seq<Bucket>, i: Option<nat>): Option<Bucket>
    requires i.Some? ==> i.value < |rows|
  {
    match i case None => None case Some(k) => Some(rows[k])
  }

  lemma {:induction false} HitRowIsFirst(rx: Engine, rows: seq<Bucket>, e: Entry, byMessage: bool)
    ensures HitRow(rx, rows, e, byMessage) ==
            RowAt(rows, FirstHit(rx, rows, e, byMessage))
  {
    if rows != [] {
      HitRowIsFirst(rx, rows[1..], e, byMessage);
    }
  }

  lemma {:induction false} HitRowWithout(rx: Engine, rows: seq<Bucket>, remove: seq<Bucket>, e: Entry, byMessage: bool)
    requires var h := HitRow(rx, rows, e, byMessage); h.Some? ==> h.value !in remove
    ensures HitRow(rx, Without(rows, remove), e, byMessage) == HitRow(rx, rows, e, byMessage)
  {
    if rows != [] {
      var rest := Without(rows[1..], remove);
      assert ([rows[0]] + rest)[1..] == rest;
      assert Without(rows, remove) == if rows[0] in remove then rest else [rows[0]] + rest;
      if !Hit(rx, rows[0], e, byMessage) {
        HitRowWithout(rx, rows[1..], remove, e, byMessage);
      }
    }
  }

  /** Dropping rows that do not claim `e` does not change which row claims it. */
  lemma ClaimWithout(rx: Engine, rows: seq<Bucket>, remove: seq<Bucket>, e: Entry)
    requires var c := ClaimedRow(rx, rows, e); c.Some? ==> c.value !in remove
    ensures ClaimedRow(rx, Without(rows, remove), e) == ClaimedRow(rx, rows, e)
  {
    var kept := Without(rows, remove);
    HitRowIsFirst(rx, rows, e, true);
    HitRowIsFirst(rx, rows, e, false);
    HitRowIsFirst(rx, kept, e, true);
    HitRowIsFirst(rx, kept, e, false);
    HitRowWithout(rx, rows, remove, e, true);
    if HitRow(rx, rows, e, true).None? {
      HitRowWithout(rx, rows, remove, e, false);
    }
  }

  /** A diagnostic that a message row matches is claimed alike whatever rule rows are added or dropped. */
  lemma RuleRowsYield(rx: Engine, rows: seq<Bucket>, remove: seq<Bucket>, e: Entry)
    requires exists j :: 0 <= j < |rows| && MatchedBy(rx, rows[j], e)
    requires forall b :: b in remove ==> b.message.None?
    ensures ClaimedRow(rx, Without(rows, remove), e) == ClaimedRow(rx, rows, e)
    ensures ClaimedRow(rx, rows, e).Some? && MatchedBy(rx, ClaimedRow(rx, rows, e).value, e)
  {
    ClaimTakes(rx, rows, e, Claim(rx, rows, e));
    ClaimWithout(rx, rows, remove, e);
  }

  lemma {:induction false} HitRowInserted(rx: Engine, a: seq<Bucket>, b: Bucket, c: seq<Bucket>, e: Entry)
    requires b.message.None?
    ensures HitRow(rx, a + ([b] + c), e, true) == HitRow(rx, a + c, e, true)
  {
    if a == [] {
      assert a + ([b] + c) == [b] + c && a + c == c;
      assert ([b] + c)[1..] == c;
    } else {
      assert (a + ([b] + c))[1..] == a[1..] + ([b] + c) && (a + c)[1..] == a[1..] + c;
      HitRowInserted(rx, a[1..], b, c, e);
    }
  }

  /** Wherever a rule row is put, it takes no diagnostic from a message row. */
  lemma RuleRowInserted(rx: Engine, a: seq<Bucket>, b: Bucket, c: seq<Bucket>, e: Entry)
    requires b.message.None? && exists j :: 0 <= j < |a + c| && MatchedBy(rx, (a + c)[j], e)
    ensures ClaimedRow(rx, a + ([b] + c), e) == ClaimedRow(rx, a + c, e)
  {
    HitRowInserted(rx, a, b, c, e);
    HitRowIsFirst(rx, a + c, e, true);
    HitRowIsFirst(rx, a + ([b] + c), e, true);
    ClaimTakes(rx, a + c, e, Claim(rx, a + c, e));
  }

  /** Where every diagnostic is matched by a message row, rule rows change neither what surfaces nor the count. */
  lemma RuleRowsInvisible(rx: Engine, rows: seq<Bucket>, remove: seq<Bucket>, es: seq<Entry>)
    requires forall i :: 0 <= i < |es| ==> exists j :: 0 <= j < |rows| && MatchedBy(rx, rows[j], es[i])
    requires forall b :: b in remove ==> b.message.None?
    ensures forall i :: i in Surfaced(rx, Without(rows, remove), es) <==> i in Surfaced(rx, rows, es)
    ensures Silenced(rx, Without(rows, remove), es) == Silenced(rx, rows, es)
  {
    var kept := Without(rows, remove);
    forall i: nat | i < |es|
      ensures ClaimedRow(rx, kept, es[i]) == ClaimedRow(rx, rows, es[i])
    {
      RuleRowsYield(rx, rows, remove, es[i]);
    }
    SameClaimsSameFate(rx, rows, kept, es);
  }

  /** Baselines that claim every diagnostic by equal rows let the same ones through. */
  lemma SameClaimsSameFate(rx: Engine, rows: seq<Bucket>, kept: seq<Bucket>, es: seq<Entry>)
    requires forall i :: 0 <= i < |es| ==> ClaimedRow(rx, kept, es[i]) == ClaimedRow(rx, rows, es[i])
    ensures forall i :: i in Surfaced(rx, kept, es) <==> i in Surfaced(rx, rows, es)
    ensures Silenced(rx, kept, es) == Silenced(rx, rows, es)
  {
    assert Bins(rx, kept, es) == Bins(rx, rows, es);
    SurfacedMembers(rx, rows, es);
    SurfacedMembers(rx, kept, es);
    forall i: nat | i < |es|
      ensures Passes(rx, kept, es, es[i]) == Passes(rx, rows, es, es[i])
    {
      assert ClaimedRow(rx, kept, es[i]) == ClaimedRow(rx, rows, es[i]);
    }
    FilterConserves(rx, rows, es);
    FilterConserves(rx, kept, es);
    SameMembersSameLength(Surfaced(rx, kept, es), Surfaced(rx, rows, es), rx, kept, rows, es);
  }

  /** Every removed row is one that the audit reports as `Cleared`. */
  ghost predicate AllCleared(rx: Engine, rows: seq<Bucket>, es: seq<Entry>, remove: seq<Bucket>) {
    forall b :: b in remove ==> b in rows && AuditRow(rx, rows, es, b).status == Cleared
  }

  lemma PrunedBins(rx: Engine, rows: seq<Bucket>, es: seq<Entry>, remove: seq<Bucket>)
    requires AllCleared(rx, rows, es, remove)
    ensures forall i :: 0 <= i < |es| ==>
              ClaimedRow(rx, Without(rows, remove), es[i]) == ClaimedRow(rx, rows, es[i])
    ensures Bins(rx, Without(rows, remove), es) == Bins(rx, rows, es)
  {
    var ks := Bins(rx, rows, es);
    forall i: nat | i < |es|
      ensures ClaimedRow(rx, Without(rows, remove), es[i]) == ClaimedRow(rx, rows, es[i])
    {
      var c := ClaimedRow(rx, rows, es[i]);
      if c.Some? {
        if es[i].rule.None? {
          RulelessIsUnclaimed(rx, rows, es[i]);
        }
        assert i in Occurrences(ks, Claimed(KeyOf(c.value)));
      }
      ClaimWithout(rx, rows, remove, es[i]);
    }
  }

  /** The stream is already in the order the filter would give it: group by group, ruleless diagnostics last. */
  ghost predicate AlreadyGrouped(ks: seq<Option<BinKey>>) {
    forall i: nat, j: nat :: i < j < |ks| ==> Before(ks, i, j)
  }

  /** Where everything surfaces, regrouping is the identity exactly on a stream that is already grouped. */
  lemma RegroupsNothingIff(rx: Engine, rows: seq<Bucket>, es: seq<Entry>)
    requires rows != [] && forall i: nat :: i in Surfaced(rx, rows, es) <==> i < |es|
    ensures Surfaced(rx, rows, es) == Iota(|es|) <==> AlreadyGrouped(Bins(rx, rows, es))
  {
    var g, ks := Surfaced(rx, rows, es), Bins(rx, rows, es);
    SurfacedOrder(rx, rows, es);
    if g == Iota(|es|) {
      forall i: nat, j: nat | i < j < |ks|
        ensures Before(ks, i, j)
      {
        assert g[i] == i && g[j] == j;
      }
    }
    if AlreadyGrouped(ks) {
      OrderedUnique(ks, g, Iota(|es|));
    }
  }

  /**
   Pruning cleared rows is invisible: the same diagnostics surface and as many are
   silenced. The output sequence is the same too, except that pruning every row
   turns regrouping off: then it is the same exactly when the stream was already
   grouped by file and rule with its ruleless diagnostics last.
   */
  lemma PruneInvisible(rx: Engine, rows: seq<Bucket>, es: seq<Entry>, remove: seq<Bucket>)
    requires AllCleared(rx, rows, es, remove)
    ensures forall i :: i in Surfaced(rx, Without(rows, remove), es) <==> i in Surfaced(rx, rows, es)
    ensures Silenced(rx, Without(rows, remove), es) == Silenced(rx, rows, es)
    ensures Surfaced(rx, Without(rows, remove), es) == Surfaced(rx, rows, es) <==>
            rows == [] || Without(rows, remove) != [] || AlreadyGrouped(Bins(rx, rows, es))
  {
    PruneKeepsMembers(rx, rows, es, remove);
    var kept := Without(rows, remove);
    if kept != [] {
      SurfacedOrder(rx, rows, es);
      SurfacedOrder(rx, kept, es);
      OrderedUnique(Bins(rx, rows, es), Surfaced(rx, kept, es), Surfaced(rx, rows, es));
    } else if rows != [] {
      RegroupsNothingIff(rx, rows, es);
    }
    FilterConserves(rx, rows, es);
    FilterConserves(rx, kept, es);
    SameMembersSameLength(Surfaced(rx, kept, es), Surfaced(rx, rows, es), rx, kept, rows, es);
  }

  lemma PruneKeepsMembers(rx: Engine, rows: seq<Bucket>, es: seq<Entry>, remove: seq<Bucket>)
    requires AllCleared(rx, rows, es, remove)
    ensures forall i :: i in Surfaced(rx, Without(rows, remove), es) <==> i in Surfaced(rx, rows, es)
    ensures Bins(rx, Without(rows, remove), es) == Bins(rx, rows, es)
  {
    hide AllCleared;
    var kept := Without(rows, remove);
    PrunedBins(rx, rows, es, remove);
    SurfacedMembers(rx, rows, es);
    SurfacedMembers(rx, kept, es);
    forall i: nat | i < |es|
      ensures Passes(rx, kept, es, es[i]) == Passes(rx, rows, es, es[i])
    {
      assert ClaimedRow(rx, kept, es[i]) == ClaimedRow(rx, rows, es[i]);
    }
  }

  lemma NotGrouped(ks: seq<Option<BinKey>>)
    requires |ks| == 3 && ks[0].Some? && ks[0] == ks[2] != ks[1]
    ensures !AlreadyGrouped(ks)
  {
    RankUnique(ks, 2, 0);
    assert !Before(ks, 1, 2);
  }

  lemma UnclaimedCleared(rx: Engine, b: Bucket, es: seq<Entry>)
    requires Some(Claimed(KeyOf(b))) !in Bins(rx, [b], es)
    ensures AllCleared(rx, [b], es, [b])
  {
    NoOccurrence(Bins(rx, [b], es), Claimed(KeyOf(b)));
  }

  const STALE_ROW := Bucket("z.rb", "r", None, 1)
  const TORN_STREAM := [Entry("a.rb", Some("r"), "m"), Entry("b.rb", Some("r"), "m"), Entry("a.rb", Some("r"), "m")]

  lemma TornBins(rx: Engine)
    ensures var ks := Bins(rx, [STALE_ROW], TORN_STREAM);
            |ks| == 3 && ks[0].Some? && ks[0] == ks[2] != ks[1] && Some(Claimed(KeyOf(STALE_ROW))) !in ks
  {
    hide Claim;
    UnclaimedExample(rx, [STALE_ROW], TORN_STREAM);
  }

  /** A stream whose order changes once its only row, a cleared one, has been pruned away. */
  lemma PruneReordersExample(rx: Engine)
    ensures AllCleared(rx, [STALE_ROW], TORN_STREAM, [STALE_ROW]) && Without([STALE_ROW], [STALE_ROW]) == []
    ensures Surfaced(rx, Without([STALE_ROW], [STALE_ROW]), TORN_STREAM) != Surfaced(rx, [STALE_ROW], TORN_STREAM)
  {
    hide Surfaced, Silenced, AllCleared, AlreadyGrouped, Bins;
    TornBins(rx);
    NotGrouped(Bins(rx, [STALE_ROW], TORN_STREAM));
    UnclaimedCleared(rx, STALE_ROW, TORN_STREAM);
    PruneInvisible(rx, [STALE_ROW], TORN_STREAM, [STALE_ROW]);
  }

  lemma UnclaimedExample(rx: Engine, rows: seq<Bucket>, es: seq<Entry>)
    requires |rows| == 1 && forall i :: 0 <= i < |es| ==> es[i].rel != rows[0].file && es[i].rule.Some?
    ensures forall i :: 0 <= i < |es| ==> Bins(rx, rows, es)[i] == Some(NoBucket(es[i].rel, es[i].rule.value))
  {
    forall i | 0 <= i < |es|
      ensures Claim(rx, rows, es[i]) == None
    {
      FirstHitNone(rx, rows, es[i], true);
      FirstHitNone(rx, rows, es[i], false);
    }
  }

  lemma SameMembersSameLength(a: seq<nat>, b: seq<nat>, rx: Engine, kept: seq<Bucket>, rows: seq<Bucket>, es: seq<Entry>)
    requires a == Surfaced(rx, kept, es) && b == Surfaced(rx, rows, es)
    requires forall i :: i in a <==> i in b
    ensures |a| == |b|
  {
    SurfacedOrder(rx, kept, es);
    SurfacedOrder(rx, rows, es);
    var s := set i | i in a;
    DistinctCard(a, s);
    DistinctCard(b, s);
  }
}
