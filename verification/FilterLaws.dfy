/** What the filter guarantees about its output, over every baseline and every stream. */
module FilterLaws {
  import opened Wrappers
  import opened Grouping
  import opened Baseline
  import opened Filter

  /** A diagnostic passes unless some row claims it within that row's threshold. */
  predicate Passes(rx: Engine, rows: seq<Bucket>, es: seq<Entry>, e: Entry) {
    match Claim(rx, rows, e)
    case None => true
    case Some(i) => Actual(rx, rows, es, KeyOf(rows[i])) > rows[i].count
  }

  lemma QuietIff(rx: Engine, rows: seq<Bucket>, es: seq<Entry>, i: nat)
    requires i < |es| && es[i].rule.Some?
    ensures BinOf(rx, rows, es[i]).value in QuietBins(rx, rows, es) <==> !Passes(rx, rows, es, es[i])
  {
    var ks := Bins(rx, rows, es);
    assert ks[i] in ks;
    if Claim(rx, rows, es[i]).Some? {
      ClaimIsHome(rx, rows, es[i]);
    }
  }

  lemma RulelessIsUnclaimed(rx: Engine, rows: seq<Bucket>, e: Entry)
    requires e.rule.None?
    ensures Claim(rx, rows, e) == None
  {
    FirstHitNone(rx, rows, e, true);
    FirstHitNone(rx, rows, e, false);
  }

  /** Exactly the passing diagnostics surface: a bin surfaces whole or not at all. */
  lemma SurfacedMembers(rx: Engine, rows: seq<Bucket>, es: seq<Entry>)
    ensures forall i: nat :: i in Surfaced(rx, rows, es) <==> i < |es| && Passes(rx, rows, es, es[i])
  {
    if rows != [] {
      var ks := Bins(rx, rows, es);
      GroupedMembers(ks, QuietBins(rx, rows, es));
      forall i: nat | i < |es|
        ensures i in Surfaced(rx, rows, es) <==> Passes(rx, rows, es, es[i])
      {
        if es[i].rule.Some? {
          QuietIff(rx, rows, es, i);
        } else {
          RulelessIsUnclaimed(rx, rows, es[i]);
        }
      }
    }
  }

  /**
   Under a non-empty baseline the output is sorted by first appearance of the
   bin, then by position, ruleless diagnostics last; an empty baseline keeps
   the input order. Nothing repeats.
   */
  lemma SurfacedOrder(rx: Engine, rows: seq<Bucket>, es: seq<Entry>)
    ensures forall x :: 0 <= x < |Surfaced(rx, rows, es)| ==> Surfaced(rx, rows, es)[x] < |es|
    ensures forall x, y :: 0 <= x < y < |Surfaced(rx, rows, es)| ==>
              var i, j := Surfaced(rx, rows, es)[x], Surfaced(rx, rows, es)[y];
              i != j && if rows == [] then i < j else Before(Bins(rx, rows, es), i, j)
  {
    if rows != [] {
      GroupedOrdered(Bins(rx, rows, es), QuietBins(rx, rows, es));
    }
  }

  /** Every diagnostic is either surfaced or counted as silenced, and only once. */
  lemma FilterConserves(rx: Engine, rows: seq<Bucket>, es: seq<Entry>)
    ensures |Surfaced(rx, rows, es)| + Silenced(rx, rows, es) == |es|
  {
    GroupedConserves(Bins(rx, rows, es), QuietBins(rx, rows, es));
  }

  // ---- sub-streams ---------------------------------------------------------

  lemma BinsOfSelection(rx: Engine, rows: seq<Bucket>, es: seq<Entry>, g: seq<nat>)
    requires forall x :: 0 <= x < |g| ==> g[x] < |es|
    ensures Bins(rx, rows, Select(es, g)) == Select(Bins(rx, rows, es), g)
  {
  }

  /** Fixing findings never reveals another: what surfaces from part of a stream surfaces from all of it. */
  lemma FilterMonotone(rx: Engine, rows: seq<Bucket>, es: seq<Entry>, g: seq<nat>, x: nat)
    requires forall y :: 0 <= y < |g| ==> g[y] < |es|
    requires forall y, z :: 0 <= y < z < |g| ==> g[y] != g[z]
    requires x in Surfaced(rx, rows, Select(es, g))
    ensures x < |g| && g[x] in Surfaced(rx, rows, es)
  {
    var part := Select(es, g);
    SurfacedMembers(rx, rows, part);
    SurfacedMembers(rx, rows, es);
    match Claim(rx, rows, part[x])
    case None =>
    case Some(i) =>
      BinsOfSelection(rx, rows, es, g);
      SelectionBoundsCount(Bins(rx, rows, es), g, Claimed(KeyOf(rows[i])));
  }

  /** Filtering what was surfaced surfaces all of it again, in the same order, and silences nothing. */
  lemma FilterIdempotent(rx: Engine, rows: seq<Bucket>, es: seq<Entry>)
    ensures forall x :: 0 <= x < |Surfaced(rx, rows, es)| ==> Surfaced(rx, rows, es)[x] < |es|
    ensures var again := Select(es, Surfaced(rx, rows, es));
            && Surfaced(rx, rows, again) == Iota(|again|)
            && Silenced(rx, rows, again) == 0
  {
    SurfacedOrder(rx, rows, es);
    var g := Surfaced(rx, rows, es);
    var again := Select(es, g);
    if rows != [] {
      var ks, quiet := Bins(rx, rows, es), QuietBins(rx, rows, es);
      BinsOfSelection(rx, rows, es, g);
      var ks2, quiet2 := Bins(rx, rows, again), QuietBins(rx, rows, again);
      forall x | 0 <= x < |ks2| && ks2[x].Some?
        ensures ks2[x].value !in quiet2
      {
        assert g[x] in g;
        StillLoud(rx, rows, es, x);
        QuietIff(rx, rows, again, x);
      }
      RegroupIdentity(ks, quiet, quiet2);
    }
    FilterConserves(rx, rows, again);
  }

  lemma StillLoud(rx: Engine, rows: seq<Bucket>, es: seq<Entry>, x: nat)
    requires forall y :: 0 <= y < |Surfaced(rx, rows, es)| ==> Surfaced(rx, rows, es)[y] < |es|
    requires x < |Surfaced(rx, rows, es)|
    ensures var again := Select(es, Surfaced(rx, rows, es)); Passes(rx, rows, again, again[x])
  {
    var g := Surfaced(rx, rows, es);
    var again := Select(es, g);
    SurfacedMembers(rx, rows, es);
    assert g[x] in g;
    match Claim(rx, rows, again[x])
    case None =>
    case Some(i) =>
      var ks, k := Bins(rx, rows, es), Claimed(KeyOf(rows[i]));
      forall j: nat | j < |ks| && ks[j] == Some(k)
        ensures j in g
      {
        SameBinSamePass(rx, rows, es, es[g[x]], es[j]);
      }
      BinsOfSelection(rx, rows, es, g);
      SelectionKeepsCount(ks, g, k);
  }

  lemma SameBinSamePass(rx: Engine, rows: seq<Bucket>, es: seq<Entry>, e: Entry, f: Entry)
    requires e.rule.Some? && f.rule.Some? && BinOf(rx, rows, e) == BinOf(rx, rows, f)
    ensures Claim(rx, rows, e) == Claim(rx, rows, f)
    ensures Passes(rx, rows, es, e) == Passes(rx, rows, es, f)
  {
    if Claim(rx, rows, e).Some? {
      ClaimIsHome(rx, rows, e);
      ClaimIsHome(rx, rows, f);
    }
  }
}
