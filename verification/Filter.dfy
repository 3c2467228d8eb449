/** Applying a baseline to a diagnostic stream: bins, thresholds, and the filter proved against a stable group-by. */
module Filter {
  import opened Wrappers
  import opened Grouping
  import opened Baseline

  // ---- filter --------------------------------------------------------------

  /** How many diagnostics the row key `k` claims. */
  function Actual(rx: Engine, rows: seq<Bucket>, es: seq<Entry>, k: RowKey): nat {
    |Occurrences(Bins(rx, rows, es), Claimed(k))|
  }

  /** A bin is quiet when a row claims it and the row's threshold is not exceeded. */
  predicate IsQuiet(rx: Engine, rows: seq<Bucket>, es: seq<Entry>, k: BinKey) {
    && k.Claimed?
    && HomeRow(rows, k.row) < |rows|
    && Actual(rx, rows, es, k.row) <= rows[HomeRow(rows, k.row)].count
  }

  function QuietBins(rx: Engine, rows: seq<Bucket>, es: seq<Entry>): set<BinKey> {
    set k | k in FirstSeen(Bins(rx, rows, es)) && IsQuiet(rx, rows, es, k)
  }

  /** The positions the baseline lets through, in output order. */
  function Surfaced(rx: Engine, rows: seq<Bucket>, es: seq<Entry>): seq<nat> {
    if rows == [] then Iota(|es|)
    else Grouped(Bins(rx, rows, es), QuietBins(rx, rows, es))
  }

  /** How many diagnostics the baseline suppresses. */
  function Silenced(rx: Engine, rows: seq<Bucket>, es: seq<Entry>): nat {
    if rows == [] then 0
    else Population(Bins(rx, rows, es), FirstSeen(Bins(rx, rows, es)), QuietBins(rx, rows, es))
  }

  datatype Bin = Bin(bucket: Option<nat>, diagnostics: seq<nat>)

  /** The claiming row that a bin key stands for. */
  function RowOf(rows: seq<Bucket>, k: BinKey): Option<nat> {
    match k
    case Claimed(row) => Some(HomeRow(rows, row))
    case NoBucket(_, _) => None
  }

  /** One bin per key of `order`, with its row and the positions of its diagnostics. */
  ghost predicate BinsFor(rowOf: BinKey -> Option<nat>, held: BinKey -> seq<nat>, order: seq<BinKey>, bins: seq<Bin>) {
    |bins| == |order| && forall p :: 0 <= p < |bins| ==> bins[p] == Bin(rowOf(order[p]), held(order[p]))
  }

  function RowFinder(rows: seq<Bucket>): BinKey -> Option<nat> {
    (k: BinKey) => RowOf(rows, k)
  }

  function Holder(ks: seq<Option<BinKey>>): BinKey -> seq<nat> {
    (k: BinKey) => Occurrences(ks, k)
  }

  /** `slotOf` finds the bin of each key. */
  ghost predicate SlotsFor(order: seq<BinKey>, slotOf: map<BinKey, nat>) {
    && (forall k :: k in slotOf ==> slotOf[k] < |order| && order[slotOf[k]] == k)
    && (forall p :: 0 <= p < |order| ==> order[p] in slotOf && slotOf[order[p]] == p)
  }

  ghost predicate BinsAgree(rows: seq<Bucket>, ks: seq<Option<BinKey>>, bins: seq<Bin>, slotOf: map<BinKey, nat>) {
    BinsFor(RowFinder(rows), Holder(ks), FirstSeen(ks), bins) && SlotsFor(FirstSeen(ks), slotOf)
  }

  lemma SlotsStep(order: seq<BinKey>, slotOf: map<BinKey, nat>, k: BinKey)
    requires SlotsFor(order, slotOf)
    ensures k in slotOf <==> k in order
    ensures k !in slotOf ==> SlotsFor(order + [k], slotOf[k := |order|])
  {
  }

  lemma OldBinStep(rowOf: BinKey -> Option<nat>, held: BinKey -> seq<nat>, held': BinKey -> seq<nat>,
                   order: seq<BinKey>, bins: seq<Bin>, p: nat, i: nat)
    requires BinsFor(rowOf, held, order, bins) && p < |order|
    requires forall q :: 0 <= q < |order| ==> held'(order[q]) == held(order[q]) + if q == p then [i] else []
    ensures BinsFor(rowOf, held', order, bins[p := bins[p].(diagnostics := bins[p].diagnostics + [i])])
  {
  }

  lemma NewBinStep(rowOf: BinKey -> Option<nat>, held: BinKey -> seq<nat>, held': BinKey -> seq<nat>,
                   order: seq<BinKey>, bins: seq<Bin>, k: BinKey, i: nat)
    requires BinsFor(rowOf, held, order, bins) && held'(k) == [i]
    requires forall q :: 0 <= q < |order| ==> held'(order[q]) == held(order[q])
    ensures BinsFor(rowOf, held', order + [k], bins + [Bin(rowOf(k), [i])])
  {
  }

  /** Only the group of its own key grows by the new position. */
  lemma HolderStep(ks: seq<Option<BinKey>>, o: Option<BinKey>, q: BinKey)
    ensures Holder(ks + [o])(q) == Holder(ks)(q) + if o == Some(q) then [|ks|] else []
    ensures Some(q) !in ks ==> Holder(ks)(q) == []
  {
    OccurrencesStep(ks, o, q);
    if Some(q) !in ks {
      NoOccurrence(ks, q);
    }
  }

  lemma HolderSteps(ks: seq<Option<BinKey>>, k: BinKey, order: seq<BinKey>)
    ensures forall q :: 0 <= q < |order| ==>
      Holder(ks + [Some(k)])(order[q]) == Holder(ks)(order[q]) + if order[q] == k then [|ks|] else []
    ensures Some(k) !in ks ==> Holder(ks + [Some(k)])(k) == [|ks|]
  {
    forall q | 0 <= q < |order|
      ensures Holder(ks + [Some(k)])(order[q]) == Holder(ks)(order[q]) + if order[q] == k then [|ks|] else []
    {
      HolderStep(ks, Some(k), order[q]);
    }
    HolderStep(ks, Some(k), k);
  }

  lemma BinsAgreeSkip(rows: seq<Bucket>, ks: seq<Option<BinKey>>, bins: seq<Bin>, slotOf: map<BinKey, nat>)
    requires BinsAgree(rows, ks, bins, slotOf)
    ensures BinsAgree(rows, ks + [None], bins, slotOf)
  {
    FirstSeenStep(ks, None);
    var order := FirstSeen(ks);
    forall q | 0 <= q < |order|
      ensures Holder(ks + [None])(order[q]) == Holder(ks)(order[q])
    {
      HolderStep(ks, None, order[q]);
    }
  }

  lemma HomeInRange(rx: Engine, rows: seq<Bucket>, es: seq<Entry>, k: BinKey)
    requires k in FirstSeen(Bins(rx, rows, es)) && k.Claimed?
    ensures HomeRow(rows, k.row) < |rows|
  {
    hide FirstSeen, Bins;
    var ks := Bins(rx, rows, es);
    var i := FirstSeenWitness(ks, k);
    assert BinOf(rx, rows, es[i]) == Some(k);
    ClaimIsHome(rx, rows, es[i]);
  }

  lemma BinIsRowOf(rx: Engine, rows: seq<Bucket>, e: Entry)
    requires e.rule.Some?
    ensures BinOf(rx, rows, e).Some? && RowOf(rows, BinOf(rx, rows, e).value) == Claim(rx, rows, e)
  {
    if Claim(rx, rows, e).Some? {
      ClaimIsHome(rx, rows, e);
    }
  }

  /** Put position `i` into the bin of its key, opening the bin when the key is new. */
  method Place(ghost rowOf: BinKey -> Option<nat>, ghost held: BinKey -> seq<nat>, ghost held': BinKey -> seq<nat>,
               ghost order: seq<BinKey>, bins: seq<Bin>, slotOf: map<BinKey, nat>, key: BinKey, claim: Option<nat>, i: nat)
    returns (bins': seq<Bin>, slotOf': map<BinKey, nat>)
    requires BinsFor(rowOf, held, order, bins) && SlotsFor(order, slotOf) && claim == rowOf(key)
    requires forall q :: 0 <= q < |order| ==> held'(order[q]) == held(order[q]) + if order[q] == key then [i] else []
    requires key !in order ==> held'(key) == [i]
    ensures BinsFor(rowOf, held', if key in order then order else order + [key], bins')
    ensures SlotsFor(if key in order then order else order + [key], slotOf')
  {
    SlotsStep(order, slotOf, key);
    if key in slotOf {
      var p := slotOf[key];
      OldBinStep(rowOf, held, held', order, bins, p, i);
      bins' := bins[p := bins[p].(diagnostics := bins[p].diagnostics + [i])];
      slotOf' := slotOf;
    } else {
      NewBinStep(rowOf, held, held', order, bins, key, i);
      slotOf' := slotOf[key := |bins|];
      bins' := bins + [Bin(claim, [i])];
    }
  }

  /** The bin of one diagnostic that has a rule, and the row it stands for. */
  method BinKeyOf(rx: Engine, rows: seq<Bucket>, e: Entry) returns (key: BinKey, claim: Option<nat>)
    requires e.rule.Some?
    ensures BinOf(rx, rows, e) == Some(key) && claim == RowOf(rows, key)
  {
    claim := ClaimBucket(rx, rows, e);
    BinIsRowOf(rx, rows, e);
    key := if claim.Some? then Claimed(KeyOf(rows[claim.value])) else NoBucket(e.rel, e.rule.value);
  }

  lemma GrownAgrees(rows: seq<Bucket>, seen: seq<Option<BinKey>>, key: BinKey, bins: seq<Bin>, slotOf: map<BinKey, nat>)
    requires var order := if key in FirstSeen(seen) then FirstSeen(seen) else FirstSeen(seen) + [key];
      BinsFor(RowFinder(rows), Holder(seen + [Some(key)]), order, bins) && SlotsFor(order, slotOf)
    ensures BinsAgree(rows, seen + [Some(key)], bins, slotOf)
  {
    FirstSeenStep(seen, Some(key));
  }

  /** Put position `i` into the bin of `key`. */
  method BinOne(ghost rows: seq<Bucket>, ghost seen: seq<Option<BinKey>>, bins: seq<Bin>, slotOf: map<BinKey, nat>,
                key: BinKey, claim: Option<nat>, i: nat)
    returns (bins': seq<Bin>, slotOf': map<BinKey, nat>)
    requires BinsAgree(rows, seen, bins, slotOf) && claim == RowOf(rows, key) && i == |seen|
    ensures BinsAgree(rows, seen + [Some(key)], bins', slotOf')
  {
    HolderSteps(seen, key, FirstSeen(seen));
    bins', slotOf' := Place(RowFinder(rows), Holder(seen), Holder(seen + [Some(key)]), FirstSeen(seen),
                            bins, slotOf, key, claim, i);
    GrownAgrees(rows, seen, key, bins', slotOf');
  }

  /** The binning pass: one bin per key, in order of first appearance. */
  method BinStream(rx: Engine, rows: seq<Bucket>, es: seq<Entry>) returns (bins: seq<Bin>, unkeyable: seq<nat>)
    ensures unkeyable == Keyless(Bins(rx, rows, es))
    ensures BinsFor(RowFinder(rows), Holder(Bins(rx, rows, es)), FirstSeen(Bins(rx, rows, es)), bins)
  {
    ghost var ks := Bins(rx, rows, es);
    ghost var seen: seq<Option<BinKey>> := [];
    bins, unkeyable := [], [];
    var slotOf: map<BinKey, nat> := map[];
    for i := 0 to |es|
      invariant seen == ks[..i]
      invariant BinsAgree(rows, seen, bins, slotOf)
      invariant unkeyable == Keyless(seen)
    {
      PrefixStep(ks, i);
      if es[i].rule.None? {
        KeylessStep(seen, None);
        unkeyable := unkeyable + [i];
        BinsAgreeSkip(rows, seen, bins, slotOf);
        seen := seen + [None];
      } else {
        var key, claim := BinKeyOf(rx, rows, es[i]);
        KeylessStep(seen, Some(key));
        bins, slotOf := BinOne(rows, seen, bins, slotOf, key, claim, i);
        seen := seen + [Some(key)];
      }
    }
    assert seen == ks;
  }

  /** The baseline filter: bin the stream, then let each bin through or silence it whole. */
  method FilterStream(rx: Engine, rows: seq<Bucket>, es: seq<Entry>) returns (surfaced: seq<nat>, silenced: nat)
    ensures surfaced == Surfaced(rx, rows, es)
    ensures silenced == Silenced(rx, rows, es)
  {
    hide FirstSeen;
    if rows == [] {
      return Iota(|es|), 0;
    }
    var bins, unkeyable := BinStream(rx, rows, es);
    surfaced, silenced := [], 0;
    ghost var ks := Bins(rx, rows, es);
    ghost var keys, quiet := FirstSeen(ks), QuietBins(rx, rows, es);
    for p := 0 to |bins|
      invariant surfaced == Groups(ks, keys[..p], quiet)
      invariant silenced == Population(ks, keys[..p], quiet)
    {
      assert keys[..p + 1][..p] == keys[..p];
      assert keys[p] in keys;
      var bin := bins[p];
      if keys[p].Claimed? {
        HomeInRange(rx, rows, es, keys[p]);
      }
      if bin.bucket.Some? && |bin.diagnostics| <= rows[bin.bucket.value].count {
        silenced := silenced + |bin.diagnostics|;
      } else {
        surfaced := surfaced + bin.diagnostics;
      }
    }
    assert keys[..|bins|] == keys;
    surfaced := surfaced + unkeyable;
  }
}
