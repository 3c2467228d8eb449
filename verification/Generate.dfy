/** Generating a baseline from a stream, and what the filter then makes of that stream. */
module Generate {
  import opened Wrappers
  import opened Text
  import opened Grouping
  import opened Baseline
  import opened RegexpEscape
  import opened Filter
  import opened FilterLaws
  import opened Audit

  datatype MatchMode = Rule | Message

  /** The row a diagnostic is recorded under; a ruleless one is not recorded. */
  function RecordKey(e: Entry, mode: MatchMode): Option<RowKey> {
    if e.rule.None? then None
    else Some(RowKey(e.rel, e.rule.value, if mode.Rule? then None else Some(Escape(e.message))))
  }

  function RecordKeys(es: seq<Entry>, mode: MatchMode): (r: seq<Option<RowKey>>)
    ensures |r| == |es| && forall i :: 0 <= i < |es| ==> r[i] == RecordKey(es[i], mode)
  {
    seq(|es|, i requires 0 <= i < |es| => RecordKey(es[i], mode))
  }

  function BucketFor(gk: seq<Option<RowKey>>, k: RowKey): Bucket {
    Bucket(k.file, k.rule, k.message, |Occurrences(gk, k)|)
  }

  function BucketsFor(gk: seq<Option<RowKey>>, keys: seq<RowKey>): (r: seq<Bucket>)
    ensures |r| == |keys| && forall j :: 0 <= j < |r| ==> r[j] == BucketFor(gk, keys[j])
  {
    seq(|keys|, j requires 0 <= j < |keys| => BucketFor(gk, keys[j]))
  }

  /** One row per recorded key, in order of first appearance, counting its diagnostics. */
  function Generated(es: seq<Entry>, mode: MatchMode): (r: seq<Bucket>)
    ensures var keys := FirstSeen(RecordKeys(es, mode));
            && |r| == |keys|
            && forall j :: 0 <= j < |r| ==>
                 KeyOf(r[j]) == keys[j] && r[j].count == |Occurrences(RecordKeys(es, mode), keys[j])|
  {
    BucketsFor(RecordKeys(es, mode), FirstSeen(RecordKeys(es, mode)))
  }

  ghost predicate CountsFor(order: seq<RowKey>, counts: map<RowKey, nat>, size: RowKey -> nat) {
    forall k :: (k in counts <==> k in order) && CountIn(counts, k) == size(k)
  }

  function Sizes(seen: seq<Option<RowKey>>): RowKey -> nat {
    (k: RowKey) => |Occurrences(seen, k)|
  }

  ghost predicate TallyAgrees(seen: seq<Option<RowKey>>, order: seq<RowKey>, counts: map<RowKey, nat>) {
    order == FirstSeen(seen) && CountsFor(order, counts, Sizes(seen))
  }

  lemma SizesStep(seen: seq<Option<RowKey>>, o: Option<RowKey>)
    ensures forall q :: Sizes(seen + [o])(q) == Sizes(seen)(q) + if o == Some(q) then 1 else 0
  {
    forall q: RowKey
      ensures Sizes(seen + [o])(q) == Sizes(seen)(q) + if o == Some(q) then 1 else 0
    {
      OccurrencesStep(seen, o, q);
    }
  }

  lemma CountsForStep(order: seq<RowKey>, counts: map<RowKey, nat>, size: RowKey -> nat, size': RowKey -> nat, k: RowKey)
    requires CountsFor(order, counts, size)
    requires forall q :: size'(q) == size(q) + if q == k then 1 else 0
    ensures CountsFor(if k in counts then order else order + [k], counts[k := CountIn(counts, k) + 1], size')
  {
  }

  lemma TallyAgreesStep(seen: seq<Option<RowKey>>, order: seq<RowKey>, counts: map<RowKey, nat>, k: RowKey)
    requires TallyAgrees(seen, order, counts)
    ensures TallyAgrees(seen + [Some(k)], if k in counts then order else order + [k], counts[k := CountIn(counts, k) + 1])
  {
    hide Sizes;
    FirstSeenStep(seen, Some(k));
    SizesStep(seen, Some(k));
    CountsForStep(order, counts, Sizes(seen), Sizes(seen + [Some(k)]), k);
  }

  lemma TallyAgreesSkip(seen: seq<Option<RowKey>>, order: seq<RowKey>, counts: map<RowKey, nat>)
    requires TallyAgrees(seen, order, counts)
    ensures TallyAgrees(seen + [None], order, counts)
  {
    FirstSeenStep(seen, None);
    SizesStep(seen, None);
  }

  lemma TallyRows(gk: seq<Option<RowKey>>, order: seq<RowKey>, counts: map<RowKey, nat>)
    requires TallyAgrees(gk, order, counts)
    ensures BucketsFor(gk, order) == seq(|order|, j requires 0 <= j < |order| =>
              Bucket(order[j].file, order[j].rule, order[j].message, CountIn(counts, order[j])))
  {
  }

  /** The counting pass over the live diagnostics. */
  method TallyKeys(es: seq<Entry>, mode: MatchMode) returns (order: seq<RowKey>, counts: map<RowKey, nat>)
    ensures order == FirstSeen(RecordKeys(es, mode))
    ensures BucketsFor(RecordKeys(es, mode), order) == seq(|order|, j requires 0 <= j < |order| =>
              Bucket(order[j].file, order[j].rule, order[j].message, CountIn(counts, order[j])))
  {
    order, counts := [], map[];
    ghost var gk := RecordKeys(es, mode);
    ghost var seen: seq<Option<RowKey>> := [];
    for i := 0 to |es|
      invariant seen == gk[..i]
      invariant TallyAgrees(seen, order, counts)
    {
      PrefixStep(gk, i);
      if es[i].rule.None? {
        TallyAgreesSkip(seen, order, counts);
      } else {
        var msg: Option<string> := None;
        if mode.Message? {
          var escaped := EscapeText(es[i].message);
          msg := Some(escaped);
        }
        var key := RowKey(es[i].rel, es[i].rule.value, msg);
        TallyAgreesStep(seen, order, counts, key);
        if key !in counts {
          order := order + [key];
        }
        counts := counts[key := CountIn(counts, key) + 1];
      }
      seen := seen + [gk[i]];
    }
    assert seen == gk;
    TallyRows(gk, order, counts);
  }

  /** Recording a stream: count it, then write one row per key in first-seen order. */
  method FromDiagnostics(es: seq<Entry>, mode: MatchMode) returns (rows: seq<Bucket>)
    ensures rows == Generated(es, mode)
  {
    var order, counts := TallyKeys(es, mode);
    ghost var all := BucketsFor(RecordKeys(es, mode), order);
    rows := [];
    for j := 0 to |order|
      invariant rows == all[..j]
    {
      rows := rows + [Bucket(order[j].file, order[j].rule, order[j].message, CountIn(counts, order[j]))];
    }
  }

  function TotalCount(rows: seq<Bucket>): nat {
    if rows == [] then 0 else TotalCount(rows[..|rows| - 1]) + rows[|rows| - 1].count
  }

  lemma {:induction false} TotalIsPopulation(gk: seq<Option<RowKey>>, keys: seq<RowKey>, rows: seq<Bucket>, all: set<RowKey>)
    requires |rows| == |keys| && forall k :: k in keys ==> k in all
    requires forall j :: 0 <= j < |rows| ==> rows[j].count == |Occurrences(gk, keys[j])|
    ensures TotalCount(rows) == Population(gk, keys, all)
  {
    if keys != [] {
      var n := |keys| - 1;
      assert keys[n] in keys;
      TotalIsPopulation(gk, keys[..n], rows[..n], all);
    }
  }

  /** The recorded counts add up to the number of diagnostics that have a rule. */
  lemma GeneratedCountsTotal(es: seq<Entry>, mode: MatchMode)
    ensures TotalCount(Generated(es, mode)) + |Keyless(RecordKeys(es, mode))| == |es|
  {
    var gk := RecordKeys(es, mode);
    var keys := FirstSeen(gk);
    var all := set k | k in keys;
    forall i | 0 <= i < |gk| && gk[i].Some?
      ensures gk[i].value in all
    {
      assert gk[i] in gk;
    }
    PopulationTotal(gk, all);
    TotalIsPopulation(gk, keys, Generated(es, mode), all);
  }

  // ---- what is recorded ------------------------------------------------------

  /** The two diagnostics are recorded under one row. */
  predicate Alike(e: Entry, f: Entry, mode: MatchMode) {
    e.rule.Some? && e.rule == f.rule && e.rel == f.rel && (mode.Message? ==> e.message == f.message)
  }

  lemma AlikeIff(e: Entry, f: Entry, mode: MatchMode)
    ensures Alike(e, f, mode) <==> RecordKey(e, mode).Some? && RecordKey(e, mode) == RecordKey(f, mode)
  {
    if mode.Message? && Escape(e.message) == Escape(f.message) {
      EscapeInjective(e.message, f.message);
    }
  }

  ghost function AllAlike(es: seq<Entry>, e: Entry, mode: MatchMode): set<nat> {
    set x: nat | x < |es| && Alike(es[x], e, mode)
  }

  /** The row that `e` is recorded under, for the first diagnostic alike. */
  ghost function RowFor(es: seq<Entry>, e: Entry, mode: MatchMode): Bucket
    requires e.rule.Some?
  {
    Bucket(e.rel, e.rule.value, if mode == Rule then None else Some(Escape(e.message)), |AllAlike(es, e, mode)|)
  }

  /** Diagnostic `i` is the first of its kind, and row `j` is its row. */
  ghost predicate FirstOf(es: seq<Entry>, mode: MatchMode, j: nat, i: nat) {
    && i < |es| && es[i].rule.Some? && j < |Generated(es, mode)|
    && Generated(es, mode)[j] == RowFor(es, es[i], mode)
    && forall x: nat :: x < i ==> !Alike(es[x], es[i], mode)
  }

  lemma RowRecorded(es: seq<Entry>, mode: MatchMode, j: nat) returns (i: nat)
    requires j < |Generated(es, mode)|
    ensures FirstOf(es, mode, j, i) && RecordKeys(es, mode)[i] == Some(FirstSeen(RecordKeys(es, mode))[j])
  {
    var gk := RecordKeys(es, mode);
    var k := FirstSeen(gk)[j];
    assert k in FirstSeen(gk);
    i := FirstSeenWitness(gk, k);
    i := Rank(gk, i);
    forall x: nat | x < |es|
      ensures Alike(es[x], es[i], mode) <==> gk[x] == Some(k)
    {
      AlikeIff(es[x], es[i], mode);
    }
    OccurrencesCard(gk, k);
    assert Positions(gk, k) == AllAlike(es, es[i], mode);
  }

  lemma FirstsInOrder(es: seq<Entry>, mode: MatchMode, j: nat, k: nat, i: nat, i': nat)
    requires j < k < |FirstSeen(RecordKeys(es, mode))| && FirstOf(es, mode, j, i) && FirstOf(es, mode, k, i')
    requires RecordKeys(es, mode)[i] == Some(FirstSeen(RecordKeys(es, mode))[j])
    requires RecordKeys(es, mode)[i'] == Some(FirstSeen(RecordKeys(es, mode))[k])
    ensures i < i'
  {
    hide RecordKeys, Generated;
    var a, b := FirstSeenOrder(RecordKeys(es, mode), j, k);
    SameFirst(es, mode, i, a);
    SameFirst(es, mode, i', b);
  }

  lemma KindRecorded(es: seq<Entry>, mode: MatchMode, x: nat) returns (j: nat)
    requires x < |es| && es[x].rule.Some?
    ensures j < |FirstSeen(RecordKeys(es, mode))| && RecordKeys(es, mode)[x] == Some(FirstSeen(RecordKeys(es, mode))[j])
  {
    var gk := RecordKeys(es, mode);
    assert gk[x] in gk;
    j :| 0 <= j < |FirstSeen(gk)| && FirstSeen(gk)[j] == gk[x].value;
  }

  /** The first of its kind for each row. */
  ghost predicate Firsts(es: seq<Entry>, mode: MatchMode, first: seq<nat>) {
    && |first| == |FirstSeen(RecordKeys(es, mode))|
    && forall j :: 0 <= j < |first| ==> FirstAt(es, mode, j, first[j])
  }

  ghost predicate FirstAt(es: seq<Entry>, mode: MatchMode, j: nat, i: nat) {
    && FirstOf(es, mode, j, i) && j < |FirstSeen(RecordKeys(es, mode))|
    && RecordKeys(es, mode)[i] == Some(FirstSeen(RecordKeys(es, mode))[j])
  }

  lemma RecordedFirsts(es: seq<Entry>, mode: MatchMode) returns (first: seq<nat>)
    ensures Firsts(es, mode, first)
  {
    hide FirstOf, RecordKeys, FirstSeen;
    first := [];
    for n := 0 to |Generated(es, mode)|
      invariant |first| == n
      invariant forall j :: 0 <= j < n ==> FirstAt(es, mode, j, first[j])
    {
      var i := RowRecorded(es, mode, n);
      first := first + [i];
    }
  }

  lemma KindsCovered(es: seq<Entry>, mode: MatchMode, first: seq<nat>, x: nat) returns (j: nat)
    requires Firsts(es, mode, first) && x < |es| && es[x].rule.Some?
    ensures j < |first| && first[j] < |es| && Alike(es[x], es[first[j]], mode)
  {
    hide FirstSeen;
    j := KindRecorded(es, mode, x);
    assert FirstAt(es, mode, j, first[j]);
    AlikeIff(es[x], es[first[j]], mode);
  }

  /**
   Recording gives one row for each kind of diagnostic, in the order in which the kinds first appear, with the
   number of diagnostics of its kind.
   */
  lemma RecordedRows(es: seq<Entry>, mode: MatchMode) returns (first: seq<nat>)
    ensures |first| == |Generated(es, mode)|
    ensures forall j :: 0 <= j < |first| ==> FirstOf(es, mode, j, first[j])
    ensures forall j, k :: 0 <= j < k < |first| ==> first[j] < first[k]
    ensures forall x :: 0 <= x < |es| && es[x].rule.Some? ==>
              exists j :: 0 <= j < |first| && first[j] < |es| && Alike(es[x], es[first[j]], mode)
  {
    hide FirstOf, Alike, RecordKeys, FirstSeen;
    first := RecordedFirsts(es, mode);
    forall j, k | 0 <= j < k < |first|
      ensures first[j] < first[k]
    {
      assert FirstAt(es, mode, j, first[j]) && FirstAt(es, mode, k, first[k]);
      FirstsInOrder(es, mode, j, k, first[j], first[k]);
    }
    forall x | 0 <= x < |es| && es[x].rule.Some?
      ensures exists j :: 0 <= j < |first| && first[j] < |es| && Alike(es[x], es[first[j]], mode)
    {
      var j := KindsCovered(es, mode, first, x);
    }
  }

  lemma SameFirst(es: seq<Entry>, mode: MatchMode, i: nat, a: nat)
    requires i < |es| && a < |es| && es[i].rule.Some? && RecordKeys(es, mode)[i] == RecordKeys(es, mode)[a]
    requires forall x: nat :: x < i ==> !Alike(es[x], es[i], mode)
    requires forall x :: 0 <= x < a ==> RecordKeys(es, mode)[x] != RecordKeys(es, mode)[a]
    ensures i == a
  {
    AlikeIff(es[a], es[i], mode);
  }

  // ---- generate, then filter -------------------------------------------------

  /** Every diagnostic with a rule is claimed by the row it was recorded under. */
  ghost predicate OwnClaims(rx: Engine, es: seq<Entry>, mode: MatchMode) {
    forall i :: 0 <= i < |es| && es[i].rule.Some? ==>
      BinOf(rx, Generated(es, mode), es[i]) == Some(Claimed(RecordKey(es[i], mode).value))
  }

  lemma {:induction false} OccurrencesAlong<K(!new), J(!new)>(ks: seq<Option<K>>, js: seq<Option<J>>, k: K, j: J)
    requires |ks| == |js| && forall i :: 0 <= i < |ks| ==> (ks[i] == Some(k) <==> js[i] == Some(j))
    ensures Occurrences(ks, k) == Occurrences(js, j)
  {
    if ks != [] {
      OccurrencesAlong(ks[..|ks| - 1], js[..|ks| - 1], k, j);
    }
  }

  lemma OwnCounts(rx: Engine, es: seq<Entry>, mode: MatchMode, k: RowKey)
    requires OwnClaims(rx, es, mode)
    ensures Actual(rx, Generated(es, mode), es, k) == |Occurrences(RecordKeys(es, mode), k)|
  {
    var ks, gk := Bins(rx, Generated(es, mode), es), RecordKeys(es, mode);
    OccurrencesAlong(ks, gk, Claimed(k), k);
  }

  /** Surfaces exactly the ruleless diagnostics, in stream order, and audits clean. */
  ghost predicate Settled(rx: Engine, rows: seq<Bucket>, es: seq<Entry>, mode: MatchMode) {
    && Surfaced(rx, rows, es) == Keyless(RecordKeys(es, mode))
    && forall b :: b in rows ==> AuditRow(rx, rows, es, b).status == Within && AuditRow(rx, rows, es, b).delta == 0
  }

  lemma OwnWithin(rx: Engine, es: seq<Entry>, mode: MatchMode, j: nat)
    requires OwnClaims(rx, es, mode) && j < |Generated(es, mode)|
    ensures var row := AuditRow(rx, Generated(es, mode), es, Generated(es, mode)[j]);
            row.status == Within && row.delta == 0
  {
    var gk := RecordKeys(es, mode);
    var k := FirstSeen(gk)[j];
    OwnCounts(rx, es, mode, k);
    assert k in FirstSeen(gk);
    var i := FirstSeenWitness(gk, k);
    assert i in Occurrences(gk, k);
    assert |Occurrences(gk, k)| > 0;
  }

  lemma OwnPasses(rx: Engine, es: seq<Entry>, mode: MatchMode, i: nat)
    requires OwnClaims(rx, es, mode) && i < |es|
    ensures Passes(rx, Generated(es, mode), es, es[i]) <==> es[i].rule.None?
  {
    var rows := Generated(es, mode);
    if es[i].rule.None? {
      RulelessIsUnclaimed(rx, rows, es[i]);
    } else {
      BinOfClaim(rx, rows, es[i]);
      OwnCounts(rx, es, mode, RecordKey(es[i], mode).value);
    }
  }

  lemma OwnClaimsSettle(rx: Engine, es: seq<Entry>, mode: MatchMode)
    requires OwnClaims(rx, es, mode)
    ensures Settled(rx, Generated(es, mode), es, mode)
  {
    var rows, gk := Generated(es, mode), RecordKeys(es, mode);
    forall b | b in rows
      ensures AuditRow(rx, rows, es, b).status == Within && AuditRow(rx, rows, es, b).delta == 0
    {
      var j :| 0 <= j < |rows| && rows[j] == b;
      OwnWithin(rx, es, mode, j);
    }
    SurfacedMembers(rx, rows, es);
    forall i: nat | i < |es|
      ensures Passes(rx, rows, es, es[i]) <==> es[i].rule.None?
    {
      OwnPasses(rx, es, mode, i);
    }
    SettledOrder(rx, rows, es, gk);
  }

  lemma SettledOrder(rx: Engine, rows: seq<Bucket>, es: seq<Entry>, gk: seq<Option<RowKey>>)
    requires |gk| == |es| && forall i :: 0 <= i < |es| ==> (gk[i].None? <==> es[i].rule.None?)
    requires forall i: nat :: i in Surfaced(rx, rows, es) <==> i < |es| && es[i].rule.None?
    ensures Surfaced(rx, rows, es) == Keyless(gk)
  {
    hide Surfaced, Keyless;
    SurfacedOrder(rx, rows, es);
    var g, h := Surfaced(rx, rows, es), Keyless(gk);
    var none: seq<Option<RowKey>> := seq(|es|, _ => None);
    OrderedUnique(none, g, h);
  }

  lemma RecordedRow(es: seq<Entry>, mode: MatchMode, i: nat) returns (j: nat)
    requires i < |es| && es[i].rule.Some?
    ensures j < |Generated(es, mode)| && KeyOf(Generated(es, mode)[j]) == RecordKey(es[i], mode).value
  {
    var gk := RecordKeys(es, mode);
    assert gk[i] in gk;
    j :| 0 <= j < |FirstSeen(gk)| && FirstSeen(gk)[j] == gk[i].value;
  }

  /** Generating by rule and filtering the same stream silences everything that has a rule. */
  lemma GenerateRuleSettles(rx: Engine, es: seq<Entry>)
    ensures Settled(rx, Generated(es, Rule), es, Rule)
  {
    var rows, gk := Generated(es, Rule), RecordKeys(es, Rule);
    forall i: nat | i < |es| && es[i].rule.Some?
      ensures BinOf(rx, rows, es[i]) == Some(Claimed(RecordKey(es[i], Rule).value))
    {
      forall j | 0 <= j < |rows|
        ensures rows[j].message.None?
      {
        assert FirstSeen(gk)[j] in FirstSeen(gk);
        var w := FirstSeenWitness(gk, FirstSeen(gk)[j]);
      }
      FirstHitNone(rx, rows, es[i], true);
      var j := RecordedRow(es, Rule, i);
      assert Hit(rx, rows[j], es[i], false);
      var r := FirstHit(rx, rows, es[i], false);
      assert r.Some?;
    }
    OwnClaimsSettle(rx, es, Rule);
  }

  // ---- message mode ----------------------------------------------------------

  /** `f` would be matched by the row recorded for `e`. */
  predicate Covers(e: Entry, f: Entry) {
    e.rule.Some? && e.rule == f.rule && e.rel == f.rel && Contains(f.message, e.message)
  }

  /**
   No diagnostic's message occurs inside a message of the same file and rule that
   was first seen later. Message rows match unanchored and in file order, so this
   is what keeps a short message from taking over the diagnostics of a longer one.
   */
  ghost predicate Unshadowed(es: seq<Entry>) {
    forall i: nat, j: nat :: i < |es| && j < |es| && Covers(es[j], es[i]) ==>
      Rank(RecordKeys(es, Message), i) <= Rank(RecordKeys(es, Message), j)
  }

  lemma MessageRow(es: seq<Entry>, j: nat) returns (i: nat)
    requires j < |Generated(es, Message)|
    ensures i < |es| && RecordKey(es[i], Message) == Some(KeyOf(Generated(es, Message)[j]))
    ensures forall x :: 0 <= x < i ==> RecordKey(es[x], Message) != RecordKey(es[i], Message)
    ensures Rank(RecordKeys(es, Message), i) == i
  {
    var gk := RecordKeys(es, Message);
    var k := FirstSeen(gk)[j];
    assert k in FirstSeen(gk);
    var w := FirstSeenWitness(gk, k);
    i := Rank(gk, w);
    assert forall x :: 0 <= x < i ==> gk[x] != gk[i];
    RankUnique(gk, i, i);
  }

  lemma MessageHits(rx: Engine, es: seq<Entry>, j: nat, i: nat, e: Entry)
    requires FaithfulOnLiterals(rx) && j < |Generated(es, Message)| && i < |es|
    requires RecordKey(es[i], Message) == Some(KeyOf(Generated(es, Message)[j]))
    ensures Hit(rx, Generated(es, Message)[j], e, true) <==> Covers(es[i], e)
    ensures !Hit(rx, Generated(es, Message)[j], e, false)
  {
    var b := Generated(es, Message)[j];
    assert KeyOf(b) == RowKey(es[i].rel, es[i].rule.value, Some(Escape(es[i].message)));
    EscapedPattern(rx, es[i].message, e.message);
  }

  lemma RowOrder(es: seq<Entry>, x: nat, y: nat, i: nat, j: nat)
    requires x < |Generated(es, Message)| && y < |Generated(es, Message)| && i < |es| && j < |es|
    requires RecordKey(es[i], Message) == Some(KeyOf(Generated(es, Message)[x]))
    requires RecordKey(es[j], Message) == Some(KeyOf(Generated(es, Message)[y]))
    ensures x < y <==> Rank(RecordKeys(es, Message), i) < Rank(RecordKeys(es, Message), j)
  {
    var gk := RecordKeys(es, Message);
    if x < y {
      var a, b := FirstSeenOrder(gk, x, y);
      RankUnique(gk, i, a);
      RankUnique(gk, j, b);
    } else if y < x {
      var b, a := FirstSeenOrder(gk, y, x);
      RankUnique(gk, i, a);
      RankUnique(gk, j, b);
    } else {
      assert gk[i] == gk[j];
      RankUnique(gk, i, Rank(gk, j));
    }
  }

  /** In message mode a diagnostic is claimed by the earliest recorded row whose message it contains. */
  lemma MessageClaim(rx: Engine, es: seq<Entry>, i: nat) returns (r: nat, w: nat)
    requires FaithfulOnLiterals(rx) && i < |es| && es[i].rule.Some?
    ensures Claim(rx, Generated(es, Message), es[i]) == Some(r)
    ensures r < |Generated(es, Message)| && w < |es| && Covers(es[w], es[i])
    ensures RecordKey(es[w], Message) == Some(KeyOf(Generated(es, Message)[r]))
    ensures Rank(RecordKeys(es, Message), w) <= Rank(RecordKeys(es, Message), i)
    ensures forall j: nat :: j < |es| && Covers(es[j], es[i]) ==>
              Rank(RecordKeys(es, Message), w) <= Rank(RecordKeys(es, Message), j)
  {
    var rows, gk := Generated(es, Message), RecordKeys(es, Message);
    var own := RecordedRow(es, Message, i);
    ContainsSelf(es[i].message);
    MessageHits(rx, es, own, i, es[i]);
    var hit := FirstHit(rx, rows, es[i], true);
    assert hit.Some?;
    r := hit.value;
    w := MessageRow(es, r);
    MessageHits(rx, es, r, w, es[i]);
    forall j: nat | j < |es| && Covers(es[j], es[i])
      ensures Rank(gk, w) <= Rank(gk, j)
    {
      var row := RecordedRow(es, Message, j);
      MessageHits(rx, es, row, j, es[i]);
      assert r <= row;
      RowOrder(es, row, r, j, w);
    }
    assert Covers(es[i], es[i]);
  }

  lemma UnshadowedOwns(rx: Engine, es: seq<Entry>)
    requires FaithfulOnLiterals(rx) && Unshadowed(es)
    ensures OwnClaims(rx, es, Message)
  {
    var rows, gk := Generated(es, Message), RecordKeys(es, Message);
    forall i: nat | i < |es| && es[i].rule.Some?
      ensures BinOf(rx, rows, es[i]) == Some(Claimed(RecordKey(es[i], Message).value))
    {
      var r, w := MessageClaim(rx, es, i);
      assert Rank(gk, i) <= Rank(gk, w);
      assert gk[Rank(gk, i)] == gk[i] && gk[Rank(gk, w)] == gk[w];
    }
  }

  /** A diagnostic claimed by another message's row pushes that row over its count. */
  lemma StolenGoesOver(rx: Engine, es: seq<Entry>, i: nat, r: nat, w: nat)
    requires FaithfulOnLiterals(rx) && i < |es| && es[i].rule.Some? && w < |es|
    requires Claim(rx, Generated(es, Message), es[i]) == Some(r) && r < |Generated(es, Message)|
    requires RecordKey(es[w], Message) == Some(KeyOf(Generated(es, Message)[r])) && Covers(es[w], es[i])
    requires forall j: nat :: j < |es| && Covers(es[j], es[i]) ==>
               Rank(RecordKeys(es, Message), w) <= Rank(RecordKeys(es, Message), j)
    requires RecordKey(es[i], Message) != RecordKey(es[w], Message)
    ensures Passes(rx, Generated(es, Message), es, es[i])
  {
    var rows, gk := Generated(es, Message), RecordKeys(es, Message);
    var ks := Bins(rx, rows, es);
    var k := KeyOf(rows[r]);
    BinOfClaim(rx, rows, es[i]);
    forall x: nat | x < |es| && gk[x] == Some(k)
      ensures ks[x] == Some(Claimed(k))
    {
      OwnerKeepsOwn(rx, es, i, w, x);
    }
    ExtraMember(ks, gk, Claimed(k), k, i);
  }

  lemma OwnerKeepsOwn(rx: Engine, es: seq<Entry>, i: nat, w: nat, x: nat)
    requires FaithfulOnLiterals(rx) && i < |es| && w < |es| && x < |es| && Covers(es[w], es[i])
    requires RecordKey(es[x], Message) == RecordKey(es[w], Message)
    requires forall j: nat :: j < |es| && Covers(es[j], es[i]) ==>
               Rank(RecordKeys(es, Message), w) <= Rank(RecordKeys(es, Message), j)
    ensures BinOf(rx, Generated(es, Message), es[x]) == Some(Claimed(RecordKey(es[w], Message).value))
  {
    hide RecordKeys;
    var rows, gk := Generated(es, Message), RecordKeys(es, Message);
    var r', w' := MessageClaim(rx, es, x);
    EscapeInjective(es[x].message, es[w].message);
    ContainsTransitive(es[i].message, es[x].message, es[w'].message);
    assert Covers(es[w'], es[i]);
    assert gk[x] == gk[w];
    RankUnique(gk, x, Rank(gk, w));
    assert Rank(gk, w') == Rank(gk, w);
    assert gk[w'] == gk[w] by {
      assert gk[Rank(gk, w')] == gk[w'] && gk[Rank(gk, w)] == gk[w];
    }
    BinOfClaim(rx, rows, es[x]);
  }

  /**
   Message mode, exactly: generating and filtering the same stream silences every
   diagnostic that has a rule and audits clean if and only if no message shadows a
   longer one recorded after it.
   */
  lemma GenerateMessageSettlesIff(rx: Engine, es: seq<Entry>)
    requires FaithfulOnLiterals(rx)
    ensures Settled(rx, Generated(es, Message), es, Message) <==> Unshadowed(es)
    ensures Surfaced(rx, Generated(es, Message), es) == Keyless(RecordKeys(es, Message)) <==> Unshadowed(es)
  {
    var rows, gk := Generated(es, Message), RecordKeys(es, Message);
    if Unshadowed(es) {
      UnshadowedOwns(rx, es);
      OwnClaimsSettle(rx, es, Message);
    } else {
      var i: nat, j: nat :| i < |es| && j < |es| && Covers(es[j], es[i]) && Rank(gk, j) < Rank(gk, i);
      var r, w := MessageClaim(rx, es, i);
      if gk[w] == gk[i] {
        RankUnique(gk, w, Rank(gk, i));
      }
      StolenGoesOver(rx, es, i, r, w);
      SurfacedMembers(rx, rows, es);
      assert i in Surfaced(rx, rows, es) && i !in Keyless(gk);
    }
  }

  /** A short message seen first takes over a longer one: recording these two and filtering does not settle. */
  lemma ShadowExample(rx: Engine)
    requires FaithfulOnLiterals(rx)
    ensures var es := [Entry("f", Some("r"), "a"), Entry("f", Some("r"), "ab")];
            !Settled(rx, Generated(es, Message), es, Message)
  {
    var es := [Entry("f", Some("r"), "a"), Entry("f", Some("r"), "ab")];
    var gk := RecordKeys(es, Message);
    assert At("ab", "a", 0);
    assert Covers(es[0], es[1]);
    if gk[0] == gk[1] {
      EscapeInjective("a", "ab");
    }
    assert Rank(gk, 0) == 0 && Rank(gk, 1) == 1;
    GenerateMessageSettlesIff(rx, es);
  }
}
