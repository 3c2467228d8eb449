/** The in-memory baseline: recorded rows, live diagnostics, and which row claims which diagnostic. */
module Baseline {
  import opened Wrappers

  /** One `ignored:` row. `message` holds the pattern source of a message row. */
  datatype Bucket = Bucket(file: string, rule: string, message: Option<string>, count: nat)

  /** A live diagnostic with its project-relative path; `rule` is `None` for a parse error. */
  datatype Entry = Entry(rel: string, rule: Option<string>, message: string)

  /** The regex engine, a function of the pattern source: does it compile, does it match a text. */
  datatype Engine = Engine(compiles: string -> bool, matches: (string, string) -> bool)

  /** What identifies a row apart from its threshold. */
  datatype RowKey = RowKey(file: string, rule: string, message: Option<string>)

  /** What identifies a bin of the filter. */
  datatype BinKey = Claimed(row: RowKey) | NoBucket(file: string, rule: string)

  function KeyOf(b: Bucket): RowKey {
    RowKey(b.file, b.rule, b.message)
  }

  /** `b` is a message row (`byMessage`) whose pattern matches `e`, or a rule row for `e`. */
  predicate Hit(rx: Engine, b: Bucket, e: Entry, byMessage: bool) {
    && b.file == e.rel
    && e.rule == Some(b.rule)
    && b.message.Some? == byMessage
    && (byMessage ==> rx.compiles(b.message.value) && rx.matches(b.message.value, e.message))
  }

  function FirstHit(rx: Engine, rows: seq<Bucket>, e: Entry, byMessage: bool): (r: Option<nat>)
    ensures r.Some? ==> r.value < |rows| && Hit(rx, rows[r.value], e, byMessage)
    ensures forall j :: 0 <= j < (if r.Some? then r.value else |rows|) ==> !Hit(rx, rows[j], e, byMessage)
  {
    if rows == [] then None
    else if Hit(rx, rows[0], e, byMessage) then Some(0)
    else
      match FirstHit(rx, rows[1..], e, byMessage)
      case None => None
      case Some(i) => Some(i + 1)
  }

  lemma FirstHitAt(rx: Engine, rows: seq<Bucket>, e: Entry, byMessage: bool, i: nat)
    requires i < |rows| && Hit(rx, rows[i], e, byMessage)
    requires forall j :: 0 <= j < i ==> !Hit(rx, rows[j], e, byMessage)
    ensures FirstHit(rx, rows, e, byMessage) == Some(i)
  {
    var r := FirstHit(rx, rows, e, byMessage);
    assert r.None? ==> i < |rows|;
  }

  lemma FirstHitNone(rx: Engine, rows: seq<Bucket>, e: Entry, byMessage: bool)
    requires forall j :: 0 <= j < |rows| ==> !Hit(rx, rows[j], e, byMessage)
    ensures FirstHit(rx, rows, e, byMessage) == None
  {
  }

  /** The row that claims `e`: the first matching message row, else the first rule row. */
  function Claim(rx: Engine, rows: seq<Bucket>, e: Entry): Option<nat> {
    match FirstHit(rx, rows, e, true)
    case Some(i) => Some(i)
    case None => FirstHit(rx, rows, e, false)
  }

  /** A row whose pattern matches the message of `e`. */
  predicate MatchedBy(rx: Engine, b: Bucket, e: Entry) {
    && b.file == e.rel && e.rule.Some? && e.rule.value == b.rule
    && b.message.Some? && rx.compiles(b.message.value) && rx.matches(b.message.value, e.message)
  }

  /** A row without a pattern for the file and rule of `e`. */
  predicate RuleRowFor(b: Bucket, e: Entry) {
    b.file == e.rel && e.rule.Some? && e.rule.value == b.rule && b.message.None?
  }

  /** `r` is the first matching message row; only where there is none, the first rule row; `None` where neither is. */
  predicate Takes(rx: Engine, rows: seq<Bucket>, e: Entry, r: Option<nat>) {
    if exists j :: 0 <= j < |rows| && MatchedBy(rx, rows[j], e) then
      r.Some? && r.value < |rows| && MatchedBy(rx, rows[r.value], e)
      && forall j :: 0 <= j < r.value ==> !MatchedBy(rx, rows[j], e)
    else if exists j :: 0 <= j < |rows| && RuleRowFor(rows[j], e) then
      r.Some? && r.value < |rows| && RuleRowFor(rows[r.value], e)
      && forall j :: 0 <= j < r.value ==> !RuleRowFor(rows[j], e)
    else r.None?
  }

  /** Message rows come before rule rows, and among each kind the first row wins. */
  lemma ClaimTakes(rx: Engine, rows: seq<Bucket>, e: Entry, r: Option<nat>)
    ensures Takes(rx, rows, e, r) <==> r == Claim(rx, rows, e)
  {
    forall b: Bucket
      ensures Hit(rx, b, e, true) <==> MatchedBy(rx, b, e)
      ensures Hit(rx, b, e, false) <==> RuleRowFor(b, e)
    {
    }
  }

  /** The one-pass scan that finds the claiming row. */
  method ClaimBucket(rx: Engine, rows: seq<Bucket>, e: Entry) returns (r: Option<nat>)
    ensures r == Claim(rx, rows, e)
    ensures Takes(rx, rows, e, r)
  {
    forall x: Option<nat>
      ensures Takes(rx, rows, e, x) <==> x == Claim(rx, rows, e)
    {
      ClaimTakes(rx, rows, e, x);
    }
    if e.rule.None? {
      FirstHitNone(rx, rows, e, true);
      FirstHitNone(rx, rows, e, false);
      return None;
    }
    var ruleFallback: Option<nat> := None;
    for i := 0 to |rows|
      invariant forall j :: 0 <= j < i ==> !Hit(rx, rows[j], e, true)
      invariant ruleFallback.Some? ==> ruleFallback.value < i && Hit(rx, rows[ruleFallback.value], e, false)
      invariant forall j :: 0 <= j < (if ruleFallback.Some? then ruleFallback.value else i) ==>
                              !Hit(rx, rows[j], e, false)
    {
      var b := rows[i];
      if b.file != e.rel || b.rule != e.rule.value {
        continue;
      }
      if b.message.Some? {
        if rx.compiles(b.message.value) && rx.matches(b.message.value, e.message) {
          FirstHitAt(rx, rows, e, true, i);
          return Some(i);
        }
      } else if ruleFallback.None? {
        ruleFallback := Some(i);
      }
    }
    FirstHitNone(rx, rows, e, true);
    if ruleFallback.Some? {
      FirstHitAt(rx, rows, e, false, ruleFallback.value);
    } else {
      FirstHitNone(rx, rows, e, false);
    }
    return ruleFallback;
  }

  /** The first row with a given key. */
  function HomeRow(rows: seq<Bucket>, k: RowKey): (r: nat)
    ensures r <= |rows|
    ensures r < |rows| ==> KeyOf(rows[r]) == k
    ensures forall j :: 0 <= j < r ==> KeyOf(rows[j]) != k
  {
    if rows == [] || KeyOf(rows[0]) == k then 0 else 1 + HomeRow(rows[1..], k)
  }

  /**
   A claiming row is always the first row of its key, so rows repeated under one
   key never share out the diagnostics between them.
   */
  lemma ClaimIsHome(rx: Engine, rows: seq<Bucket>, e: Entry)
    requires Claim(rx, rows, e).Some?
    ensures var i := Claim(rx, rows, e).value;
            i < |rows| && i == HomeRow(rows, KeyOf(rows[i]))
  {
    var i := Claim(rx, rows, e).value;
    var h := HomeRow(rows, KeyOf(rows[i]));
    assert h < |rows| && KeyOf(rows[h]) == KeyOf(rows[i]);
    assert Hit(rx, rows[h], e, rows[i].message.Some?);
  }

  /** The bin of one diagnostic; `None` for a diagnostic without a rule. */
  function BinOf(rx: Engine, rows: seq<Bucket>, e: Entry): Option<BinKey> {
    if e.rule.None? then None
    else
      match Claim(rx, rows, e)
      case Some(i) => Some(Claimed(KeyOf(rows[i])))
      case None => Some(NoBucket(e.rel, e.rule.value))
  }

  function Bins(rx: Engine, rows: seq<Bucket>, es: seq<Entry>): (r: seq<Option<BinKey>>)
    ensures |r| == |es| && forall i :: 0 <= i < |es| ==> r[i] == BinOf(rx, rows, es[i])
  {
    seq(|es|, i requires 0 <= i < |es| => BinOf(rx, rows, es[i]))
  }
}
