/** The life of a baseline: record a run, write the file, load it on the next run, filter the same stream. */
module EndToEnd {
  import opened Wrappers
  import opened Grouping
  import opened Baseline
  import opened Filter
  import FilterLaws
  import opened Generate
  import opened RoundTrip
  import opened Survival
  import RegexpEscape
  import Reader
  import Text
  import Writer

  /** What the file format carries for any diagnostic with a rule; messages are written in message mode only. */
  predicate Recordable(es: seq<Entry>, mode: MatchMode) {
    forall e :: e in es && e.rule.Some? ==>
      Ordinary(e.rel) && Ordinary(e.rule.value) && (mode.Message? ==> Printable(e.message))
  }

  lemma {:induction false} OccurrencesBound<K(!new)>(ks: seq<Option<K>>, k: K)
    ensures |Occurrences(ks, k)| <= |ks|
  {
    if ks != [] {
      var n := |ks| - 1;
      assert ks == ks[..n] + [ks[n]];
      OccurrencesStep(ks[..n], ks[n], k);
      OccurrencesBound(ks[..n], k);
    }
  }

  lemma GeneratedRow(es: seq<Entry>, mode: MatchMode, j: nat) returns (i: nat)
    requires j < |Generated(es, mode)|
    ensures i < |es| && RecordKey(es[i], mode) == Some(KeyOf(Generated(es, mode)[j]))
    ensures 0 < Generated(es, mode)[j].count <= |es|
  {
    var gk := RecordKeys(es, mode);
    var k := FirstSeen(gk)[j];
    assert k in FirstSeen(gk);
    i := FirstSeenWitness(gk, k);
    assert i in Occurrences(gk, k);
    OccurrencesBound(gk, k);
  }

  lemma RowOfRecordable(rx: Engine, letters: Writer.Letters, e: Entry, mode: MatchMode, b: Bucket)
    requires RegexpEscape.FaithfulOnLiterals(rx)
    requires e.rule.Some? && Ordinary(e.rel) && Ordinary(e.rule.value) && (mode.Message? ==> Printable(e.message))
    requires RecordKey(e, mode) == Some(KeyOf(b)) && 0 < b.count < 0x8000_0000_0000_0000
    ensures RowSurvives(rx, Writer.StyleBy(letters), b)
  {
    OrdinarySurvives(letters, 8, b.file);
    OrdinarySurvives(letters, 8, b.rule);
    if b.message.Some? {
      EscapedSurvives(letters, 11, e.message);
      RegexpEscape.EscapedPattern(rx, e.message, e.message);
    }
  }

  /** Every recorded row survives the file. */
  lemma GeneratedSurvives(rx: Engine, letters: Writer.Letters, es: seq<Entry>, mode: MatchMode)
    requires RegexpEscape.FaithfulOnLiterals(rx) && Recordable(es, mode) && |es| < 0x8000_0000_0000_0000
    ensures AllRowsSurvive(rx, Writer.StyleBy(letters), Generated(es, mode))
  {
    var rows := Generated(es, mode);
    forall b | b in rows
      ensures RowSurvives(rx, Writer.StyleBy(letters), b)
    {
      var j :| 0 <= j < |rows| && rows[j] == b;
      var i := GeneratedRow(es, mode, j);
      assert es[i] in es;
      RowOfRecordable(rx, letters, es[i], mode, b);
    }
  }

  /**
   * Record a stream, write the file, load it and filter the same stream. The file carries the recorded rows
   * exactly when each of them survives, and then what surfaces is exactly the diagnostics without a rule:
   * always when recording by rule, and when recording by message if and only if no message shadows a longer
   * one recorded after it.
   */
  method RecordWriteLoadFilter(rx: Engine, letters: Writer.Letters, es: seq<Entry>, mode: MatchMode)
    returns (text: string, loaded: Result<seq<Bucket>, Reader.LoadError>, surfaced: seq<nat>, silenced: nat)
    requires RegexpEscape.FaithfulOnLiterals(rx)
    ensures text == Text.Unlines(Writer.DocumentLines(Writer.StyleBy(letters), Generated(es, mode)))
    ensures loaded == Reader.Load(rx, Text.Lines(text))
    ensures loaded == Ok(Generated(es, mode)) <==> AllRowsSurvive(rx, Writer.StyleBy(letters), Generated(es, mode))
    ensures Recordable(es, mode) && |es| < 0x8000_0000_0000_0000 ==> loaded == Ok(Generated(es, mode))
    ensures var rows := if loaded.Ok? then loaded.value else [];
            surfaced == Surfaced(rx, rows, es) && silenced == Silenced(rx, rows, es) && |surfaced| + silenced == |es|
    ensures loaded == Ok(Generated(es, mode)) ==>
              if mode.Rule? then surfaced == Keyless(RecordKeys(es, mode))
              else surfaced == Keyless(RecordKeys(es, mode)) <==> Unshadowed(es)
  {
    var rows := FromDiagnostics(es, mode);
    text, loaded := SaveAndLoad(rx, letters, rows);
    if Recordable(es, mode) && |es| < 0x8000_0000_0000_0000 {
      GeneratedSurvives(rx, letters, es, mode);
    }
    var active := if loaded.Ok? then loaded.value else [];
    surfaced, silenced := FilterStream(rx, active, es);
    FilterLaws.FilterConserves(rx, active, es);
    if mode.Rule? {
      GenerateRuleSettles(rx, es);
    } else {
      GenerateMessageSettlesIff(rx, es);
    }
  }
}
