/** A baseline over time: findings are fixed, cleared rows are pruned, in any order and any number of times. */
module Lifecycle {
  import opened Grouping
  import opened Baseline
  import opened Filter
  import opened FilterLaws
  import opened Audit
  import opened Generate
  import RegexpEscape

  /** The recorded rows and the diagnostics of the current run. */
  datatype World = World(rows: seq<Bucket>, es: seq<Entry>)

  /** Some diagnostics go away and the others stay in order, or rows the audit reports as cleared are removed. */
  datatype Action = Fix(remaining: seq<nat>) | Prune(remove: seq<Bucket>)

  ghost predicate Enabled(rx: Engine, w: World, a: Action) {
    match a
    case Fix(g) => (forall x :: 0 <= x < |g| ==> g[x] < |w.es|) && forall x, y :: 0 <= x < y < |g| ==> g[x] < g[y]
    case Prune(remove) => AllCleared(rx, w.rows, w.es, remove)
  }

  ghost function Next(rx: Engine, w: World, a: Action): World
    requires Enabled(rx, w, a)
  {
    match a
    case Fix(g) => w.(es := Select(w.es, g))
    case Prune(remove) => w.(rows := Without(w.rows, remove))
  }

  ghost predicate RunsTo(rx: Engine, w: World, actions: seq<Action>, w': World)
    decreases |actions|
  {
    if actions == [] then w == w'
    else Enabled(rx, w, actions[0]) && RunsTo(rx, Next(rx, w, actions[0]), actions[1..], w')
  }

  /** Nothing that has a rule surfaces. */
  ghost predicate Quiet(rx: Engine, w: World) {
    forall i :: i in Surfaced(rx, w.rows, w.es) ==> i < |w.es| && w.es[i].rule.None?
  }

  lemma FixKeepsQuiet(rx: Engine, w: World, g: seq<nat>)
    requires Quiet(rx, w) && Enabled(rx, w, Fix(g))
    ensures Quiet(rx, Next(rx, w, Fix(g)))
  {
    var part := Select(w.es, g);
    forall x | x in Surfaced(rx, w.rows, part)
      ensures x < |part| && part[x].rule.None?
    {
      FilterMonotone(rx, w.rows, w.es, g, x);
    }
  }

  lemma PruneKeepsQuiet(rx: Engine, w: World, remove: seq<Bucket>)
    requires Quiet(rx, w) && Enabled(rx, w, Prune(remove))
    ensures Quiet(rx, Next(rx, w, Prune(remove)))
  {
    PruneInvisible(rx, w.rows, w.es, remove);
  }

  /** A quiet baseline stays quiet over every run of fixes and prunes. */
  lemma {:induction false} QuietRuns(rx: Engine, w: World, actions: seq<Action>, w': World)
    requires Quiet(rx, w) && RunsTo(rx, w, actions, w')
    ensures Quiet(rx, w')
    decreases |actions|
  {
    if actions != [] {
      match actions[0] {
        case Fix(g) => FixKeepsQuiet(rx, w, g);
        case Prune(remove) => PruneKeepsQuiet(rx, w, remove);
      }
      QuietRuns(rx, Next(rx, w, actions[0]), actions[1..], w');
    }
  }

  lemma SettledQuiet(rx: Engine, es: seq<Entry>, mode: MatchMode)
    requires Settled(rx, Generated(es, mode), es, mode)
    ensures Quiet(rx, World(Generated(es, mode), es))
  {
    var gk := RecordKeys(es, mode);
    assert forall i :: i in Keyless(gk) ==> i < |es| && gk[i].None?;
  }

  /** Once recorded by rule, no diagnostic with a rule surfaces until a new one appears. */
  lemma RecordedByRuleStaysQuiet(rx: Engine, es: seq<Entry>, actions: seq<Action>, w: World)
    requires RunsTo(rx, World(Generated(es, MatchMode.Rule), es), actions, w)
    ensures Quiet(rx, w)
  {
    GenerateRuleSettles(rx, es);
    SettledQuiet(rx, es, MatchMode.Rule);
    QuietRuns(rx, World(Generated(es, MatchMode.Rule), es), actions, w);
  }

  /** Recorded by message, every run stays quiet exactly when no message shadows one recorded after it. */
  lemma RecordedByMessageStaysQuietIff(rx: Engine, es: seq<Entry>)
    requires RegexpEscape.FaithfulOnLiterals(rx)
    ensures (forall actions, w :: RunsTo(rx, World(Generated(es, MatchMode.Message), es), actions, w) ==> Quiet(rx, w))
      <==> Unshadowed(es)
  {
    hide Surfaced, Generated, Settled, Unshadowed;
    var start := World(Generated(es, MatchMode.Message), es);
    GenerateMessageSettlesIff(rx, es);
    if Unshadowed(es) {
      SettledQuiet(rx, es, MatchMode.Message);
      forall actions, w | RunsTo(rx, start, actions, w)
        ensures Quiet(rx, w)
      {
        QuietRuns(rx, start, actions, w);
      }
    } else {
      var i := LoudWitness(rx, es);
      assert !Quiet(rx, start);
      assert RunsTo(rx, start, [], start);
    }
  }

  lemma LoudWitness(rx: Engine, es: seq<Entry>) returns (i: nat)
    requires RegexpEscape.FaithfulOnLiterals(rx) && !Unshadowed(es)
    ensures i in Surfaced(rx, Generated(es, MatchMode.Message), es) && i < |es| && es[i].rule.Some?
  {
    var rows, gk := Generated(es, MatchMode.Message), RecordKeys(es, MatchMode.Message);
    GenerateMessageSettlesIff(rx, es);
    if forall i :: i in Surfaced(rx, rows, es) ==> i < |es| && es[i].rule.None? {
      SurfacedMembers(rx, rows, es);
      forall i: nat | i < |es| && es[i].rule.None?
        ensures i in Surfaced(rx, rows, es)
      {
        RulelessIsUnclaimed(rx, rows, es[i]);
      }
      SettledOrder(rx, rows, es, gk);
    }
    SurfacedMembers(rx, rows, es);
    i :| i in Surfaced(rx, rows, es) && es[i].rule.Some?;
  }
}
