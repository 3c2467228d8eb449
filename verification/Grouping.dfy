/**
 Stable group-by over a stream of optional keys.

 A position whose key is `None` belongs to no group. Groups come out in the
 order in which their keys first appear, the members of a group in stream
 order, and the keyless positions last.
 */
module Grouping {
  import opened Wrappers

  /** The positions of key `k`, in stream order. */
  function Occurrences<K(==,!new)>(ks: seq<Option<K>>, k: K): (r: seq<nat>)
    ensures forall x: nat :: x in r <==> x < |ks| && ks[x] == Some(k)
    ensures forall x :: 0 <= x < |r| ==> r[x] < |ks|
    ensures forall x, y :: 0 <= x < y < |r| ==> r[x] < r[y]
  {
    if ks == [] then []
    else
      var n := |ks| - 1;
      Occurrences(ks[..n], k) + if ks[n] == Some(k) then [n] else []
  }

  /** The positions without a key, in stream order. */
  function Keyless<K(==,!new)>(ks: seq<Option<K>>): (r: seq<nat>)
    ensures forall x: nat :: x in r <==> x < |ks| && ks[x].None?
    ensures forall x :: 0 <= x < |r| ==> r[x] < |ks|
    ensures forall x, y :: 0 <= x < y < |r| ==> r[x] < r[y]
  {
    if ks == [] then []
    else
      var n := |ks| - 1;
      Keyless(ks[..n]) + if ks[n].None? then [n] else []
  }

  lemma OccurrencesStep<K(!new)>(ks: seq<Option<K>>, o: Option<K>, k: K)
    ensures Occurrences(ks + [o], k) == Occurrences(ks, k) + if o == Some(k) then [|ks|] else []
  {
    assert (ks + [o])[..|ks|] == ks;
  }

  lemma KeylessStep<K(!new)>(ks: seq<Option<K>>, o: Option<K>)
    ensures Keyless(ks + [o]) == Keyless(ks) + if o.None? then [|ks|] else []
  {
    assert (ks + [o])[..|ks|] == ks;
  }

  /** The distinct keys, in order of first appearance. */
  function FirstSeen<K(==,!new)>(ks: seq<Option<K>>): (r: seq<K>)
    ensures forall k :: k in r <==> Some(k) in ks
    ensures forall x, y :: 0 <= x < y < |r| ==> r[x] != r[y]
  {
    if ks == [] then []
    else
      var n := |ks| - 1;
      var before := FirstSeen(ks[..n]);
      assert ks == ks[..n] + [ks[n]];
      if ks[n].Some? && ks[n].value !in before then before + [ks[n].value] else before
  }

  lemma PrefixStep<T>(s: seq<T>, i: nat)
    requires i < |s|
    ensures s[..i + 1] == s[..i] + [s[i]]
  {
  }

  lemma FirstSeenStep<K(!new)>(ks: seq<Option<K>>, o: Option<K>)
    ensures FirstSeen(ks + [o]) ==
            if o.Some? && o.value !in FirstSeen(ks) then FirstSeen(ks) + [o.value] else FirstSeen(ks)
  {
    assert (ks + [o])[..|ks|] == ks;
  }

  lemma FirstSeenWitness<K(!new)>(ks: seq<Option<K>>, k: K) returns (i: nat)
    requires k in FirstSeen(ks)
    ensures i < |ks| && ks[i] == Some(k)
  {
    i :| i < |ks| && ks[i] == Some(k);
  }

  /** The groups of `keys`, one after the other, leaving out those in `quiet`. */
  function Groups<K(==,!new)>(ks: seq<Option<K>>, keys: seq<K>, quiet: set<K>): seq<nat>
  {
    if keys == [] then []
    else
      var n := |keys| - 1;
      Groups(ks, keys[..n], quiet) + if keys[n] in quiet then [] else Occurrences(ks, keys[n])
  }

  /** The whole regrouped stream: every group outside `quiet`, then the keyless positions. */
  function Grouped<K(==,!new)>(ks: seq<Option<K>>, quiet: set<K>): seq<nat>
  {
    Groups(ks, FirstSeen(ks), quiet) + Keyless(ks)
  }

  /** How many positions belong to the groups of `keys` that are in `among`. */
  function Population<K(==,!new)>(ks: seq<Option<K>>, keys: seq<K>, among: set<K>): nat
  {
    if keys == [] then 0
    else
      var n := |keys| - 1;
      Population(ks, keys[..n], among) + if keys[n] in among then |Occurrences(ks, keys[n])| else 0
  }

  /** The position at which the key of `i` first appears; keyless positions come after all others. */
  function Rank<K(==,!new)>(ks: seq<Option<K>>, i: nat): (r: nat)
    requires i < |ks|
    ensures ks[i].None? ==> r == |ks|
    ensures ks[i].Some? ==> r <= i && ks[r] == ks[i] && forall j :: 0 <= j < r ==> ks[j] != ks[i]
  {
    if ks[i].None? then |ks| else First(ks, ks[i], i)
  }

  function First<K(==,!new)>(ks: seq<Option<K>>, o: Option<K>, upTo: nat): (r: nat)
    requires upTo < |ks| && ks[upTo] == o
    ensures r <= upTo && ks[r] == o && forall j :: 0 <= j < r ==> ks[j] != o
    decreases |ks|
  {
    if ks[0] == o then 0 else 1 + First(ks[1..], o, upTo - 1)
  }

  /** The order of the regrouped stream: by group, then by position. */
  predicate Before<K(==,!new)>(ks: seq<Option<K>>, i: nat, j: nat)
    requires i < |ks| && j < |ks|
  {
    Rank(ks, i) < Rank(ks, j) || (Rank(ks, i) == Rank(ks, j) && i < j)
  }

  ghost predicate InRange<K(!new)>(ks: seq<Option<K>>, r: seq<nat>) {
    forall x :: 0 <= x < |r| ==> r[x] < |ks|
  }

  ghost predicate Ordered<K(!new)>(ks: seq<Option<K>>, r: seq<nat>)
    requires InRange(ks, r)
  {
    forall x, y :: 0 <= x < y < |r| ==> Before(ks, r[x], r[y])
  }

  lemma {:induction false} GroupsMembers<K(!new)>(ks: seq<Option<K>>, keys: seq<K>, quiet: set<K>)
    ensures forall i: nat :: i in Groups(ks, keys, quiet) <==>
                        i < |ks| && ks[i].Some? && ks[i].value in keys && ks[i].value !in quiet
  {
    if keys != [] {
      var n := |keys| - 1;
      GroupsMembers(ks, keys[..n], quiet);
      assert keys == keys[..n] + [keys[n]];
    }
  }

  /** Exactly the positions outside the quiet groups survive. */
  lemma GroupedMembers<K(!new)>(ks: seq<Option<K>>, quiet: set<K>)
    ensures forall i: nat :: i in Grouped(ks, quiet) <==>
                        i < |ks| && (ks[i].None? || ks[i].value !in quiet)
  {
    GroupsMembers(ks, FirstSeen(ks), quiet);
    forall i: nat | i < |ks| && ks[i].Some?
      ensures ks[i].value in FirstSeen(ks)
    {
      assert ks[i] in ks;
    }
  }

  lemma RankUnique<K(!new)>(ks: seq<Option<K>>, i: nat, r: nat)
    requires i < |ks| && r < |ks| && ks[i].Some? && ks[r] == ks[i]
    requires forall j :: 0 <= j < r ==> ks[j] != ks[i]
    ensures Rank(ks, i) == r
  {
  }

  /** Distinct keys listed by `FirstSeen` appear in that order in the stream. */
  lemma {:induction false} FirstSeenOrder<K(!new)>(ks: seq<Option<K>>, x: nat, y: nat) returns (a: nat, b: nat)
    requires x < y < |FirstSeen(ks)|
    ensures a < b < |ks| && ks[a] == Some(FirstSeen(ks)[x]) && ks[b] == Some(FirstSeen(ks)[y])
    ensures forall j :: 0 <= j < a ==> ks[j] != ks[a]
    ensures forall j :: 0 <= j < b ==> ks[j] != ks[b]
  {
    var n := |ks| - 1;
    var before := FirstSeen(ks[..n]);
    if y < |before| {
      a, b := FirstSeenOrder(ks[..n], x, y);
    } else {
      assert FirstSeen(ks) == before + [ks[n].value];
      assert before[x] in before;
      assert Some(before[x]) in ks[..n];
      var c: nat :| c < n && ks[c] == Some(before[x]);
      a, b := Rank(ks, c), n;
      forall j | 0 <= j < n
        ensures ks[j] != ks[n]
      {
        assert ks[..n][j] in ks[..n];
      }
    }
  }

  /** Adding the group of a later key keeps the order. */
  lemma GroupAppends<K(!new)>(ks: seq<Option<K>>, n: nat, g: seq<nat>)
    requires n < |FirstSeen(ks)| && InRange(ks, g) && Ordered(ks, g)
    requires forall i :: i in g ==> ks[i].Some? && ks[i].value in FirstSeen(ks)[..n]
    ensures InRange(ks, g + Occurrences(ks, FirstSeen(ks)[n])) && Ordered(ks, g + Occurrences(ks, FirstSeen(ks)[n]))
  {
    var keys := FirstSeen(ks);
    var occ := Occurrences(ks, keys[n]);
    var all := g + occ;
    assert forall x :: 0 <= x < |occ| ==> occ[x] in occ;
    forall x, y | 0 <= x < y < |all|
      ensures Before(ks, all[x], all[y])
    {
      if y < |g| {
        assert Before(ks, g[x], g[y]);
      } else if x < |g| {
        assert g[x] in g && all[y] == occ[y - |g|];
        LaterGroup(ks, n, g[x], occ[y - |g|]);
      } else {
        assert all[x] == occ[x - |g|] && all[y] == occ[y - |g|];
      }
    }
  }

  lemma LaterGroup<K(!new)>(ks: seq<Option<K>>, n: nat, i: nat, j: nat)
    requires n < |FirstSeen(ks)| && i < |ks| && j < |ks|
    requires ks[i].Some? && ks[i].value in FirstSeen(ks)[..n] && ks[j] == Some(FirstSeen(ks)[n])
    ensures Before(ks, i, j)
  {
    var keys := FirstSeen(ks);
    var a :| 0 <= a < n && keys[a] == ks[i].value;
    var a', b' := FirstSeenOrder(ks, a, n);
    RankUnique(ks, i, a');
    RankUnique(ks, j, b');
  }

  /** The groups of one key more. */
  lemma GroupsStep<K(!new)>(ks: seq<Option<K>>, n: nat, quiet: set<K>)
    requires n < |FirstSeen(ks)|
    ensures Groups(ks, FirstSeen(ks)[..n + 1], quiet) ==
            Groups(ks, FirstSeen(ks)[..n], quiet)
            + if FirstSeen(ks)[n] in quiet then [] else Occurrences(ks, FirstSeen(ks)[n])
  {
    var keys := FirstSeen(ks);
    assert keys[..n + 1][..n] == keys[..n] && keys[..n + 1][n] == keys[n];
  }

  lemma {:induction false} GroupsOrdered<K(!new)>(ks: seq<Option<K>>, n: nat, quiet: set<K>)
    requires n <= |FirstSeen(ks)|
    ensures InRange(ks, Groups(ks, FirstSeen(ks)[..n], quiet))
    ensures Ordered(ks, Groups(ks, FirstSeen(ks)[..n], quiet))
  {
    if n > 0 {
      var keys := FirstSeen(ks);
      GroupsOrdered(ks, n - 1, quiet);
      GroupsMembers(ks, keys[..n - 1], quiet);
      GroupsStep(ks, n - 1, quiet);
      GroupAppends(ks, n - 1, Groups(ks, keys[..n - 1], quiet));
    }
  }

  lemma GroupedOrdered<K(!new)>(ks: seq<Option<K>>, quiet: set<K>)
    ensures InRange(ks, Grouped(ks, quiet)) && Ordered(ks, Grouped(ks, quiet))
  {
    var keys := FirstSeen(ks);
    assert keys[..|keys|] == keys;
    GroupsOrdered(ks, |keys|, quiet);
    GroupsMembers(ks, keys, quiet);
    GroupsThenKeyless(ks, Groups(ks, keys, quiet));
  }

  lemma GroupsThenKeyless<K(!new)>(ks: seq<Option<K>>, g: seq<nat>)
    requires InRange(ks, g) && Ordered(ks, g) && forall i :: i in g ==> ks[i].Some?
    ensures InRange(ks, g + Keyless(ks)) && Ordered(ks, g + Keyless(ks))
  {
    var rest := Keyless(ks);
    var all := g + rest;
    forall x | 0 <= x < |all|
      ensures all[x] < |ks| && (x < |g| <==> ks[all[x]].Some?)
    {
      if x < |g| {
        assert g[x] in g;
      } else {
        assert rest[x - |g|] in rest;
      }
    }
    forall x, y | 0 <= x < y < |all|
      ensures Before(ks, all[x], all[y])
    {
      if y < |g| {
        assert Before(ks, g[x], g[y]);
      }
    }
  }

  /** A regrouped stream is determined by its members: the order leaves no choice. */
  lemma {:induction false} OrderedUnique<K(!new)>(ks: seq<Option<K>>, a: seq<nat>, b: seq<nat>)
    requires InRange(ks, a) && InRange(ks, b) && Ordered(ks, a) && Ordered(ks, b)
    requires forall i :: i in a <==> i in b
    ensures a == b
  {
    if a == [] {
      assert forall i :: 0 <= i < |b| ==> b[i] in b;
    } else {
      assert a[0] in a && a[0] in b;
      assert b[0] in b && b[0] in a;
      assert a[0] == b[0];
      forall i
        ensures i in a[1..] <==> i in b[1..]
      {
        assert i in a <==> i == a[0] || i in a[1..];
        assert i in b <==> i == b[0] || i in b[1..];
        assert a[0] !in a[1..] && b[0] !in b[1..];
      }
      OrderedUnique(ks, a[1..], b[1..]);
      assert a == [a[0]] + a[1..] && b == [b[0]] + b[1..];
    }
  }

  lemma {:induction false} PopulationSplit<K(!new)>(ks: seq<Option<K>>, keys: seq<K>, quiet: set<K>, all: set<K>)
    requires forall k :: k in keys ==> k in all
    ensures |Groups(ks, keys, quiet)| + Population(ks, keys, quiet) == Population(ks, keys, all)
  {
    if keys != [] {
      var n := |keys| - 1;
      assert keys[n] in keys;
      PopulationSplit(ks, keys[..n], quiet, all);
    }
  }

  lemma {:induction false} PopulationStep<K(!new)>(ks: seq<Option<K>>, o: Option<K>, keys: seq<K>, among: set<K>)
    requires forall x, y :: 0 <= x < y < |keys| ==> keys[x] != keys[y]
    ensures Population(ks + [o], keys, among) == Population(ks, keys, among)
              + if o.Some? && o.value in keys && o.value in among then 1 else 0
  {
    hide Occurrences;
    if keys != [] {
      var n := |keys| - 1;
      PopulationStep(ks, o, keys[..n], among);
      OccurrencesStep(ks, o, keys[n]);
      assert keys == keys[..n] + [keys[n]];
    }
  }

  /** The groups and the keyless positions together are the whole stream. */
  lemma {:induction false} PopulationTotal<K(!new)>(ks: seq<Option<K>>, all: set<K>)
    requires forall i :: 0 <= i < |ks| && ks[i].Some? ==> ks[i].value in all
    ensures Population(ks, FirstSeen(ks), all) + |Keyless(ks)| == |ks|
  {
    if ks != [] {
      var n := |ks| - 1;
      var front := ks[..n];
      assert ks == front + [ks[n]];
      PopulationTotal(front, all);
      PopulationStep(front, ks[n], FirstSeen(front), all);
      if ks[n].Some? && ks[n].value !in FirstSeen(front) {
        var k := ks[n].value;
        assert FirstSeen(ks) == FirstSeen(front) + [k];
        assert FirstSeen(ks)[..|FirstSeen(ks)| - 1] == FirstSeen(front);
        NoOccurrence(front, k);
      }
    }
  }

  lemma {:induction false} NoOccurrence<K(!new)>(ks: seq<Option<K>>, k: K)
    requires Some(k) !in ks
    ensures Occurrences(ks, k) == []
  {
    if ks != [] {
      var n := |ks| - 1;
      assert ks == ks[..n] + [ks[n]];
      NoOccurrence(ks[..n], k);
    }
  }

  /** Conservation: what is kept plus what is dropped is what came in. */
  lemma GroupedConserves<K(!new)>(ks: seq<Option<K>>, quiet: set<K>)
    ensures |Grouped(ks, quiet)| + Population(ks, FirstSeen(ks), quiet) == |ks|
  {
    var all := set k | k in FirstSeen(ks);
    forall i | 0 <= i < |ks| && ks[i].Some?
      ensures ks[i].value in all
    {
      assert ks[i] in ks;
    }
    PopulationSplit(ks, FirstSeen(ks), quiet, all);
    PopulationTotal(ks, all);
  }

  // ---- counting ------------------------------------------------------------

  ghost function Positions<K(!new)>(ks: seq<Option<K>>, k: K): set<nat> {
    set i: nat | i < |ks| && ks[i] == Some(k)
  }

  lemma {:induction false} IncreasingCard(r: seq<nat>, s: set<nat>)
    requires forall x, y :: 0 <= x < y < |r| ==> r[x] < r[y]
    requires forall i :: i in r <==> i in s
    ensures |r| == |s|
  {
    if r == [] {
      assert s == {};
    } else {
      var n := |r| - 1;
      assert r == r[..n] + [r[n]];
      assert r[n] in r && r[n] !in r[..n];
      IncreasingCard(r[..n], s - {r[n]});
    }
  }

  lemma OccurrencesCard<K(!new)>(ks: seq<Option<K>>, k: K)
    ensures |Occurrences(ks, k)| == |Positions(ks, k)|
  {
    IncreasingCard(Occurrences(ks, k), Positions(ks, k));
  }

  lemma SubsetCard(a: set<nat>, b: set<nat>)
    requires a <= b
    ensures |a| <= |b|
  {
    assert b == a + (b - a);
  }

  /** A key that gains a position and loses none is counted more often. */
  lemma ExtraMember<K(!new), J(!new)>(ks: seq<Option<K>>, js: seq<Option<J>>, k: K, j: J, i: nat)
    requires |ks| == |js| && i < |ks| && js[i] != Some(j) && ks[i] == Some(k)
    requires forall x :: 0 <= x < |ks| && js[x] == Some(j) ==> ks[x] == Some(k)
    ensures |Occurrences(ks, k)| > |Occurrences(js, j)|
  {
    OccurrencesCard(ks, k);
    OccurrencesCard(js, j);
    SubsetCard(Positions(js, j) + {i}, Positions(ks, k));
  }

  /** The image of a set of positions under a sequence is no larger than the set. */
  lemma {:induction false} ImageCard(g: seq<nat>, s: set<nat>, t: set<nat>)
    requires forall j :: j in s ==> j < |g|
    requires forall i :: i in t ==> exists j :: j in s && g[j] == i
    ensures |t| <= |s|
  {
    if s == {} {
      assert t == {};
    } else {
      var j :| j in s;
      var t' := t - {g[j]};
      forall i | i in t'
        ensures exists x :: x in s - {j} && g[x] == i
      {
        var x :| x in s && g[x] == i;
        assert x in s - {j};
      }
      ImageCard(g, s - {j}, t');
      assert t <= t' + {g[j]};
      SubsetCard(t, t' + {g[j]});
    }
  }

  /** Selecting every position of a key, in whatever order, does not lower its count. */
  lemma SelectionKeepsCount<K(!new)>(ks: seq<Option<K>>, g: seq<nat>, k: K)
    requires InRange(ks, g)
    requires forall i: nat :: i < |ks| && ks[i] == Some(k) ==> i in g
    ensures |Occurrences(Select(ks, g), k)| >= |Occurrences(ks, k)|
  {
    var ks2 := Select(ks, g);
    OccurrencesCard(ks, k);
    OccurrencesCard(ks2, k);
    forall i | i in Positions(ks, k)
      ensures exists j :: j in Positions(ks2, k) && g[j] == i
    {
      assert i in g;
      var j :| 0 <= j < |g| && g[j] == i;
      assert j in Positions(ks2, k);
    }
    ImageCard(g, Positions(ks2, k), Positions(ks, k));
  }

  /** Selecting without repetition does not raise the count of any key. */
  lemma SelectionBoundsCount<K(!new)>(ks: seq<Option<K>>, g: seq<nat>, k: K)
    requires InRange(ks, g)
    requires forall x, y :: 0 <= x < y < |g| ==> g[x] != g[y]
    ensures |Occurrences(Select(ks, g), k)| <= |Occurrences(ks, k)|
  {
    var ks2 := Select(ks, g);
    OccurrencesCard(ks, k);
    OccurrencesCard(ks2, k);
    InjectiveCard(g, Positions(ks2, k), Positions(ks, k));
  }

  lemma {:induction false} InjectiveCard(g: seq<nat>, s: set<nat>, t: set<nat>)
    requires forall j :: j in s ==> j < |g| && g[j] in t
    requires forall x, y :: x in s && y in s && x != y ==> g[x] != g[y]
    ensures |s| <= |t|
  {
    if s != {} {
      var j :| j in s;
      InjectiveCard(g, s - {j}, t - {g[j]});
    }
  }

  function Select<T>(xs: seq<T>, g: seq<nat>): (r: seq<T>)
    requires forall x :: 0 <= x < |g| ==> g[x] < |xs|
    ensures |r| == |g| && forall x :: 0 <= x < |g| ==> r[x] == xs[g[x]]
  {
    seq(|g|, x requires 0 <= x < |g| => xs[g[x]])
  }

  function Iota(n: nat): (r: seq<nat>)
    ensures |r| == n && forall x :: 0 <= x < n ==> r[x] == x
    ensures forall i: nat :: i in r <==> i < n
  {
    var r: seq<nat> := seq(n, x => x);
    assert forall i: nat | i < n :: i in r by {
      forall i: nat | i < n
        ensures i in r
      {
        assert r[i] == i;
      }
    }
    r
  }

  /** Regrouping an already regrouped stream changes nothing. */
  lemma RegroupIdentity<K(!new)>(ks: seq<Option<K>>, quiet: set<K>, quiet2: set<K>)
    requires InRange(ks, Grouped(ks, quiet))
    requires var ks2 := Select(ks, Grouped(ks, quiet));
             forall i :: 0 <= i < |ks2| && ks2[i].Some? ==> ks2[i].value !in quiet2
    ensures var g := Grouped(ks, quiet); Grouped(Select(ks, g), quiet2) == Iota(|g|)
  {
    var g := Grouped(ks, quiet);
    var ks2 := Select(ks, g);
    var all := Iota(|g|);
    GroupedOrdered(ks, quiet);
    GroupedMembers(ks2, quiet2);
    GroupedOrdered(ks2, quiet2);
    forall x, y | 0 <= x < y < |all|
      ensures Before(ks2, all[x], all[y])
    {
      RegroupedRanks(ks, g, x, y);
    }
    OrderedUnique(ks2, Grouped(ks2, quiet2), all);
  }

  lemma RegroupedRanks<K(!new)>(ks: seq<Option<K>>, g: seq<nat>, x: nat, y: nat)
    requires InRange(ks, g) && Ordered(ks, g) && x < y < |g|
    ensures Before(Select(ks, g), x, y)
  {
    var ks2 := Select(ks, g);
    assert Before(ks, g[x], g[y]);
    if ks2[x] != ks2[y] && ks2[x].Some? && ks2[y].Some? {
      var c := Rank(ks2, y);
      if c <= x {
        assert c != x;
        assert Before(ks, g[c], g[x]);
        assert Rank(ks, g[c]) == Rank(ks, g[y]);
      }
    }
  }
}
