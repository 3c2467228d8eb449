/** Sorting sets of strings by code point, as `sorted` does. */
module Ordering {

  predicate Less(a: string, b: string) {
    b != [] && (a == [] || a[0] < b[0] || (a[0] == b[0] && Less(a[1..], b[1..])))
  }

  /** The first difference decides, and a proper prefix comes first. */
  ghost predicate ByCode(a: string, b: string) {
    exists i: nat :: i <= |a| && i < |b| && a[..i] == b[..i] && (i < |a| ==> a[i] < b[i])
  }

  lemma {:induction false} LessIff(a: string, b: string)
    ensures Less(a, b) <==> ByCode(a, b)
  {
    if a == [] || b == [] || a[0] != b[0] {
      assert a[..0] == b[..0];
      forall i: nat | 0 < i <= |a| && i < |b|
        ensures a[..i] != b[..i]
      {
        assert a[..i][0] == a[0] && b[..i][0] == b[0];
      }
    } else {
      LessIff(a[1..], b[1..]);
      if Less(a[1..], b[1..]) {
        var i: nat :| i <= |a[1..]| && i < |b[1..]| && a[1..][..i] == b[1..][..i] && (i < |a[1..]| ==> a[1..][i] < b[1..][i]);
        assert a[..i + 1] == [a[0]] + a[1..][..i] && b[..i + 1] == [b[0]] + b[1..][..i];
      }
      if i: nat :| i <= |a| && i < |b| && a[..i] == b[..i] && (i < |a| ==> a[i] < b[i]) {
        assert i > 0;
        assert a[1..][..i - 1] == a[..i][1..] && b[1..][..i - 1] == b[..i][1..];
      }
    }
  }

  lemma {:induction false} LessIrreflexive(a: string)
    ensures !Less(a, a)
  {
    if a != [] {
      LessIrreflexive(a[1..]);
    }
  }

  lemma {:induction false} LessTransitive(a: string, b: string, c: string)
    requires Less(a, b) && Less(b, c)
    ensures Less(a, c)
  {
    if a != [] && a[0] == b[0] && b[0] == c[0] {
      LessTransitive(a[1..], b[1..], c[1..]);
    }
  }

  lemma {:induction false} LessTotal(a: string, b: string)
    requires a != b
    ensures Less(a, b) || Less(b, a)
  {
    if a != [] && b != [] && a[0] == b[0] {
      assert a == [a[0]] + a[1..] && b == [b[0]] + b[1..];
      LessTotal(a[1..], b[1..]);
    }
  }

  predicate Increasing(r: seq<string>) {
    |r| <= 1 || (Less(r[0], r[1]) && Increasing(r[1..]))
  }

  /** `r` lists the members of `s` in increasing order. */
  ghost predicate Sorts(r: seq<string>, s: set<string>) {
    Increasing(r) && forall x :: x in r <==> x in s
  }

  /** The first of an increasing list is below all others. */
  lemma {:induction false} IncreasingFirst(r: seq<string>, j: nat)
    requires Increasing(r) && 0 < j < |r|
    ensures Less(r[0], r[j])
  {
    if j > 1 {
      IncreasingFirst(r[1..], j - 1);
      LessTransitive(r[0], r[1], r[j]);
    }
  }

  lemma {:induction false} IncreasingPairs(r: seq<string>, i: nat, j: nat)
    requires Increasing(r) && i < j < |r|
    ensures Less(r[i], r[j])
  {
    if i == 0 {
      IncreasingFirst(r, j);
    } else {
      IncreasingPairs(r[1..], i - 1, j - 1);
    }
  }

  lemma SortsDistinct(r: seq<string>, s: set<string>)
    requires Sorts(r, s)
    ensures forall i, j :: 0 <= i < j < |r| ==> r[i] != r[j]
  {
    forall i, j | 0 <= i < j < |r|
      ensures r[i] != r[j]
    {
      IncreasingPairs(r, i, j);
      LessIrreflexive(r[i]);
    }
  }

  lemma SortsFirst(r: seq<string>, s: set<string>, x: string)
    requires Sorts(r, s) && x in s
    ensures r != [] && (x == r[0] || Less(r[0], x))
  {
    var k :| 0 <= k < |r| && r[k] == x;
    if k > 0 {
      IncreasingFirst(r, k);
    }
  }

  lemma SortsTail(r: seq<string>, s: set<string>)
    requires Sorts(r, s) && r != []
    ensures Sorts(r[1..], s - {r[0]}) && r[0] in s
  {
    SortsDistinct(r, s);
    assert r == [r[0]] + r[1..];
    assert r[0] !in r[1..];
  }

  /** There is only one way to sort. */
  lemma {:induction false} SortsUnique(a: seq<string>, b: seq<string>, s: set<string>)
    requires Sorts(a, s) && Sorts(b, s)
    ensures a == b
  {
    if a == [] {
      assert forall i :: 0 <= i < |b| ==> b[i] in b;
    } else {
      SortsTail(a, s);
      SortsFirst(b, s, a[0]);
      SortsTail(b, s);
      SortsFirst(a, s, b[0]);
      if a[0] != b[0] {
        LessTransitive(a[0], b[0], a[0]);
        LessIrreflexive(a[0]);
      } else {
        SortsUnique(a[1..], b[1..], s - {a[0]});
        assert a == [a[0]] + a[1..] && b == [b[0]] + b[1..];
      }
    }
  }

  /** Put `x` into its place. */
  function Insert(r: seq<string>, x: string): (r': seq<string>)
    ensures multiset(r') == multiset(r) + multiset{x}
    ensures r' != [] && (r'[0] == x || (r != [] && r'[0] == r[0]))
  {
    if r == [] || Less(x, r[0]) then [x] + r
    else
      assert r == [r[0]] + r[1..];
      [r[0]] + Insert(r[1..], x)
  }

  lemma {:induction false} InsertIncreasing(r: seq<string>, x: string)
    requires Increasing(r) && x !in r
    ensures Increasing(Insert(r, x))
  {
    var r' := Insert(r, x);
    if r == [] {
    } else if Less(x, r[0]) {
      assert r'[1..] == r;
    } else {
      LessTotal(x, r[0]);
      assert r == [r[0]] + r[1..];
      InsertIncreasing(r[1..], x);
      assert r'[1..] == Insert(r[1..], x);
    }
  }

  lemma InsertSorts(r: seq<string>, s: set<string>, x: string)
    requires Sorts(r, s) && x !in s
    ensures Sorts(Insert(r, x), s + {x})
  {
    InsertIncreasing(r, x);
    var r' := Insert(r, x);
    forall y
      ensures y in r' <==> y in s + {x}
    {
      assert y in r' <==> y in multiset(r');
      assert y in r <==> y in multiset(r);
    }
  }

  lemma {:induction false} SortExists(s: set<string>) returns (r: seq<string>)
    ensures Sorts(r, s)
    decreases s
  {
    if s == {} {
      r := [];
    } else {
      var x :| x in s;
      r := SortExists(s - {x});
      InsertSorts(r, s - {x}, x);
      r := Insert(r, x);
      assert s - {x} + {x} == s;
    }
  }

  /** The members of `s` in increasing order. */
  ghost function Sorted(s: set<string>): (r: seq<string>)
    ensures Sorts(r, s)
  {
    var _ := SortWitness(s);
    var r :| Sorts(r, s);
    r
  }

  ghost function SortWitness(s: set<string>): bool
    ensures exists r :: Sorts(r, s)
  {
    assert exists r :: Sorts(r, s) by {
      var r := SortExists(s);
      assert Sorts(r, s);
    }
    true
  }

  /** Insertion sort over a set. */
  method Sort(s: set<string>) returns (r: seq<string>)
    ensures r == Sorted(s)
  {
    r := [];
    var todo, done := s, {};
    while todo != {}
      invariant Sorts(r, done) && done + todo == s && done !! todo
      decreases todo
    {
      var x :| x in todo;
      InsertSorts(r, done, x);
      r := Insert(r, x);
      todo, done := todo - {x}, done + {x};
    }
    assert done == s;
    SortsUnique(r, Sorted(s), s);
  }
}
