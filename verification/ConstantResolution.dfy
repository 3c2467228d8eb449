/** Resolving a Ruby constant that is a symbol array, or a union of others, across source files. */
module ConstantResolution {
  import opened Text
  import opened Wrappers

  datatype Key = Key(file: string, constant: string)

  /**
   * A term of a union: a literal set, a constant path with the files that may define it in the order
   * they are tried, or anything else.
   */
  datatype Term = Symbols(members: seq<string>) | Path(candidates: seq<string>, name: string) | Unsupported

  datatype Definition = Array(members: seq<string>) | Union(terms: seq<Term>) | Unterminated

  /** The source files, each with the constants it defines. */
  type Lib = map<string, map<string, Definition>>

  datatype Error = Cyclic | NoFile | NoDefinition | BadLiteral | CannotLocate | BadTerm

  // ---- ordered unions --------------------------------------------------------------------

  /** `selectors.extend(m for m in members if m not in selectors)`. */
  function Extend(a: seq<string>, b: seq<string>): (r: seq<string>)
    ensures forall x :: x in r <==> x in a || x in b
    decreases |b|
  {
    if b == [] then a
    else
      assert b == [b[0]] + b[1..];
      Extend(if b[0] in a then a else a + [b[0]], b[1..])
  }

  lemma {:induction false} ExtendDistinct(a: seq<string>, b: seq<string>)
    requires Distinct(a)
    ensures Distinct(Extend(a, b))
    decreases |b|
  {
    if b != [] {
      ExtendDistinct(if b[0] in a then a else a + [b[0]], b[1..]);
    }
  }

  lemma {:induction false} ExtendTwice(a: seq<string>, b: seq<string>, c: seq<string>)
    ensures Extend(a, b + c) == Extend(Extend(a, b), c)
    decreases |b|
  {
    if b == [] {
      assert b + c == c;
    } else {
      assert (b + c)[1..] == b[1..] + c;
      ExtendTwice(if b[0] in a then a else a + [b[0]], b[1..], c);
    }
  }

  /** Extending by a list that was itself built by extending. */
  lemma {:induction false} ExtendNested(a: seq<string>, b: seq<string>, c: seq<string>)
    ensures Extend(a, Extend(b, c)) == Extend(Extend(a, b), c)
    decreases |c|
  {
    if c != [] {
      var b' := if c[0] in b then b else b + [c[0]];
      ExtendNested(a, b', c[1..]);
      if c[0] !in b {
        ExtendTwice(a, b, [c[0]]);
        assert [c[0]][1..] == [];
      }
    }
  }

  /** The members of `xs` without repeats, in the order of their first appearance. */
  function Dedup(xs: seq<string>): (r: seq<string>)
    ensures forall x :: x in r <==> x in xs
  {
    Extend([], xs)
  }

  lemma ExtendDedup(a: seq<string>, xs: seq<string>)
    ensures Extend(a, Dedup(xs)) == Extend(a, xs)
  {
    ExtendNested(a, [], xs);
  }

  /** `Dedup` keeps each member once, where it appeared first. */
  lemma DedupSnoc(xs: seq<string>, x: string)
    ensures Distinct(Dedup(xs))
    ensures Dedup(xs + [x]) == Dedup(xs) + if x in xs then [] else [x]
  {
    ExtendDistinct([], xs);
    ExtendTwice([], xs, [x]);
    assert [x][1..] == [];
  }

  // ---- the definitions as a graph --------------------------------------------------------

  /** The first candidate that is a file. */
  function Locate(lib: Lib, candidates: seq<string>): Option<string> {
    if candidates == [] then None
    else if candidates[0] in lib then Some(candidates[0])
    else Locate(lib, candidates[1..])
  }

  predicate Defined(lib: Lib, key: Key) {
    key.file in lib && key.constant in lib[key.file]
  }

  function DefinitionOf(lib: Lib, key: Key): Definition
    requires Defined(lib, key)
  {
    lib[key.file][key.constant]
  }

  predicate ReadableTerm(lib: Lib, t: Term) {
    match t
    case Symbols(_) => true
    case Path(candidates, _) => Locate(lib, candidates).Some?
    case Unsupported => false
  }

  /** The definition exists and every term of it can be taken by itself. */
  predicate Readable(lib: Lib, key: Key) {
    && Defined(lib, key)
    && !DefinitionOf(lib, key).Unterminated?
    && (DefinitionOf(lib, key).Union? ==>
        forall i :: 0 <= i < |DefinitionOf(lib, key).terms| ==> ReadableTerm(lib, DefinitionOf(lib, key).terms[i]))
  }

  /** The constant a path names, once its file is located. */
  predicate Names(lib: Lib, t: Term, to: Key) {
    t.Path? && Locate(lib, t.candidates) == Some(to.file) && t.name == to.constant
  }

  /** `from` is a union one of whose terms is `to`. */
  predicate Refers(lib: Lib, from: Key, to: Key) {
    && Defined(lib, from)
    && DefinitionOf(lib, from).Union?
    && exists i :: 0 <= i < |DefinitionOf(lib, from).terms| && Names(lib, DefinitionOf(lib, from).terms[i], to)
  }

  predicate Walk(lib: Lib, p: seq<Key>) {
    |p| <= 1 || (Refers(lib, p[0], p[1]) && Walk(lib, p[1..]))
  }

  predicate Fresh(p: seq<Key>, seen: seq<Key>) {
    (forall i :: 0 <= i < |p| ==> p[i] !in seen) && forall i, j :: 0 <= i < j < |p| ==> p[i] != p[j]
  }

  /** `p` leads from `key` to a readable definition without meeting a constant twice. */
  predicate Fine(lib: Lib, p: seq<Key>, seen: seq<Key>)
    requires p != []
  {
    Readable(lib, p[|p| - 1]) && Fresh(p, seen)
  }

  /** Every definition reachable from `key` is readable, and no way there runs into a cycle. */
  ghost predicate Grounded(lib: Lib, key: Key, seen: seq<Key>) {
    forall p: seq<Key> :: p != [] && p[0] == key && Walk(lib, p) ==> Fine(lib, p, seen)
  }

  ghost function KeysOf(lib: Lib): set<Key> {
    set f, c | f in lib && c in lib[f] :: Key(f, c)
  }

  ghost function Unseen(lib: Lib, seen: seq<Key>): set<Key> {
    KeysOf(lib) - (set k | k in seen)
  }

  lemma SeenShrinks(lib: Lib, key: Key, seen: seq<Key>)
    requires Defined(lib, key) && key !in seen
    ensures Unseen(lib, seen + [key]) < Unseen(lib, seen)
  {
    assert key in Unseen(lib, seen) && key !in Unseen(lib, seen + [key]);
  }

  // ---- resolution ------------------------------------------------------------------------

  function Resolve(lib: Lib, key: Key, seen: seq<Key>): Result<seq<string>, Error>
    decreases Unseen(lib, seen), 0, 0
  {
    if key in seen then Err(Cyclic)
    else if key.file !in lib then Err(NoFile)
    else if key.constant !in lib[key.file] then Err(NoDefinition)
    else
      match lib[key.file][key.constant]
      case Unterminated => Err(BadLiteral)
      case Array(members) => Ok(members)
      case Union(terms) =>
        SeenShrinks(lib, key, seen);
        ResolveTerms(lib, terms, [], seen + [key])
  }

  /** The terms of a union from left to right, on top of what has been selected already. */
  function ResolveTerms(lib: Lib, terms: seq<Term>, selected: seq<string>, seen: seq<Key>): Result<seq<string>, Error>
    decreases Unseen(lib, seen), 1, |terms|
  {
    if terms == [] then Ok(selected)
    else
      match TermMembers(lib, terms[0], seen)
      case Err(e) => Err(e)
      case Ok(members) => ResolveTerms(lib, terms[1..], Extend(selected, members), seen)
  }

  function TermMembers(lib: Lib, t: Term, seen: seq<Key>): Result<seq<string>, Error>
    decreases Unseen(lib, seen), 1, 0
  {
    match t
    case Symbols(members) => Ok(members)
    case Path(candidates, name) =>
      (match Locate(lib, candidates)
       case None => Err(CannotLocate)
       case Some(file) => Resolve(lib, Key(file, name), seen))
    case Unsupported => Err(BadTerm)
  }

  /** The recursive procedure: one loop over the terms, one over the members of each. */
  method ResolveConstant(lib: Lib, key: Key, seen: seq<Key>) returns (r: Result<seq<string>, Error>)
    ensures r == Resolve(lib, key, seen)
    decreases Unseen(lib, seen)
  {
    if key in seen {
      return Err(Cyclic);
    }
    if key.file !in lib {
      return Err(NoFile);
    }
    if key.constant !in lib[key.file] {
      return Err(NoDefinition);
    }
    match lib[key.file][key.constant]
    case Unterminated =>
      return Err(BadLiteral);
    case Array(members) =>
      return Ok(members);
    case Union(terms) =>
      SeenShrinks(lib, key, seen);
      var selected: seq<string> := [];
      var i := 0;
      assert terms[0..] == terms;
      while i < |terms|
        invariant 0 <= i <= |terms|
        invariant ResolveTerms(lib, terms[i..], selected, seen + [key]) == Resolve(lib, key, seen)
      {
        assert terms[i..][0] == terms[i] && terms[i..][1..] == terms[i + 1..];
        var members: seq<string>;
        match terms[i] {
          case Symbols(ms) =>
            members := ms;
          case Unsupported =>
            return Err(BadTerm);
          case Path(candidates, name) =>
            var target := Locate(lib, candidates);
            if target.None? {
              return Err(CannotLocate);
            }
            var nested := ResolveConstant(lib, Key(target.value, name), seen + [key]);
            if nested.Err? {
              return nested;
            }
            members := nested.value;
        }
        selected := ExtendInPlace(selected, members);
        i := i + 1;
      }
      return Ok(selected);
  }

  method ExtendInPlace(selected: seq<string>, members: seq<string>) returns (r: seq<string>)
    ensures r == Extend(selected, members)
  {
    r := selected;
    assert members[0..] == members;
    for i := 0 to |members|
      invariant Extend(r, members[i..]) == Extend(selected, members)
    {
      assert members[i..][0] == members[i] && members[i..][1..] == members[i + 1..];
      if members[i] !in r {
        r := r + [members[i]];
      }
    }
  }

  // ---- when resolution succeeds ----------------------------------------------------------

  predicate Resolves(lib: Lib, key: Key, seen: seq<Key>) {
    Resolve(lib, key, seen).Ok?
  }

  lemma {:induction false} TermsResolveIff(lib: Lib, terms: seq<Term>, selected: seq<string>, seen: seq<Key>)
    ensures ResolveTerms(lib, terms, selected, seen).Ok? <==>
      forall i :: 0 <= i < |terms| ==> TermMembers(lib, terms[i], seen).Ok?
    decreases |terms|
  {
    if terms != [] && TermMembers(lib, terms[0], seen).Ok? {
      var s := Extend(selected, TermMembers(lib, terms[0], seen).value);
      TermsResolveIff(lib, terms[1..], s, seen);
      assert forall i :: 0 < i < |terms| ==> terms[i] == terms[1..][i - 1];
    }
  }

  lemma TermResolvesIff(lib: Lib, t: Term, seen: seq<Key>)
    ensures TermMembers(lib, t, seen).Ok? <==>
      ReadableTerm(lib, t) && forall to :: Names(lib, t, to) ==> Resolves(lib, to, seen)
  {
    if t.Path? && Locate(lib, t.candidates).Some? {
      var to := Key(Locate(lib, t.candidates).value, t.name);
      assert Names(lib, t, to);
    }
  }

  /** The members of a union resolve exactly when each term can be taken and each constant named resolves. */
  lemma UnionResolvesIff(lib: Lib, terms: seq<Term>, seen: seq<Key>)
    ensures ResolveTerms(lib, terms, [], seen).Ok? <==>
      (forall i :: 0 <= i < |terms| ==> ReadableTerm(lib, terms[i]))
      && forall i, to :: 0 <= i < |terms| && Names(lib, terms[i], to) ==> Resolves(lib, to, seen)
  {
    TermsResolveIff(lib, terms, [], seen);
    forall i | 0 <= i < |terms|
      ensures TermMembers(lib, terms[i], seen).Ok? <==>
        ReadableTerm(lib, terms[i]) && forall to :: Names(lib, terms[i], to) ==> Resolves(lib, to, seen)
    {
      TermResolvesIff(lib, terms[i], seen);
    }
    if forall i :: 0 <= i < |terms| ==> TermMembers(lib, terms[i], seen).Ok? {
      forall i, to | 0 <= i < |terms| && Names(lib, terms[i], to)
        ensures Resolves(lib, to, seen)
      {
        assert TermMembers(lib, terms[i], seen).Ok?;
      }
      assert forall i :: 0 <= i < |terms| ==> ReadableTerm(lib, terms[i]);
    } else {
      var i :| 0 <= i < |terms| && !TermMembers(lib, terms[i], seen).Ok?;
      if ReadableTerm(lib, terms[i]) {
        var to :| Names(lib, terms[i], to) && !Resolves(lib, to, seen);
      }
    }
  }

  lemma RefersByTerm(lib: Lib, key: Key, terms: seq<Term>, seen: seq<Key>)
    requires Defined(lib, key) && DefinitionOf(lib, key) == Union(terms)
    ensures (forall to :: Refers(lib, key, to) ==> Resolves(lib, to, seen)) <==>
      forall i, to :: 0 <= i < |terms| && Names(lib, terms[i], to) ==> Resolves(lib, to, seen)
  {
    if forall to :: Refers(lib, key, to) ==> Resolves(lib, to, seen) {
      forall i, to | 0 <= i < |terms| && Names(lib, terms[i], to)
        ensures Resolves(lib, to, seen)
      {
        assert Refers(lib, key, to);
      }
    }
  }

  /** One step of resolution in terms of the graph. */
  lemma ResolveStep(lib: Lib, key: Key, seen: seq<Key>)
    ensures Resolves(lib, key, seen) <==>
      key !in seen && Readable(lib, key)
      && forall to :: Refers(lib, key, to) ==> Resolves(lib, to, seen + [key])
  {
    if key !in seen && Defined(lib, key) && DefinitionOf(lib, key).Union? {
      var terms := DefinitionOf(lib, key).terms;
      UnionResolvesIff(lib, terms, seen + [key]);
      RefersByTerm(lib, key, terms, seen + [key]);
    }
  }

  lemma WalkCons(lib: Lib, key: Key, q: seq<Key>)
    requires q != [] && Refers(lib, key, q[0]) && Walk(lib, q)
    ensures Walk(lib, [key] + q)
  {
    assert ([key] + q)[1..] == q;
  }

  lemma FreshCons(key: Key, q: seq<Key>, seen: seq<Key>)
    ensures Fresh([key] + q, seen) <==> key !in seen && Fresh(q, seen + [key])
  {
    var p := [key] + q;
    assert forall i :: 0 <= i < |q| ==> q[i] == p[i + 1];
    if Fresh(p, seen) {
      assert p[0] !in seen;
      forall i | 0 <= i < |q|
        ensures q[i] !in seen + [key]
      {
        assert p[i + 1] !in seen && p[0] != p[i + 1];
      }
      forall i, j | 0 <= i < j < |q|
        ensures q[i] != q[j]
      {
        assert p[i + 1] != p[j + 1];
      }
    }
    if key !in seen && Fresh(q, seen + [key]) {
      forall i, j | 0 <= i < j < |p|
        ensures p[i] != p[j]
      {
        if i > 0 {
          assert q[i - 1] != q[j - 1];
        }
      }
    }
  }

  lemma GroundedNext(lib: Lib, key: Key, seen: seq<Key>, to: Key)
    requires Grounded(lib, key, seen) && Refers(lib, key, to)
    ensures Grounded(lib, to, seen + [key])
  {
    forall q: seq<Key> | q != [] && q[0] == to && Walk(lib, q)
      ensures Fine(lib, q, seen + [key])
    {
      WalkCons(lib, key, q);
      assert Fine(lib, [key] + q, seen);
      FreshCons(key, q, seen);
    }
  }

  lemma GroundedHere(lib: Lib, key: Key, seen: seq<Key>)
    requires Grounded(lib, key, seen)
    ensures key !in seen && Readable(lib, key)
  {
    assert Fine(lib, [key], seen);
    assert [key][0] !in seen;
  }

  lemma GroundedBack(lib: Lib, key: Key, seen: seq<Key>)
    requires key !in seen && Readable(lib, key)
    requires forall to :: Refers(lib, key, to) ==> Grounded(lib, to, seen + [key])
    ensures Grounded(lib, key, seen)
  {
    forall p: seq<Key> | p != [] && p[0] == key && Walk(lib, p)
      ensures Fine(lib, p, seen)
    {
      assert p == [key] + p[1..];
      FreshCons(key, p[1..], seen);
      if |p| > 1 {
        assert Fine(lib, p[1..], seen + [key]);
      }
    }
  }

  /**
   * Resolution succeeds exactly when every definition reachable from the constant is readable and
   * nothing reachable lies on a cycle.
   */
  lemma {:induction false} ResolvesIffGrounded(lib: Lib, key: Key, seen: seq<Key>)
    ensures Resolves(lib, key, seen) <==> Grounded(lib, key, seen)
    decreases Unseen(lib, seen)
  {
    ResolveStep(lib, key, seen);
    if key !in seen && Readable(lib, key) {
      SeenShrinks(lib, key, seen);
      forall to | Refers(lib, key, to)
        ensures Resolves(lib, to, seen + [key]) <==> Grounded(lib, to, seen + [key])
      {
        ResolvesIffGrounded(lib, to, seen + [key]);
      }
      if Grounded(lib, key, seen) {
        forall to | Refers(lib, key, to)
          ensures Grounded(lib, to, seen + [key])
        {
          GroundedNext(lib, key, seen, to);
        }
      }
      if forall to :: Refers(lib, key, to) ==> Grounded(lib, to, seen + [key]) {
        GroundedBack(lib, key, seen);
      }
    } else if Grounded(lib, key, seen) {
      GroundedHere(lib, key, seen);
    }
  }

  // ---- what resolution yields ------------------------------------------------------------

  /** The symbols below a constant from left to right with their repeats, down to `depth` levels. */
  function Leaves(lib: Lib, key: Key, depth: nat): seq<string>
    decreases depth, 0, 0
  {
    if depth == 0 || !Defined(lib, key) then []
    else
      match DefinitionOf(lib, key)
      case Unterminated => []
      case Array(members) => members
      case Union(terms) => LeavesOf(lib, terms, depth - 1)
  }

  function LeavesOf(lib: Lib, terms: seq<Term>, depth: nat): seq<string>
    decreases depth, 1, |terms|
  {
    if terms == [] then [] else TermLeaves(lib, terms[0], depth) + LeavesOf(lib, terms[1..], depth)
  }

  function TermLeaves(lib: Lib, t: Term, depth: nat): seq<string>
    decreases depth, 1, 0
  {
    match t
    case Symbols(members) => members
    case Path(candidates, name) =>
      if Locate(lib, candidates).None? then [] else Leaves(lib, Key(Locate(lib, candidates).value, name), depth)
    case Unsupported => []
  }

  lemma ProperSubsetSmaller<T>(a: set<T>, b: set<T>)
    requires a < b
    ensures |a| < |b|
  {
    var x :| x in b && x !in a;
    assert |b - {x}| == |b| - 1;
    SubsetSmaller(a, b - {x});
  }

  lemma SubsetSmaller<T>(a: set<T>, b: set<T>)
    requires a <= b
    ensures |a| <= |b|
  {
    assert |b - a| == |b| - |a| by {
      assert a + (b - a) == b;
    }
  }

  /** What one definition yields: an array as written, a union without repeats. */
  ghost predicate Yields(lib: Lib, key: Key, depth: nat, v: seq<string>) {
    Defined(lib, key) && v == if DefinitionOf(lib, key).Array? then Leaves(lib, key, depth) else Dedup(Leaves(lib, key, depth))
  }

  lemma {:induction false} ResolveYields(lib: Lib, key: Key, seen: seq<Key>, depth: nat)
    requires Resolve(lib, key, seen).Ok? && depth >= |Unseen(lib, seen)|
    ensures Yields(lib, key, depth, Resolve(lib, key, seen).value)
    decreases Unseen(lib, seen), 0, 0
  {
    hide Unseen;
    SeenShrinks(lib, key, seen);
    ProperSubsetSmaller(Unseen(lib, seen + [key]), Unseen(lib, seen));
    if DefinitionOf(lib, key).Union? {
      TermsYield(lib, DefinitionOf(lib, key).terms, [], seen + [key], depth - 1);
    }
  }

  lemma {:induction false} TermsYield(lib: Lib, terms: seq<Term>, selected: seq<string>, seen: seq<Key>, depth: nat)
    requires ResolveTerms(lib, terms, selected, seen).Ok? && depth >= |Unseen(lib, seen)|
    ensures ResolveTerms(lib, terms, selected, seen).value == Extend(selected, LeavesOf(lib, terms, depth))
    decreases Unseen(lib, seen), 1, |terms|
  {
    if terms != [] {
      var members := TermMembers(lib, terms[0], seen).value;
      var first := TermLeaves(lib, terms[0], depth);
      TermYields(lib, terms[0], selected, seen, depth);
      TermsYield(lib, terms[1..], Extend(selected, members), seen, depth);
      ExtendTwice(selected, first, LeavesOf(lib, terms[1..], depth));
    }
  }

  lemma {:induction false} TermYields(lib: Lib, t: Term, selected: seq<string>, seen: seq<Key>, depth: nat)
    requires TermMembers(lib, t, seen).Ok? && depth >= |Unseen(lib, seen)|
    ensures Extend(selected, TermMembers(lib, t, seen).value) == Extend(selected, TermLeaves(lib, t, depth))
    decreases Unseen(lib, seen), 1, 0
  {
    if t.Path? {
      var key := Key(Locate(lib, t.candidates).value, t.name);
      ResolveYields(lib, key, seen, depth);
      ExtendDedup(selected, Leaves(lib, key, depth));
    }
  }

  /**
   * Resolving from scratch: it succeeds exactly on grounded constants, and then yields the leaves
   * from left to right, for a union each of them once.
   */
  lemma ResolveMeaning(lib: Lib, key: Key)
    ensures Resolve(lib, key, []).Ok? <==> Grounded(lib, key, [])
    ensures Resolve(lib, key, []).Ok? ==> Yields(lib, key, |KeysOf(lib)|, Resolve(lib, key, []).value)
    ensures Resolve(lib, key, []).Ok? && DefinitionOf(lib, key).Union? ==> Distinct(Resolve(lib, key, []).value)
  {
    ResolvesIffGrounded(lib, key, []);
    assert Unseen(lib, []) == KeysOf(lib);
    if Resolve(lib, key, []).Ok? {
      ResolveYields(lib, key, [], |KeysOf(lib)|);
      ExtendDistinct([], Leaves(lib, key, |KeysOf(lib)|));
    }
  }
}
