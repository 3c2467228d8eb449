/** Which file a path means, and what every failed resolution is to blame on. */
module ResolutionErrors {
  import opened Wrappers
  import opened ConstantResolution

  /** The candidate at `i` is the first that is a file. */
  predicate FirstFile(lib: Lib, candidates: seq<string>, i: nat) {
    i < |candidates| && candidates[i] in lib && forall j :: 0 <= j < i ==> candidates[j] !in lib
  }

  /** A path means the first of its candidates that is a file, and nothing when none is. */
  lemma {:induction false} LocateIs(lib: Lib, candidates: seq<string>)
    ensures Locate(lib, candidates).None? <==> forall c :: c in candidates ==> c !in lib
    ensures forall i: nat :: FirstFile(lib, candidates, i) ==> Locate(lib, candidates) == Some(candidates[i])
  {
    if candidates != [] && candidates[0] !in lib {
      var rest := candidates[1..];
      LocateIs(lib, rest);
      assert candidates == [candidates[0]] + rest;
      forall i: nat | FirstFile(lib, candidates, i)
        ensures Locate(lib, candidates) == Some(candidates[i])
      {
        assert i > 0 && rest[i - 1] == candidates[i];
        assert forall j :: 0 <= j < i - 1 ==> rest[j] == candidates[j + 1];
        assert FirstFile(lib, rest, i - 1);
      }
    }
  }

  /** What is wrong with `key`, met behind the constants `before`. */
  predicate Wrong(lib: Lib, key: Key, before: seq<Key>, e: Error) {
    match e
    case Cyclic => key in before
    case NoFile => key.file !in lib
    case NoDefinition => key.file in lib && key.constant !in lib[key.file]
    case BadLiteral => Defined(lib, key) && DefinitionOf(lib, key).Unterminated?
    case CannotLocate => HasTerm(lib, key, (t: Term) => t.Path? && forall c :: c in t.candidates ==> c !in lib)
    case BadTerm => HasTerm(lib, key, (t: Term) => t.Unsupported?)
  }

  predicate HasTerm(lib: Lib, key: Key, p: Term -> bool) {
    && Defined(lib, key) && DefinitionOf(lib, key).Union?
    && exists i :: 0 <= i < |DefinitionOf(lib, key).terms| && p(DefinitionOf(lib, key).terms[i])
  }

  /** The walk ends at the culprit, and meets no constant twice on the way there. */
  ghost predicate Blames(lib: Lib, key: Key, seen: seq<Key>, p: seq<Key>, e: Error) {
    && p != [] && p[0] == key && Walk(lib, p)
    && Fresh(p[..|p| - 1], seen) && Wrong(lib, p[|p| - 1], seen + p[..|p| - 1], e)
  }

  /** A union fails with the error of its first term that fails. */
  lemma {:induction false} FirstFailure(lib: Lib, terms: seq<Term>, selected: seq<string>, seen: seq<Key>, i: nat)
    requires i < |terms| && TermMembers(lib, terms[i], seen).Err?
    requires forall j :: 0 <= j < i ==> TermMembers(lib, terms[j], seen).Ok?
    ensures ResolveTerms(lib, terms, selected, seen) == Err(TermMembers(lib, terms[i], seen).error)
    decreases i
  {
    if i > 0 {
      var rest := terms[1..];
      assert rest[i - 1] == terms[i] && forall j :: 0 <= j < i - 1 ==> rest[j] == terms[j + 1];
      FirstFailure(lib, rest, Extend(selected, TermMembers(lib, terms[0], seen).value), seen, i - 1);
    }
  }

  lemma {:induction false} FailingTerm(lib: Lib, terms: seq<Term>, selected: seq<string>, seen: seq<Key>) returns (i: nat)
    requires ResolveTerms(lib, terms, selected, seen).Err?
    ensures i < |terms| && TermMembers(lib, terms[i], seen) == Err(ResolveTerms(lib, terms, selected, seen).error)
    decreases |terms|
  {
    if TermMembers(lib, terms[0], seen).Err? {
      i := 0;
    } else {
      i := FailingTerm(lib, terms[1..], Extend(selected, TermMembers(lib, terms[0], seen).value), seen);
      i := i + 1;
    }
  }

  lemma BlamesHere(lib: Lib, key: Key, seen: seq<Key>, e: Error)
    requires Wrong(lib, key, seen, e)
    ensures Blames(lib, key, seen, [key], e)
  {
    assert [key][..0] == [] && seen + [] == seen;
  }

  lemma BlamesFurther(lib: Lib, key: Key, seen: seq<Key>, q: seq<Key>, e: Error)
    requires q != [] && Refers(lib, key, q[0]) && key !in seen && Blames(lib, q[0], seen + [key], q, e)
    ensures Blames(lib, key, seen, [key] + q, e)
  {
    hide Wrong;
    var p := [key] + q;
    WalkCons(lib, key, q);
    FreshCons(key, q[..|q| - 1], seen);
    assert p[..|p| - 1] == [key] + q[..|q| - 1];
    assert seen + p[..|p| - 1] == seen + [key] + q[..|q| - 1];
    assert p[|p| - 1] == q[|q| - 1];
  }

  /** Every failed resolution blames a constant that can be reached without meeting any other twice. */
  lemma {:induction false} ErrorIsFound(lib: Lib, key: Key, seen: seq<Key>, e: Error) returns (p: seq<Key>)
    requires Resolve(lib, key, seen) == Err(e)
    ensures Blames(lib, key, seen, p, e)
    decreases Unseen(lib, seen)
  {
    p := [key];
    if key !in seen && Defined(lib, key) && DefinitionOf(lib, key).Union? {
      SeenShrinks(lib, key, seen);
      var terms := DefinitionOf(lib, key).terms;
      var i := FailingTerm(lib, terms, [], seen + [key]);
      if terms[i].Path? && Locate(lib, terms[i].candidates).Some? {
        var to := Key(Locate(lib, terms[i].candidates).value, terms[i].name);
        var q := ErrorIsFound(lib, to, seen + [key], e);
        assert Names(lib, terms[i], to);
        BlamesFurther(lib, key, seen, q, e);
        p := [key] + q;
      } else {
        TermToBlame(lib, key, terms[i], i, seen + [key], e);
        BlamesHere(lib, key, seen, e);
      }
    } else {
      BlamesHere(lib, key, seen, e);
    }
  }

  lemma TermToBlame(lib: Lib, key: Key, t: Term, i: nat, seen: seq<Key>, e: Error)
    requires Defined(lib, key) && DefinitionOf(lib, key).Union? && i < |DefinitionOf(lib, key).terms|
    requires t == DefinitionOf(lib, key).terms[i] && TermMembers(lib, t, seen) == Err(e)
    requires t.Path? ==> Locate(lib, t.candidates).None?
    ensures forall before :: Wrong(lib, key, before, e)
  {
    if t.Path? {
      LocateIs(lib, t.candidates);
    }
  }
}
