/** The default libraries, closed over the dependencies their manifests name. */
module LibraryClosure {
  import opened Text

  /** The libraries that have a directory, each with the dependencies of its manifest in order. */
  type Gem = map<string, seq<string>>

  predicate Link(gem: Gem, p: seq<string>, i: nat)
    requires 0 < i < |p|
  {
    p[i - 1] in gem && p[i] in gem[p[i - 1]]
  }

  /** Each name after the first is a dependency of the one before it. */
  predicate Chain(gem: Gem, p: seq<string>) {
    forall i: nat :: 0 < i < |p| ==> Link(gem, p, i)
  }

  ghost predicate Leads(gem: Gem, seeds: seq<string>, p: seq<string>, lib: string) {
    p != [] && p[0] in seeds && p[|p| - 1] == lib && Chain(gem, p)
  }

  /** `lib` is a seed, or a dependency of a library with a directory that is itself reachable. */
  ghost predicate Reachable(gem: Gem, seeds: seq<string>, lib: string) {
    exists p :: Leads(gem, seeds, p, lib)
  }

  lemma SeedReachable(gem: Gem, seeds: seq<string>, lib: string)
    requires lib in seeds
    ensures Reachable(gem, seeds, lib)
  {
    assert Leads(gem, seeds, [lib], lib);
  }

  lemma DependencyReachable(gem: Gem, seeds: seq<string>, lib: string, dep: string)
    requires Reachable(gem, seeds, lib) && lib in gem && dep in gem[lib]
    ensures Reachable(gem, seeds, dep)
  {
    var p :| Leads(gem, seeds, p, lib);
    var q := p + [dep];
    forall i: nat | 0 < i < |q|
      ensures Link(gem, q, i)
    {
      assert i < |p| ==> Link(gem, p, i);
    }
    assert Leads(gem, seeds, q, dep);
  }

  /** Any set that holds the seeds and the dependencies of its members holds everything reachable. */
  lemma {:induction false} ClosedHoldsChain(gem: Gem, seeds: seq<string>, p: seq<string>, lib: string, closed: set<string>)
    requires Leads(gem, seeds, p, lib)
    requires forall s :: s in seeds ==> s in closed
    requires forall l, d :: l in closed && l in gem && d in gem[l] ==> d in closed
    ensures lib in closed
    decreases |p|
  {
    if |p| > 1 {
      var q := p[..|p| - 1];
      forall i: nat | 0 < i < |q|
        ensures Link(gem, q, i)
      {
        assert Link(gem, p, i);
      }
      assert Link(gem, p, |p| - 1);
      assert Leads(gem, seeds, q, q[|q| - 1]);
      ClosedHoldsChain(gem, seeds, q, q[|q| - 1], closed);
    }
  }

  lemma ClosedHolds(gem: Gem, seeds: seq<string>, closed: set<string>)
    requires forall s :: s in seeds ==> s in closed
    requires forall l, d :: l in closed && l in gem && d in gem[l] ==> d in closed
    ensures forall lib :: Reachable(gem, seeds, lib) ==> lib in closed
  {
    forall lib | Reachable(gem, seeds, lib)
      ensures lib in closed
    {
      var p :| Leads(gem, seeds, p, lib);
      ClosedHoldsChain(gem, seeds, p, lib, closed);
    }
  }

  /** What the loop knows: nothing unreachable is listed, and nothing reachable is lost. */
  ghost predicate Progress(gem: Gem, seeds: seq<string>, queue: seq<string>, resolved: seq<string>, skipped: seq<string>) {
    && (forall lib :: Listed(lib, queue, resolved, skipped) ==> Reachable(gem, seeds, lib))
    && (forall lib :: lib in seeds ==> Listed(lib, queue, resolved, skipped))
    && (forall lib, d :: lib in resolved && lib in gem && d in gem[lib] ==> Listed(d, queue, resolved, skipped))
    && (forall lib :: lib in resolved ==> lib in gem)
    && (forall lib :: lib in skipped ==> lib !in gem)
  }

  predicate Listed(lib: string, queue: seq<string>, resolved: seq<string>, skipped: seq<string>) {
    lib in queue || lib in resolved || lib in skipped
  }

  lemma StartProgress(gem: Gem, seeds: seq<string>)
    ensures Progress(gem, seeds, seeds, [], [])
  {
    forall lib | lib in seeds
      ensures Reachable(gem, seeds, lib)
    {
      SeedReachable(gem, seeds, lib);
    }
  }

  lemma RepeatProgress(gem: Gem, seeds: seq<string>, lib: string, queue: seq<string>, resolved: seq<string>, skipped: seq<string>)
    requires Progress(gem, seeds, [lib] + queue, resolved, skipped)
    requires lib in resolved || lib in skipped
    ensures Progress(gem, seeds, queue, resolved, skipped)
  {
    assert forall l :: Listed(l, [lib] + queue, resolved, skipped) <==> Listed(l, queue, resolved, skipped);
  }

  lemma SkipProgress(gem: Gem, seeds: seq<string>, lib: string, queue: seq<string>, resolved: seq<string>, skipped: seq<string>)
    requires Progress(gem, seeds, [lib] + queue, resolved, skipped)
    requires lib !in gem
    ensures Progress(gem, seeds, queue, resolved, skipped + [lib])
  {
    assert forall l :: Listed(l, [lib] + queue, resolved, skipped) <==> Listed(l, queue, resolved, skipped + [lib]);
  }

  lemma ResolveProgress(gem: Gem, seeds: seq<string>, lib: string, queue: seq<string>, resolved: seq<string>, skipped: seq<string>)
    requires Progress(gem, seeds, [lib] + queue, resolved, skipped)
    requires lib in gem
    ensures Progress(gem, seeds, queue + gem[lib], resolved + [lib], skipped)
  {
    assert Listed(lib, [lib] + queue, resolved, skipped);
    forall d | d in gem[lib]
      ensures Reachable(gem, seeds, d)
    {
      DependencyReachable(gem, seeds, lib, d);
    }
    assert forall l :: Listed(l, queue + gem[lib], resolved + [lib], skipped) <==>
      Listed(l, [lib] + queue, resolved, skipped) || l in gem[lib];
  }

  lemma DoneProgress(gem: Gem, seeds: seq<string>, resolved: seq<string>, skipped: seq<string>)
    requires Progress(gem, seeds, [], resolved, skipped)
    ensures forall lib :: Reachable(gem, seeds, lib) <==> Listed(lib, [], resolved, skipped)
  {
    var closed := (set lib | lib in resolved) + (set lib | lib in skipped);
    assert forall lib :: lib in closed <==> Listed(lib, [], resolved, skipped);
    ClosedHolds(gem, seeds, closed);
  }

  /**
   * The worklist loop. `resolved` lists the reachable libraries with a directory and `skipped` the
   * reachable names without one, each name once. A pass that resolves nothing shortens the queue.
   */
  method ResolveClosure(gem: Gem, seeds: seq<string>) returns (resolved: seq<string>, skipped: seq<string>)
    ensures forall lib :: lib in resolved <==> Reachable(gem, seeds, lib) && lib in gem
    ensures forall lib :: lib in skipped <==> Reachable(gem, seeds, lib) && lib !in gem
    ensures Distinct(resolved) && Distinct(skipped)
  {
    resolved, skipped := [], [];
    var queue := seeds;
    ghost var pending := gem.Keys;
    StartProgress(gem, seeds);
    while queue != []
      invariant Progress(gem, seeds, queue, resolved, skipped)
      invariant Distinct(resolved) && Distinct(skipped)
      invariant forall lib :: lib in pending <==> lib in gem && lib !in resolved
      decreases pending, |queue|
    {
      var lib := queue[0];
      assert queue == [lib] + queue[1..];
      queue := queue[1..];
      if lib in resolved || lib in skipped {
        RepeatProgress(gem, seeds, lib, queue, resolved, skipped);
        continue;
      }
      if lib !in gem {
        SkipProgress(gem, seeds, lib, queue, resolved, skipped);
        skipped := skipped + [lib];
        continue;
      }
      ResolveProgress(gem, seeds, lib, queue, resolved, skipped);
      pending := pending - {lib};
      resolved := resolved + [lib];
      queue := queue + gem[lib];
    }
    DoneProgress(gem, seeds, resolved, skipped);
  }

  // ---- what is reachable -----------------------------------------------------------------

  /** Seeds that are reachable themselves reach nothing new. */
  lemma ReachableMonotone(gem: Gem, a: seq<string>, b: seq<string>, lib: string)
    requires forall s :: s in a ==> Reachable(gem, b, s)
    requires Reachable(gem, a, lib)
    ensures Reachable(gem, b, lib)
  {
    var p :| Leads(gem, a, p, lib);
    var q :| Leads(gem, b, q, p[0]);
    var r := q + p[1..];
    forall i: nat | 0 < i < |r|
      ensures Link(gem, r, i)
    {
      if i < |q| {
        assert Link(gem, q, i);
      } else {
        assert r[i] == p[i - |q| + 1] && r[i - 1] == p[i - |q|];
        assert Link(gem, p, i - |q| + 1);
      }
    }
    assert Leads(gem, b, r, lib);
  }

  lemma SeedsWithin(gem: Gem, a: seq<string>, b: seq<string>, lib: string)
    requires forall s :: s in a ==> s in b
    requires Reachable(gem, a, lib)
    ensures Reachable(gem, b, lib)
  {
    forall s | s in a
      ensures Reachable(gem, b, s)
    {
      SeedReachable(gem, b, s);
    }
    ReachableMonotone(gem, a, b, lib);
  }

  /** Only the set of seeds matters: neither their order nor repeats change the closure. */
  lemma SeedOrderIrrelevant(gem: Gem, a: seq<string>, b: seq<string>, lib: string)
    requires forall s :: s in a <==> s in b
    ensures Reachable(gem, a, lib) <==> Reachable(gem, b, lib)
  {
    if Reachable(gem, a, lib) {
      SeedsWithin(gem, a, b, lib);
    }
    if Reachable(gem, b, lib) {
      SeedsWithin(gem, b, a, lib);
    }
  }

  /** Closing what has been closed adds nothing: the vendored tree is its own closure. */
  method CloseTwice(gem: Gem, seeds: seq<string>) returns (once: seq<string>, twice: seq<string>, skipped: seq<string>)
    ensures forall lib :: lib in once <==> Reachable(gem, seeds, lib) && lib in gem
    ensures forall lib :: lib in twice <==> Reachable(gem, once, lib) && lib in gem
    ensures forall lib :: lib in skipped <==> Reachable(gem, once, lib) && lib !in gem
    ensures forall lib :: lib in once <==> lib in twice
    ensures forall lib :: lib in skipped ==> Reachable(gem, seeds, lib)
    ensures Distinct(once) && Distinct(twice) && Distinct(skipped)
  {
    var ignored;
    once, ignored := ResolveClosure(gem, seeds);
    twice, skipped := ResolveClosure(gem, once);
    forall lib
      ensures lib in once <==> lib in twice
    {
      if lib in once {
        SeedReachable(gem, once, lib);
      }
      if lib in twice {
        ReachableMonotone(gem, once, seeds, lib);
      }
    }
    forall lib | lib in skipped
      ensures Reachable(gem, seeds, lib)
    {
      ReachableMonotone(gem, once, seeds, lib);
    }
  }
}
