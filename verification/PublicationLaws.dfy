/** The dependency graph, the reported requirements and the layers, said of the packages. */
module PublicationLaws {
  import opened Sorting
  import opened Names
  import opened PublicationOrder

  /** Package `a` lists `b` as a dependency that is not for development, and `b` is in the workspace. */
  ghost predicate Needs(packages: seq<Package>, a: string, b: string)
  {
    exists p, d :: Lists(packages, p, d) && p.name == a && d.name == b && !d.dev
  }

  ghost predicate Lists(packages: seq<Package>, p: Package, d: Dependency)
  {
    p in packages && d in p.dependencies && exists q :: q in packages && q.name == d.name
  }

  /** The graph has the workspace's packages and exactly these edges. */
  lemma GraphExactly(packages: seq<Package>, g: Graph)
    requires IsGraph(packages, g)
    ensures forall a :: a in g <==> exists p :: p in packages && p.name == a
    ensures forall a, b :: a in g ==> (b in g[a] <==> Needs(packages, a, b))
  {
    forall a, b | a in g ensures b in g[a] <==> Needs(packages, a, b) {
      if b in g[a] {
        var p :| p in packages && b in Listed(p.dependencies, g.Keys) && p.name == a;
        var d :| d in p.dependencies && Counts(d, g.Keys) && d.name == b;
        assert Lists(packages, p, d);
      }
      if p, d :| Lists(packages, p, d) && p.name == a && d.name == b && !d.dev {
        assert Counts(d, g.Keys) && b in Listed(p.dependencies, g.Keys);
      }
    }
  }

  /** One problem for each listing of an edge whose requirement does not admit the version, and no other. */
  lemma ProblemsExactly(packages: seq<Package>, x: Problem)
    ensures x in AllProblems(packages, NamesOf(packages)) <==>
              exists p, d :: Lists(packages, p, d) && !d.dev && !d.allowed && x == Disallowed(p.name, d.name)
  {
    ProblemsOfPackages(packages, NamesOf(packages), x);
    if x in AllProblems(packages, NamesOf(packages)) {
      var p, d :| p in packages && d in p.dependencies && Counts(d, NamesOf(packages)) && !d.allowed
                  && x == Disallowed(p.name, d.name);
      assert Lists(packages, p, d);
    }
    if p, d :| Lists(packages, p, d) && !d.dev && !d.allowed && x == Disallowed(p.name, d.name) {
      assert Counts(d, NamesOf(packages));
    }
  }

  lemma {:induction false} ProblemsOfPackages(packages: seq<Package>, names: set<string>, x: Problem)
    ensures x in AllProblems(packages, names) <==>
              exists p, d :: p in packages && d in p.dependencies && Counts(d, names) && !d.allowed
                             && x == Disallowed(p.name, d.name)
  {
    if packages != [] {
      var prior, p := packages[..|packages| - 1], packages[|packages| - 1];
      assert packages == prior + [p];
      ProblemsOfPackages(prior, names, x);
      ProblemsOfOne(p.name, p.dependencies, names, x);
    }
  }

  lemma {:induction false} ProblemsOfOne(name: string, dependencies: seq<Dependency>, names: set<string>, x: Problem)
    ensures x in ProblemsOf(name, dependencies, names) <==>
              exists d :: d in dependencies && Counts(d, names) && !d.allowed && x == Disallowed(name, d.name)
  {
    if dependencies != [] {
      var prior, d := dependencies[..|dependencies| - 1], dependencies[|dependencies| - 1];
      assert dependencies == prior + [d];
      ProblemsOfOne(name, prior, names, x);
    }
  }

  /** Problems come in the order of the packages and, within one, of its dependencies. */
  lemma {:induction false} ProblemsInOrder(a: seq<Package>, b: seq<Package>, names: set<string>)
    ensures AllProblems(a + b, names) == AllProblems(a, names) + AllProblems(b, names)
  {
    hide ProblemsOf;
    if b == [] {
      assert a + b == a;
    } else {
      var prior, p := b[..|b| - 1], b[|b| - 1];
      assert (a + b)[..|a + b| - 1] == a + prior && (a + b)[|a + b| - 1] == p;
      ProblemsInOrder(a, prior, names);
    }
  }

  lemma {:induction false} ProblemsOfOneInOrder(
      name: string, a: seq<Dependency>, b: seq<Dependency>, names: set<string>)
    ensures ProblemsOf(name, a + b, names) == ProblemsOf(name, a, names) + ProblemsOf(name, b, names)
  {
    hide Counts;
    if b == [] {
      assert a + b == a;
    } else {
      var prior, d := b[..|b| - 1], b[|b| - 1];
      assert (a + b)[..|a + b| - 1] == a + prior && (a + b)[|a + b| - 1] == d;
      ProblemsOfOneInOrder(name, a, prior, names);
    }
  }

  // ----- layers

  /** `p` lists packages from `n` on, each needing the next. */
  ghost predicate Chain(g: Graph, n: string, p: seq<string>)
  {
    IsWalk(g, p) && p[0] == n
  }

  /** A package goes out as soon as it can: it is published in the round that the longest chain of
      dependencies below it takes, no later and no earlier. */
  lemma {:induction false} LayerIsLongestChain(g: Graph, k: nat, n: string)
    requires n in Layer(g, k)
    ensures exists p :: Chain(g, n, p) && |p| == k + 1
    ensures forall p :: Chain(g, n, p) ==> |p| <= k + 1
    decreases k
  {
    assert n in g && g[n] <= Settled(g, k);
    SettledNext(g, k, n);
    if k == 0 {
      assert Chain(g, n, [n]);
    } else {
      var b :| b in g[n] && b in Layer(g, k - 1);
      LayerIsLongestChain(g, k - 1, b);
      var q :| Chain(g, b, q) && |q| == k;
      assert Edge(g, n, b);
      assert Chain(g, n, [n] + q);
    }
    forall p | Chain(g, n, p) ensures |p| <= k + 1 {
      WalkDescends(g, k + 1, p, |p| - 1);
      NothingAtZero(g);
    }
  }

  lemma NothingAtZero(g: Graph)
    ensures Settled(g, 0) == {}
  {}

  /** What goes out in a later round was waiting for something of the round before. */
  lemma SettledNext(g: Graph, k: nat, n: string)
    requires n in Layer(g, k)
    ensures n in Settled(g, k + 1)
    ensures k > 0 ==> exists b :: b in g[n] && b in Layer(g, k - 1)
  {
    if k > 0 {
      assert n !in Settled(g, k - 1) && n !in Layer(g, k - 1);
      assert !(g[n] <= Settled(g, k - 1));
      var b :| b in g[n] && b !in Settled(g, k - 1);
      assert b in Layer(g, k - 1);
    }
  }
}
