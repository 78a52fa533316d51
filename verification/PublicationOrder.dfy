/** The order in which packages of the workspace are published: layer by layer, each layer sorted,
    dependencies before dependents. */
module PublicationOrder {
  import opened Sorting
  import opened Names

  /** `allowed` tells whether the requirement admits the release version. */
  datatype Dependency = Dependency(name: string, dev: bool, allowed: bool)

  datatype Package = Package(name: string, dependencies: seq<Dependency>)

  datatype Problem = Disallowed(package: string, dependency: string) | Cycle(packages: seq<string>)

  /** Internal, non-development dependencies per package name. */
  type Graph = map<string, set<string>>

  function NamesOf(packages: seq<Package>): set<string>
  {
    set p | p in packages :: p.name
  }

  predicate Counts(d: Dependency, names: set<string>) { d.name in names && !d.dev }

  /** The internal dependencies of one package that are not development dependencies. */
  function Listed(dependencies: seq<Dependency>, names: set<string>): set<string>
  {
    set d | d in dependencies && Counts(d, names) :: d.name
  }

  /** Packages listed twice under one name pool their dependencies. */
  function Needed(packages: seq<Package>, names: set<string>, a: string): set<string>
  {
    set p, b | p in packages && b in Listed(p.dependencies, names) && p.name == a :: b
  }

  ghost predicate IsGraph(packages: seq<Package>, g: Graph)
  {
    g.Keys == NamesOf(packages) && forall a :: a in g ==> g[a] == Needed(packages, g.Keys, a)
  }

  ghost predicate ClosedGraph(g: Graph)
  {
    forall a :: a in g ==> g[a] <= g.Keys
  }

  function ProblemsOf(package: string, dependencies: seq<Dependency>, names: set<string>): seq<Problem>
  {
    if dependencies == [] then []
    else
      var d := dependencies[|dependencies| - 1];
      ProblemsOf(package, dependencies[..|dependencies| - 1], names)
      + if Counts(d, names) && !d.allowed then [Disallowed(package, d.name)] else []
  }

  function AllProblems(packages: seq<Package>, names: set<string>): seq<Problem>
  {
    if packages == [] then []
    else
      var p := packages[|packages| - 1];
      AllProblems(packages[..|packages| - 1], names) + ProblemsOf(p.name, p.dependencies, names)
  }

  // ----- building the graph

  method AddDependencies(p: Package, g0: Graph) returns (g: Graph, errors: seq<Problem>)
    requires p.name in g0
    ensures g == g0[p.name := g0[p.name] + Listed(p.dependencies, g0.Keys)]
    ensures errors == ProblemsOf(p.name, p.dependencies, g0.Keys)
  {
    g, errors := g0, [];
    assert p.dependencies[..0] == [] && Listed([], g0.Keys) == {};
    assert g0[p.name] + {} == g0[p.name];
    assert g0[p.name := g0[p.name] + {}] == g0;
    for j := 0 to |p.dependencies|
      invariant g == g0[p.name := g0[p.name] + Listed(p.dependencies[..j], g0.Keys)]
      invariant errors == ProblemsOf(p.name, p.dependencies[..j], g0.Keys)
    {
      hide Listed;
      var d := p.dependencies[j];
      ListedNext(p.dependencies, j, g0.Keys);
      assert g[p.name] == g0[p.name] + Listed(p.dependencies[..j], g0.Keys);
      assert p.dependencies[..j + 1][..j] == p.dependencies[..j];
      if Counts(d, g0.Keys) {
        g := g[p.name := g[p.name] + {d.name}];
        assert g[p.name] == g0[p.name] + Listed(p.dependencies[..j + 1], g0.Keys);
        if !d.allowed {
          errors := errors + [Disallowed(p.name, d.name)];
        }
      }
      assert g[p.name] == g0[p.name] + Listed(p.dependencies[..j + 1], g0.Keys);
    }
    assert p.dependencies[..|p.dependencies|] == p.dependencies;
  }

  lemma ListedNext(dependencies: seq<Dependency>, j: nat, names: set<string>)
    requires j < |dependencies|
    ensures Listed(dependencies[..j + 1], names) ==
            Listed(dependencies[..j], names) + if Counts(dependencies[j], names) then {dependencies[j].name} else {}
  {
    assert dependencies[..j + 1] == dependencies[..j] + [dependencies[j]];
  }

  lemma NeededNext(packages: seq<Package>, i: nat, names: set<string>, a: string)
    requires i < |packages|
    ensures Needed(packages[..i + 1], names, a) ==
            Needed(packages[..i], names, a) +
            if packages[i].name == a then Listed(packages[i].dependencies, names) else {}
  {
    hide Listed;
    assert packages[..i + 1] == packages[..i] + [packages[i]];
  }

  ghost predicate GraphSoFar(packages: seq<Package>, names: set<string>, g: Graph)
  {
    g.Keys == names && forall a :: a in g ==> g[a] == Needed(packages, names, a)
  }

  lemma GraphNext(packages: seq<Package>, i: nat, names: set<string>, g: Graph)
    requires i < |packages| && GraphSoFar(packages[..i], names, g) && packages[i].name in names
    ensures var p := packages[i];
            GraphSoFar(packages[..i + 1], names, g[p.name := g[p.name] + Listed(p.dependencies, names)])
  {
    hide Needed, Listed;
    forall a ensures Needed(packages[..i + 1], names, a) ==
                     Needed(packages[..i], names, a) +
                     if packages[i].name == a then Listed(packages[i].dependencies, names) else {}
    {
      NeededNext(packages, i, names, a);
    }
  }

  method BuildGraph(packages: seq<Package>) returns (g: Graph, errors: seq<Problem>)
    ensures IsGraph(packages, g) && ClosedGraph(g)
    ensures errors == AllProblems(packages, NamesOf(packages))
  {
    var names := NamesOf(packages);
    g := map n | n in names :: {};
    errors := [];
    assert packages[..0] == [];
    for i := 0 to |packages|
      invariant GraphSoFar(packages[..i], names, g)
      invariant errors == AllProblems(packages[..i], names)
    {
      hide Needed, Listed, ProblemsOf;
      assert packages[i] in packages;
      GraphNext(packages, i, names, g);
      assert packages[..i + 1][..i] == packages[..i];
      var more;
      g, more := AddDependencies(packages[i], g);
      errors := errors + more;
    }
    assert packages[..|packages|] == packages;
    forall a | a in g ensures g[a] <= names {}
  }

  // ----- layers

  /** What has been published after `k` rounds. */
  ghost function Settled(g: Graph, k: nat): (s: set<string>)
    ensures s <= g.Keys
    decreases k, 0
  {
    if k == 0 then {} else Settled(g, k - 1) + Layer(g, k - 1)
  }

  /** What round `k` publishes: packages all of whose dependencies went out before. */
  ghost function Layer(g: Graph, k: nat): (s: set<string>)
    ensures s <= g.Keys
    decreases k, 1
  {
    set n | n in g && n !in Settled(g, k) && g[n] <= Settled(g, k)
  }

  ghost predicate SortedList(names: seq<string>, s: set<string>)
  {
    Distinct(names) && Sorted(names, NameLe) && forall n :: n in names <==> n in s
  }

  lemma SortedListUnique(a: seq<string>, b: seq<string>, s: set<string>)
    requires SortedList(a, s) && SortedList(b, s)
    ensures a == b
  {
    DistinctPermutation(a, b);
    NameOrder();
    SortedUnique(a, b, NameLe);
  }

  /** `order` is the first `k` layers, each sorted by name. */
  ghost predicate InLayers(g: Graph, k: nat, order: seq<string>)
  {
    if k == 0 then order == []
    else exists i :: 0 <= i <= |order| && InLayers(g, k - 1, order[..i]) && SortedList(order[i..], Layer(g, k - 1))
  }

  method SortedNames(s: set<string>) returns (names: seq<string>)
    ensures SortedList(names, s)
  {
    names := [];
    var rest := s;
    while rest != {}
      invariant rest <= s && Distinct(names) && forall n :: n in names <==> n in s && n !in rest
      decreases |rest|
    {
      var n :| n in rest;
      names := names + [n];
      rest := rest - {n};
    }
    NameOrder();
    SortPermutes(names, NameLe);
    SortSorts(names, NameLe);
    PermutationDistinct(names, Sort(names, NameLe));
    names := Sort(names, NameLe);
  }

  ghost predicate Remaining(g: Graph, k: nat, remaining: Graph)
  {
    && remaining.Keys == g.Keys - Settled(g, k)
    && forall n :: n in remaining ==> remaining[n] == g[n] - Settled(g, k)
  }

  lemma NothingLeft<T>(a: set<T>, b: set<T>)
    ensures a - b == {} <==> a <= b
  {
    if a - b == {} {
      forall x | x in a ensures x in b {
        assert x !in a - b;
      }
    }
  }

  /** `del` of the published names and `difference_update` of what is left. */
  function Without(remaining: Graph, ready: set<string>): Graph
  {
    map n | n in remaining && n !in ready :: remaining[n] - ready
  }

  lemma ReadyIsLayer(g: Graph, k: nat, remaining: Graph)
    requires Remaining(g, k, remaining)
    ensures (set n | n in remaining && remaining[n] == {}) == Layer(g, k)
  {
    forall n ensures n in (set n | n in remaining && remaining[n] == {}) <==> n in Layer(g, k) {
      if n in remaining {
        assert remaining[n] == g[n] - Settled(g, k);
        NothingLeft(g[n], Settled(g, k));
      }
    }
  }

  /** The whole layering: rounds until nothing is ready; what is left then has a dependency left. */
  method Layering(g: Graph) returns (order: seq<string>, stuck: set<string>, ghost rounds: nat)
    ensures InLayers(g, rounds, order) && (forall n :: n in order <==> n in Settled(g, rounds))
    ensures stuck == g.Keys - Settled(g, rounds)
    ensures Layer(g, rounds) == {}
    ensures forall n :: n in order <==> n in g && n !in stuck
  {
    hide Layer, Settled, InLayers, SortedList, Remaining;
    order, rounds := [], 0;
    var remaining := g;
    NothingSettled(g);
    while remaining != map[]
      invariant Remaining(g, rounds, remaining)
      invariant InLayers(g, rounds, order) && (forall n :: n in order <==> n in Settled(g, rounds))
      decreases |remaining.Keys|
    {
      ReadyIsLayer(g, rounds, remaining);
      var readySet := set n | n in remaining && remaining[n] == {};
      var ready := SortedNames(readySet);
      ListsMembers(ready, readySet);
      if ready == [] {
        assert readySet == {};
        RemainingKeys(g, rounds, remaining);
        stuck := remaining.Keys;
        return;
      }
      RoundKeeps(g, rounds, remaining, order, ready);
      assert ready[0] in readySet;
      order := order + ready;
      SmallerSet(Without(remaining, readySet).Keys, remaining.Keys, ready[0]);
      remaining := Without(remaining, readySet);
      rounds := rounds + 1;
    }
    stuck := {};
    RemainingKeys(g, rounds, remaining);
    AllSettled(g, rounds);
  }

  lemma RemainingKeys(g: Graph, k: nat, remaining: Graph)
    requires Remaining(g, k, remaining)
    ensures remaining.Keys == g.Keys - Settled(g, k)
  {}

  lemma NothingSettled(g: Graph)
    ensures Settled(g, 0) == {} && InLayers(g, 0, []) && Remaining(g, 0, g)
  {}

  lemma AllSettled(g: Graph, k: nat)
    requires g.Keys - Settled(g, k) == {}
    ensures Layer(g, k) == {}
  {}

  lemma SmallerSet<T>(a: set<T>, b: set<T>, x: T)
    requires a <= b && x in b && x !in a
    ensures |a| < |b|
  {
    assert b == a + (b - a);
    assert x in b - a;
  }

  lemma RoundKeeps(g: Graph, k: nat, remaining: Graph, order: seq<string>, ready: seq<string>)
    requires Remaining(g, k, remaining) && InLayers(g, k, order) && (forall n :: n in order <==> n in Settled(g, k))
    requires SortedList(ready, Layer(g, k))
    ensures InLayers(g, k + 1, order + ready) && (forall n :: n in order + ready <==> n in Settled(g, k + 1))
    ensures Remaining(g, k + 1, Without(remaining, Layer(g, k)))
  {
    var all := order + ready;
    assert all[..|order|] == order && all[|order|..] == ready;
    hide InLayers, SortedList, Layer;
    assert InLayers(g, k + 1, all) by { LayersNext(g, k, all, |order|); }
    LayerFresh(g, k);
    assert forall n :: n in ready <==> n in Layer(g, k) by { ListsMembers(ready, Layer(g, k)); }
  }

  lemma ListsMembers(names: seq<string>, s: set<string>)
    requires SortedList(names, s)
    ensures forall n :: n in names <==> n in s
  {}

  lemma LayersNext(g: Graph, k: nat, all: seq<string>, i: nat)
    requires i <= |all| && InLayers(g, k, all[..i]) && SortedList(all[i..], Layer(g, k))
    ensures InLayers(g, k + 1, all)
  {}

  lemma LayerFresh(g: Graph, k: nat)
    ensures Layer(g, k) !! Settled(g, k) && Settled(g, k + 1) == Settled(g, k) + Layer(g, k)
  {}

  // ----- laws of the layering

  /** A layered list is determined by the graph. */
  lemma {:induction false} LayersUnique(g: Graph, k: nat, a: seq<string>, b: seq<string>)
    requires InLayers(g, k, a) && InLayers(g, k, b)
    ensures a == b
  {
    if k > 0 {
      var i :| 0 <= i <= |a| && InLayers(g, k - 1, a[..i]) && SortedList(a[i..], Layer(g, k - 1));
      var j :| 0 <= j <= |b| && InLayers(g, k - 1, b[..j]) && SortedList(b[j..], Layer(g, k - 1));
      LayersUnique(g, k - 1, a[..i], b[..j]);
      SortedListUnique(a[i..], b[j..], Layer(g, k - 1));
      assert a == a[..i] + a[i..] && b == b[..j] + b[j..];
    }
  }

  lemma {:induction false} SettledGrows(g: Graph, j: nat, k: nat)
    requires j <= k
    ensures Settled(g, j) <= Settled(g, k)
  {
    if j < k {
      SettledGrows(g, j, k - 1);
    }
  }

  /** Dependencies of a settled package settled in an earlier round. */
  lemma {:induction false} SettledAfterDependencies(g: Graph, k: nat, n: string)
    requires k > 0 && n in Settled(g, k)
    ensures g[n] <= Settled(g, k - 1)
  {
    if n in Settled(g, k - 1) {
      if k - 1 > 0 {
        SettledAfterDependencies(g, k - 1, n);
        SettledGrows(g, k - 2, k - 1);
      }
    }
  }

  lemma {:induction false} LayersMembers(g: Graph, k: nat, order: seq<string>)
    requires InLayers(g, k, order)
    ensures forall n :: n in order <==> n in Settled(g, k)
  {
    if k > 0 {
      var i :| 0 <= i <= |order| && InLayers(g, k - 1, order[..i]) && SortedList(order[i..], Layer(g, k - 1));
      LayersMembers(g, k - 1, order[..i]);
      ListsMembers(order[i..], Layer(g, k - 1));
      LayerFresh(g, k - 1);
      hide InLayers, SortedList, Layer, Settled;
      assert order == order[..i] + order[i..];
    }
  }

  ghost predicate AfterDependencies(g: Graph, order: seq<string>)
  {
    forall i, b :: 0 <= i < |order| && order[i] in g && b in g[order[i]] ==> b in order[..i]
  }

  /** Every listed package is listed once, after everything it depends on. */
  lemma {:induction false} LayersAreTopological(g: Graph, k: nat, order: seq<string>)
    requires InLayers(g, k, order)
    ensures Distinct(order) && AfterDependencies(g, order)
  {
    if k > 0 {
      var i :| 0 <= i <= |order| && InLayers(g, k - 1, order[..i]) && SortedList(order[i..], Layer(g, k - 1));
      LayersAreTopological(g, k - 1, order[..i]);
      LayersMembers(g, k - 1, order[..i]);
      LayerFresh(g, k - 1);
      DistinctParts(order, i);
      forall j, b | 0 <= j < |order| && order[j] in g && b in g[order[j]] ensures b in order[..j] {
        if j < i {
          assert order[..i][..j] == order[..j] && order[..i][j] == order[j];
        } else {
          assert order[j] == order[i..][j - i];
          assert order[j] in order[i..] && order[j] in Layer(g, k - 1);
          assert b in order[..i];
          var m :| 0 <= m < i && order[m] == b;
        }
      }
    }
  }

  lemma DistinctParts(s: seq<string>, i: nat)
    requires i <= |s| && Distinct(s[..i]) && Distinct(s[i..])
    requires forall x :: x in s[..i] ==> x !in s[i..]
    ensures Distinct(s)
  {
    forall a, b | 0 <= a < b < |s| ensures s[a] != s[b] {
      if b < i {
        assert s[..i][a] == s[a] && s[..i][b] == s[b];
      } else if a >= i {
        assert s[i..][a - i] == s[a] && s[i..][b - i] == s[b];
      } else {
        assert s[a] in s[..i] && s[b] == s[i..][b - i];
      }
    }
  }

  // ----- cycles

  ghost predicate IsWalk(g: Graph, p: seq<string>)
  {
    p != [] && (forall i :: 0 <= i < |p| ==> p[i] in g) && forall i :: 0 <= i < |p| - 1 ==> Edge(g, p[i], p[i + 1])
  }

  predicate Edge(g: Graph, a: string, b: string) { a in g && b in g[a] }

  ghost predicate IsCycle(g: Graph, c: seq<string>)
  {
    IsWalk(g, c) && |c| >= 2 && c[0] == c[|c| - 1]
  }

  ghost predicate LeadsTo(g: Graph, p: seq<string>, c: seq<string>)
  {
    IsWalk(g, p) && IsCycle(g, c) && p[|p| - 1] == c[0]
  }

  ghost predicate CanReachCycle(g: Graph, n: string)
  {
    exists p, c :: LeadsTo(g, p, c) && p[0] == n
  }

  /** From a settled package a walk settles one round earlier with each step. */
  lemma {:induction false} WalkDescends(g: Graph, k: nat, p: seq<string>, i: nat)
    requires IsWalk(g, p) && i < |p| && p[0] in Settled(g, k)
    ensures i <= k && p[i] in Settled(g, k - i)
    decreases i
  {
    if i > 0 {
      WalkDescends(g, k, p, i - 1);
      assert k - (i - 1) > 0;
      SettledAfterDependencies(g, k - (i - 1), p[i - 1]);
      assert Edge(g, p[i - 1], p[i - 1 + 1]);
    }
  }

  lemma {:induction false} SettledNotOnCycle(g: Graph, k: nat, c: seq<string>)
    requires IsCycle(g, c)
    ensures c[0] !in Settled(g, k)
    decreases k
  {
    if c[0] in Settled(g, k) {
      WalkDescends(g, k, c, |c| - 1);
      SettledNotOnCycle(g, k - (|c| - 1), c);
    }
  }

  lemma SettledReachesNoCycle(g: Graph, k: nat, n: string)
    requires n in Settled(g, k)
    ensures !CanReachCycle(g, n)
  {
    if p, c :| LeadsTo(g, p, c) && p[0] == n {
      WalkDescends(g, k, p, |p| - 1);
      SettledNotOnCycle(g, k - (|p| - 1), c);
    }
  }

  /** A set every member of which depends on another member. */
  ghost predicate Trapped(g: Graph, s: set<string>)
  {
    s <= g.Keys && forall n {:trigger StepsWithin(g, s, n)} :: n in s ==> StepsWithin(g, s, n)
  }

  ghost predicate StepsWithin(g: Graph, s: set<string>, n: string)
  {
    exists b :: b in s && Edge(g, n, b)
  }

  lemma WalkAppend(g: Graph, p: seq<string>, b: string)
    requires IsWalk(g, p) && b in g && Edge(g, p[|p| - 1], b)
    ensures IsWalk(g, p + [b])
  {
    forall i | 0 <= i < |p| ensures Edge(g, (p + [b])[i], (p + [b])[i + 1]) {
      assert i < |p| - 1 ==> Edge(g, p[i], p[i + 1]);
    }
  }

  lemma PartOfWalk(g: Graph, p: seq<string>, i: nat, j: nat)
    requires IsWalk(g, p) && i <= j < |p|
    ensures IsWalk(g, p[i..j + 1])
  {
    var c := p[i..j + 1];
    forall k | 0 <= k < |c| - 1 ensures Edge(g, c[k], c[k + 1]) {
      assert Edge(g, p[i + k], p[i + k + 1]);
    }
  }

  lemma StepIn(g: Graph, s: set<string>, n: string) returns (b: string)
    requires Trapped(g, s) && n in s
    ensures b in s && b in g && Edge(g, n, b)
  {
    assert StepsWithin(g, s, n);
    b :| b in s && Edge(g, n, b);
  }

  lemma {:induction false} WalkIn(g: Graph, s: set<string>, n: string, length: nat) returns (p: seq<string>)
    requires Trapped(g, s) && n in s && length > 0
    ensures |p| == length && p[0] == n && IsWalk(g, p) && forall i :: 0 <= i < |p| ==> p[i] in s
    decreases length
  {
    if length == 1 {
      p := [n];
      assert n in g;
    } else {
      hide IsWalk, Trapped;
      p := WalkIn(g, s, n, length - 1);
      var b := StepIn(g, s, p[|p| - 1]);
      WalkAppend(g, p, b);
      p := p + [b];
    }
  }

  lemma {:induction false} Pigeonhole(p: seq<string>, s: set<string>) returns (i: nat, j: nat)
    requires |p| > |s| && forall k :: 0 <= k < |p| ==> p[k] in s
    ensures i < j < |p| && p[i] == p[j]
    decreases |p|
  {
    var n := |p| - 1;
    if k :| 0 <= k < n && p[k] == p[n] {
      i, j := k, n;
    } else {
      SmallerSet(s - {p[n]}, s, p[n]);
      i, j := Pigeonhole(p[..n], s - {p[n]});
    }
  }

  lemma TrappedReachesCycle(g: Graph, s: set<string>, n: string)
    requires Trapped(g, s) && n in s
    ensures CanReachCycle(g, n)
  {
    hide IsWalk, Trapped;
    var p := WalkIn(g, s, n, |s| + 1);
    var i, j := Pigeonhole(p, s);
    PartOfWalk(g, p, 0, i);
    PartOfWalk(g, p, i, j);
    assert LeadsTo(g, p[0..i + 1], p[i..j + 1]);
  }

  /** What is left when no package is ready is exactly what can reach a cycle. */
  lemma LeftoverReachesCycle(g: Graph, k: nat, n: string)
    requires ClosedGraph(g) && Layer(g, k) == {} && n in g
    ensures CanReachCycle(g, n) <==> n !in Settled(g, k)
  {
    if n in Settled(g, k) {
      SettledReachesNoCycle(g, k, n);
    } else {
      var stuck := g.Keys - Settled(g, k);
      forall m | m in stuck ensures StepsWithin(g, stuck, m) {
        assert m !in Layer(g, k);
        var b :| b in g[m] && b !in Settled(g, k);
        assert Edge(g, m, b);
      }
      TrappedReachesCycle(g, stuck, n);
    }
  }

  ghost predicate HasCycle(g: Graph) { exists c :: IsCycle(g, c) }

  lemma CycleReachesItself(g: Graph) returns (n: string)
    requires HasCycle(g)
    ensures n in g && CanReachCycle(g, n)
  {
    var c :| IsCycle(g, c);
    n := c[0];
    assert LeadsTo(g, [n], c);
  }

  // ----- the whole function

  /** Reports disallowed requirements, then the layers; a cycle is reported exactly when the graph has
      one, and the packages left out of the order are exactly those that can reach one. */
  method ComputePublicationOrder(packages: seq<Package>)
    returns (order: seq<string>, errors: seq<Problem>, ghost g: Graph)
    ensures IsGraph(packages, g)
    ensures Distinct(order) && AfterDependencies(g, order)
    ensures forall n :: n in order <==> n in g && !CanReachCycle(g, n)
    ensures exists k :: InLayers(g, k, order)
    ensures if HasCycle(g) then
              && errors != [] && errors[..|errors| - 1] == AllProblems(packages, NamesOf(packages))
              && errors[|errors| - 1].Cycle?
              && SortedList(errors[|errors| - 1].packages, set n | n in g && CanReachCycle(g, n))
            else
              errors == AllProblems(packages, NamesOf(packages)) && forall n :: n in g ==> n in order
  {
    hide InLayers, Settled, Layer, AfterDependencies, SortedList, CanReachCycle,
      IsCycle, AllProblems, IsGraph, ClosedGraph;
    var graph, stuck;
    graph, errors := BuildGraph(packages);
    g := graph;
    ghost var rounds;
    order, stuck, rounds := Layering(graph);
    LayersAreTopological(g, rounds, order);
    StuckAreExactly(g, rounds);
    forall n ensures n in order <==> n in g && !CanReachCycle(g, n) {
      assert n in Settled(g, rounds) ==> n in g;
    }
    if stuck == {} {
      forall n | n in g ensures n in order {
        assert n !in stuck;
        assert n in Settled(g, rounds);
      }
    } else {
      var names := SortedNames(stuck);
      errors := errors + [Cycle(names)];
    }
  }

  lemma StuckAreExactly(g: Graph, k: nat)
    requires ClosedGraph(g) && Layer(g, k) == {}
    ensures (set n | n in g && CanReachCycle(g, n)) == g.Keys - Settled(g, k)
    ensures forall n :: n in g ==> (CanReachCycle(g, n) <==> n !in Settled(g, k))
    ensures HasCycle(g) <==> g.Keys - Settled(g, k) != {}
  {
    hide CanReachCycle, Settled, Layer, HasCycle;
    forall n | n in g ensures CanReachCycle(g, n) <==> n !in Settled(g, k) {
      LeftoverReachesCycle(g, k, n);
    }
    if HasCycle(g) {
      var n := CycleReachesItself(g);
      assert n in g.Keys - Settled(g, k);
    }
    if n :| n in g.Keys - Settled(g, k) {
      assert CanReachCycle(g, n);
      ReachableCycleExists(g, n);
    }
  }

  lemma ReachableCycleExists(g: Graph, n: string)
    requires CanReachCycle(g, n)
    ensures HasCycle(g)
  {
    var p, c :| LeadsTo(g, p, c) && p[0] == n;
  }
}
