/** The problem instance and the weighted-distance cost of a route
    (`total_cost` and `Individual.calculate_fitness` in ML_LAB1.py). */
module CostModel {

  /** A route gives, for factory number i, the index of the city it ships to. */
  type Route = seq<nat>

  /** The static tables: output volume per factory, capacity per city and the
      n-by-k distance matrix. They are generated once and never change. */
  datatype Instance = Instance(factories: seq<int>, cities: seq<int>, distances: seq<seq<real>>)
  {
    /** n, the number of factories */
    function N(): nat { |factories| }

    /** k, the number of cities */
    function K(): nat { |cities| }

    /** One distance row per factory, one column per city. */
    predicate WellFormed() {
      && |distances| == |factories|
      && forall i :: 0 <= i < |distances| ==> |distances[i]| == |cities|
    }

    /** Volumes and distances are never negative (volumes are drawn from [50, 150),
        distances from [0, 10)). */
    predicate NonNegative() {
      && (forall i :: 0 <= i < |factories| ==> factories[i] >= 0)
      && (forall i, c :: 0 <= i < |distances| && 0 <= c < |distances[i]| ==> distances[i][c] >= 0.0)
    }
  }

  /** A route the cost can be evaluated on without an index error: no longer than
      the factory list and every city index below k. */
  predicate Fits(inst: Instance, route: Route) {
    |route| <= inst.N() && forall i :: 0 <= i < |route| ==> route[i] < inst.K()
  }

  /** What factory i contributes when it ships to city c. */
  function Term(inst: Instance, i: nat, c: nat): real
    requires inst.WellFormed() && i < inst.N() && c < inst.K()
  {
    inst.distances[i][c] * inst.factories[i] as real
  }

  /** The left fold of the first m terms of the route. */
  function CostUpTo(inst: Instance, route: Route, m: nat): real
    requires inst.WellFormed() && Fits(inst, route) && m <= |route|
  {
    if m == 0 then 0.0 else CostUpTo(inst, route, m - 1) + Term(inst, m - 1, route[m - 1])
  }

  /** Sum over the positions i of the route of distances[i][route[i]] * factories[i]. */
  function Cost(inst: Instance, route: Route): real
    requires inst.WellFormed() && Fits(inst, route)
  {
    CostUpTo(inst, route, |route|)
  }

  /** `total_cost`: the loop that accumulates the cost position by position. */
  method TotalCost(inst: Instance, route: Route) returns (cost: real)
    requires inst.WellFormed() && Fits(inst, route)
    ensures cost == Cost(inst, route)
  {
    cost := 0.0;
    var i := 0;
    while i < |route|
      invariant i <= |route|
      invariant cost == CostUpTo(inst, route, i)
    {
      cost := cost + Term(inst, i, route[i]);
      i := i + 1;
    }
  }

  /** Overwriting one position changes the cost by exactly the difference of
      that position's two terms; every other factory's term stays. */
  lemma {:induction false} CostUpToUpdate(inst: Instance, route: Route, j: nat, v: nat, m: nat)
    requires inst.WellFormed() && Fits(inst, route) && j < |route| && v < inst.K() && m <= |route|
    ensures Fits(inst, route[j := v])
    ensures CostUpTo(inst, route[j := v], m)
            == if m <= j then CostUpTo(inst, route, m)
               else CostUpTo(inst, route, m) - Term(inst, j, route[j]) + Term(inst, j, v)
  {
    if m > 0 {
      CostUpToUpdate(inst, route, j, v, m - 1);
    }
  }

  lemma CostUpdate(inst: Instance, route: Route, j: nat, v: nat)
    requires inst.WellFormed() && Fits(inst, route) && j < |route| && v < inst.K()
    ensures Fits(inst, route[j := v])
    ensures Cost(inst, route[j := v]) == Cost(inst, route) - Term(inst, j, route[j]) + Term(inst, j, v)
  {
    CostUpToUpdate(inst, route, j, v, |route|);
  }

  /** With non-negative volumes and distances no partial sum is negative. */
  lemma {:induction false} CostUpToNonNegative(inst: Instance, route: Route, m: nat)
    requires inst.WellFormed() && inst.NonNegative() && Fits(inst, route) && m <= |route|
    ensures CostUpTo(inst, route, m) >= 0.0
  {
    if m > 0 {
      CostUpToNonNegative(inst, route, m - 1);
      var i, c := m - 1, route[m - 1];
      assert inst.distances[i][c] >= 0.0 && inst.factories[i] as real >= 0.0;
    }
  }

  lemma CostNonNegative(inst: Instance, route: Route)
    requires inst.WellFormed() && inst.NonNegative() && Fits(inst, route)
    ensures Cost(inst, route) >= 0.0
  {
    CostUpToNonNegative(inst, route, |route|);
  }

  /** Only the first |route| factories take part: two instances that agree on the
      volumes and distance rows of those factories give the route the same cost. */
  lemma {:induction false} CostUpToOnlyReadsPrefix(a: Instance, b: Instance, route: Route, m: nat)
    requires a.WellFormed() && b.WellFormed() && Fits(a, route) && Fits(b, route) && m <= |route|
    requires a.factories[..|route|] == b.factories[..|route|]
    requires a.distances[..|route|] == b.distances[..|route|]
    ensures CostUpTo(a, route, m) == CostUpTo(b, route, m)
  {
    if m > 0 {
      CostUpToOnlyReadsPrefix(a, b, route, m - 1);
      assert a.factories[m - 1] == a.factories[..|route|][m - 1];
      assert b.factories[m - 1] == b.factories[..|route|][m - 1];
      assert a.distances[m - 1] == a.distances[..|route|][m - 1];
      assert b.distances[m - 1] == b.distances[..|route|][m - 1];
    }
  }

  lemma CostOnlyReadsPrefix(a: Instance, b: Instance, route: Route)
    requires a.WellFormed() && b.WellFormed() && Fits(a, route) && Fits(b, route)
    requires a.factories[..|route|] == b.factories[..|route|]
    requires a.distances[..|route|] == b.distances[..|route|]
    ensures Cost(a, route) == Cost(b, route)
  {
    CostUpToOnlyReadsPrefix(a, b, route, |route|);
  }

  /** Appending a position adds exactly that position's term: the cost is a fold. */
  lemma {:induction false} CostUpToExtend(inst: Instance, route: Route, c: nat, m: nat)
    requires inst.WellFormed() && Fits(inst, route) && |route| < inst.N() && c < inst.K() && m <= |route|
    ensures Fits(inst, route + [c])
    ensures CostUpTo(inst, route + [c], m) == CostUpTo(inst, route, m)
  {
    if m > 0 {
      CostUpToExtend(inst, route, c, m - 1);
    }
  }

  lemma CostExtend(inst: Instance, route: Route, c: nat)
    requires inst.WellFormed() && Fits(inst, route) && |route| < inst.N() && c < inst.K()
    ensures Fits(inst, route + [c])
    ensures Cost(inst, route + [c]) == Cost(inst, route) + Term(inst, |route|, c)
  {
    CostUpToExtend(inst, route, c, |route|);
  }

  /** range(k) as a sequence. */
  function Range(k: nat): (r: seq<nat>)
    ensures |r| == k && forall i :: 0 <= i < k ==> r[i] == i
  {
    if k == 0 then [] else Range(k - 1) + [k - 1]
  }

  /** p holds the same values as s, each as often: p is a reordering of s. */
  predicate IsPermutationOf(p: seq<nat>, s: seq<nat>) {
    multiset(p) == multiset(s)
  }

  /** A reordering of range(k) has length k and only city indices below k, so
      its cost can be taken on the first k factories. */
  lemma PermutationFits(inst: Instance, p: Route)
    requires inst.K() <= inst.N() && IsPermutationOf(p, Range(inst.K()))
    ensures |p| == inst.K() && Fits(inst, p)
  {
    var r := Range(inst.K());
    assert |multiset(p)| == |multiset(r)|;
    forall i | 0 <= i < |p| ensures p[i] < inst.K() {
      assert p[i] in multiset(p);
      assert p[i] in multiset(r);
      assert p[i] in r;
    }
  }
}
