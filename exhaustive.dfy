/** `exhaustive_search` in ML_LAB1.py: try every ordering of range(k) on the
    first k factories and keep the first cheapest one. */
module ExhaustiveSolver {
  import opened CostModel

  /** s without its element at position i. */
  function RemoveAt(s: seq<nat>, i: nat): (r: seq<nat>)
    requires i < |s|
    ensures |r| == |s| - 1
    ensures multiset(r) == multiset(s) - multiset{s[i]}
  {
    assert s == s[..i] + [s[i]] + s[i + 1..];
    s[..i] + s[i + 1..]
  }

  /** Each route of ps with x put in front. */
  function Prepend(x: nat, ps: seq<Route>): (r: seq<Route>)
    ensures |r| == |ps| && forall j :: 0 <= j < |ps| ==> r[j] == [x] + ps[j]
  {
    seq(|ps|, j requires 0 <= j < |ps| => [x] + ps[j])
  }

  /** Every ordering of s, in the order `itertools.permutations` yields them:
      lexicographic in the positions of s. */
  function Perms(s: seq<nat>): seq<Route>
    decreases |s|, |s| + 1
  {
    if |s| == 0 then [[]] else PermsFrom(s, 0)
  }

  /** The orderings of s that start with s[i], then those that start with s[i + 1], ... */
  function PermsFrom(s: seq<nat>, i: nat): seq<Route>
    requires i <= |s|
    decreases |s|, |s| - i
  {
    if i == |s| then []
    else Prepend(s[i], Perms(RemoveAt(s, i))) + PermsFrom(s, i + 1)
  }

  function Factorial(m: nat): nat {
    if m == 0 then 1 else m * Factorial(m - 1)
  }

  /** Everything enumerated is a reordering of s. */
  lemma {:induction false} PermsSound(s: seq<nat>, p: Route)
    requires p in Perms(s)
    ensures IsPermutationOf(p, s)
    decreases |s|, |s| + 1
  {
    if |s| > 0 {
      PermsFromSound(s, 0, p);
    }
  }

  lemma {:induction false} PermsFromSound(s: seq<nat>, i: nat, p: Route)
    requires i <= |s| && p in PermsFrom(s, i)
    ensures IsPermutationOf(p, s)
    decreases |s|, |s| - i
  {
    var rest := Perms(RemoveAt(s, i));
    var head := Prepend(s[i], rest);
    assert PermsFrom(s, i) == head + PermsFrom(s, i + 1);
    if p in head {
      var j :| 0 <= j < |rest| && p == [s[i]] + rest[j];
      PermsSound(RemoveAt(s, i), rest[j]);
      PrependSound(s, i, rest[j]);
    } else {
      PermsFromSound(s, i + 1, p);
    }
  }

  /** Putting s[i] in front of a reordering of the rest of s reorders s. */
  lemma PrependSound(s: seq<nat>, i: nat, q: Route)
    requires i < |s| && IsPermutationOf(q, RemoveAt(s, i))
    ensures IsPermutationOf([s[i]] + q, s)
  {
    assert multiset([s[i]] + q) == multiset{s[i]} + multiset(q);
    assert s[i] in multiset(s);
  }

  /** Every reordering of s is enumerated. */
  lemma {:induction false} PermsComplete(s: seq<nat>, p: Route)
    requires IsPermutationOf(p, s)
    ensures p in Perms(s)
    decreases |s|
  {
    assert |p| == |multiset(p)| == |multiset(s)| == |s|;
    if |s| > 0 {
      assert p[0] in multiset(s) by { assert p[0] in multiset(p); }
      var i :| 0 <= i < |s| && s[i] == p[0];
      assert p == [p[0]] + p[1..];
      assert multiset(p[1..]) == multiset(RemoveAt(s, i)) by {
        assert multiset(p) == multiset{p[0]} + multiset(p[1..]);
      }
      PermsComplete(RemoveAt(s, i), p[1..]);
      PermsFromContains(s, 0, i, p[1..]);
    }
  }

  lemma {:induction false} PermsFromContains(s: seq<nat>, i: nat, j: nat, q: Route)
    requires i <= j < |s| && q in Perms(RemoveAt(s, j))
    ensures [s[j]] + q in PermsFrom(s, i)
    decreases j - i
  {
    var rest := Perms(RemoveAt(s, i));
    var head := Prepend(s[i], rest);
    assert PermsFrom(s, i) == head + PermsFrom(s, i + 1);
    if i == j {
      var m :| 0 <= m < |rest| && rest[m] == q;
      assert head[m] == [s[j]] + q;
    } else {
      PermsFromContains(s, i + 1, j, q);
    }
  }

  /** There are |s|! orderings enumerated, k! for range(k). */
  lemma {:induction false} PermsCount(s: seq<nat>)
    ensures |Perms(s)| == Factorial(|s|)
    decreases |s|, |s| + 1
  {
    if |s| > 0 {
      PermsFromCount(s, 0);
    }
  }

  lemma {:induction false} PermsFromCount(s: seq<nat>, i: nat)
    requires i <= |s| && |s| > 0
    ensures |PermsFrom(s, i)| == (|s| - i) * Factorial(|s| - 1)
    decreases |s|, |s| - i
  {
    if i < |s| {
      var rest := Perms(RemoveAt(s, i));
      var head := Prepend(s[i], rest);
      assert PermsFrom(s, i) == head + PermsFrom(s, i + 1);
      PermsCount(RemoveAt(s, i));
      PermsFromCount(s, i + 1);
      var f, a := Factorial(|s| - 1), |s| - (i + 1);
      assert |head| == f;
      assert |PermsFrom(s, i + 1)| == a * f;
      assert (a + 1) * f == a * f + f;
    }
  }

  /** Each enumerated ordering of range(k) can be costed on the first k factories. */
  lemma PermsOfRangeFit(inst: Instance)
    requires inst.K() <= inst.N()
    ensures forall j :: 0 <= j < |Perms(Range(inst.K()))| ==> Fits(inst, Perms(Range(inst.K()))[j])
  {
    var perms := Perms(Range(inst.K()));
    forall j | 0 <= j < |perms| ensures Fits(inst, perms[j]) {
      PermsSound(Range(inst.K()), perms[j]);
      PermutationFits(inst, perms[j]);
    }
  }

  /** The position at which a reordering of range(k) is enumerated. */
  lemma PositionInPerms(k: nat, p: Route) returns (j: nat)
    requires IsPermutationOf(p, Range(k))
    ensures j < |Perms(Range(k))| && Perms(Range(k))[j] == p
  {
    PermsComplete(Range(k), p);
    j :| 0 <= j < |Perms(Range(k))| && Perms(Range(k))[j] == p;
  }

  /** A bound below the cost of every enumerated ordering of range(k) is a bound
      below the cost of every ordering of range(k). */
  lemma BoundOverAllPermutations(inst: Instance, bound: real)
    requires inst.WellFormed() && inst.K() <= inst.N()
    requires forall j :: 0 <= j < |Perms(Range(inst.K()))| ==> Fits(inst, Perms(Range(inst.K()))[j])
    requires forall j :: 0 <= j < |Perms(Range(inst.K()))| ==> bound <= Cost(inst, Perms(Range(inst.K()))[j])
    ensures forall p :: IsPermutationOf(p, Range(inst.K())) ==> Fits(inst, p) && bound <= Cost(inst, p)
  {
    forall p | IsPermutationOf(p, Range(inst.K())) ensures Fits(inst, p) && bound <= Cost(inst, p) {
      PermutationFits(inst, p);
      var j := PositionInPerms(inst.K(), p);
    }
  }

  /** The loop of `exhaustive_search` over a list of candidate routes: the cost of
      each is computed with `total_cost` and the best one is replaced only on a
      strictly smaller cost, so the first cheapest candidate is the one returned.
      `found` is false while the best cost is still float('inf'). */
  method FirstCheapest(inst: Instance, candidates: seq<Route>) returns (index: nat, bestCost: real)
    requires inst.WellFormed() && |candidates| > 0
    requires forall j :: 0 <= j < |candidates| ==> Fits(inst, candidates[j])
    ensures index < |candidates| && bestCost == Cost(inst, candidates[index])
    ensures forall j :: 0 <= j < |candidates| ==> bestCost <= Cost(inst, candidates[j])
    ensures forall j :: 0 <= j < index ==> bestCost < Cost(inst, candidates[j])
  {
    var found := false;
    index, bestCost := 0, 0.0;
    var i := 0;
    while i < |candidates|
      invariant i <= |candidates|
      invariant found <==> i > 0
      invariant found ==> index < i && bestCost == Cost(inst, candidates[index])
      invariant found ==> forall j :: 0 <= j < i ==> bestCost <= Cost(inst, candidates[j])
      invariant found ==> forall j :: 0 <= j < index ==> bestCost < Cost(inst, candidates[j])
    {
      var current := TotalCost(inst, candidates[i]);
      if !found || current < bestCost {
        bestCost, index := current, i;
        found := true;
      }
      i := i + 1;
    }
  }

  /** `exhaustive_search`: the first cheapest ordering of range(k), costed on the
      first k factories, in the order `itertools.permutations` yields them. */
  method ExhaustiveSearch(inst: Instance) returns (bestRoute: Route, bestCost: real)
    requires inst.WellFormed() && inst.K() <= inst.N()
    ensures IsPermutationOf(bestRoute, Range(inst.K())) && Fits(inst, bestRoute)
    ensures bestCost == Cost(inst, bestRoute)
    ensures forall p :: IsPermutationOf(p, Range(inst.K())) ==> Fits(inst, p) && bestCost <= Cost(inst, p)
    ensures forall j :: 0 <= j < |Perms(Range(inst.K()))| ==> Fits(inst, Perms(Range(inst.K()))[j])
    ensures exists j :: 0 <= j < |Perms(Range(inst.K()))| && Perms(Range(inst.K()))[j] == bestRoute
                        && forall i :: 0 <= i < j ==> bestCost < Cost(inst, Perms(Range(inst.K()))[i])
  {
    var perms := Perms(Range(inst.K()));
    PermsOfRangeFit(inst);
    var first := PositionInPerms(inst.K(), Range(inst.K()));
    var index;
    index, bestCost := FirstCheapest(inst, perms);
    bestRoute := perms[index];
    PermsSound(Range(inst.K()), bestRoute);
    BoundOverAllPermutations(inst, bestCost);
  }

  /** Three factories with volumes 10, 20 and 30, two cities, and distance rows
      [1, 2], [3, 1] and [2, 2]. */
  const TwoCityInstance: Instance := Instance([10, 20, 30], [50, 50], [[1.0, 2.0], [3.0, 1.0], [2.0, 2.0]])

  /** Prepending to a one-route list. */
  lemma PrependOne(x: nat, q: Route)
    ensures Prepend(x, [q]) == [[x] + q]
  {
    var r := Prepend(x, [q]);
    assert |r| == 1 && r[0] == [x] + q;
  }

  /** A single value has the one ordering. */
  lemma PermsOfOne(x: nat)
    ensures Perms([x]) == [[x]]
  {
    var s := [x];
    assert RemoveAt(s, 0) == [];
    PrependOne(x, []);
    assert [x] + [] == [x];
    assert PermsFrom(s, 1) == [];
    assert PermsFrom(s, 0) == [[x]] + [];
  }

  /** The orderings of [x, y] that start with y. */
  lemma PermsFromSecondOfPair(x: nat, y: nat)
    ensures PermsFrom([x, y], 1) == [[y, x]]
  {
    var s := [x, y];
    assert RemoveAt(s, 1) == [x];
    PermsOfOne(x);
    PrependOne(y, [x]);
    assert [y] + [x] == [y, x];
    assert PermsFrom(s, 2) == [];
    assert PermsFrom(s, 1) == [[y, x]] + [];
  }

  /** The orderings of [x, y] that start with x. */
  lemma PermsFromFirstOfPair(x: nat, y: nat)
    ensures Prepend(x, Perms(RemoveAt([x, y], 0))) == [[x, y]]
  {
    assert RemoveAt([x, y], 0) == [y];
    PermsOfOne(y);
    PrependOne(x, [y]);
    assert [x] + [y] == [x, y];
  }

  /** Two values have two orderings: as given, then exchanged. */
  lemma PermsOfPair(x: nat, y: nat)
    ensures Perms([x, y]) == [[x, y], [y, x]]
  {
    var s := [x, y];
    PermsFromFirstOfPair(x, y);
    PermsFromSecondOfPair(x, y);
    assert PermsFrom(s, 0) == [[x, y]] + [[y, x]];
  }

  lemma RangeTwo()
    ensures Range(2) == [0, 1]
  {
    assert Range(1) == [0];
  }

  /** On that instance [0, 1] costs 1 * 10 + 1 * 20 = 30 and [1, 0] costs
      2 * 10 + 3 * 20 = 80. */
  lemma TwoCityCosts()
    ensures TwoCityInstance.WellFormed() && Fits(TwoCityInstance, [0, 1]) && Fits(TwoCityInstance, [1, 0])
    ensures Cost(TwoCityInstance, [0, 1]) == 30.0 && Cost(TwoCityInstance, [1, 0]) == 80.0
  {
    var inst := TwoCityInstance;
    assert CostUpTo(inst, [0, 1], 1) == 10.0;
    assert CostUpTo(inst, [1, 0], 1) == 20.0;
  }

  /** The two orderings of range(2) are [0, 1] and [1, 0]. */
  lemma OrderingsOfTwo(p: Route)
    requires IsPermutationOf(p, Range(2))
    ensures p == [0, 1] || p == [1, 0]
  {
    var j := PositionInPerms(2, p);
    RangeTwo();
    PermsOfPair(0, 1);
    var perms := Perms(Range(2));
    assert perms == [[0, 1], [1, 0]];
    assert j == 0 || j == 1;
  }

  /** Whatever satisfies the contract of `exhaustive_search` on that instance
      is the assignment [0, 1] with cost 30. */
  lemma TwoCityAnswer(bestRoute: Route, bestCost: real)
    requires IsPermutationOf(bestRoute, Range(2)) && Fits(TwoCityInstance, bestRoute)
    requires TwoCityInstance.WellFormed() && bestCost == Cost(TwoCityInstance, bestRoute)
    requires forall p :: IsPermutationOf(p, Range(2)) ==> Fits(TwoCityInstance, p) && bestCost <= Cost(TwoCityInstance, p)
    ensures bestRoute == [0, 1] && bestCost == 30.0
  {
    OrderingsOfTwo(bestRoute);
    TwoCityCosts();
    RangeTwo();
    assert IsPermutationOf([0, 1], Range(2));
  }
}
