/** The candidate solutions of the genetic search (`Individual` in ML_LAB1.py)
    and the three mutation operators that edit them. */
module Individuals {
  import opened CostModel

  /** The positions at which two routes of the same length differ. */
  function Differing(s: Route, t: Route): set<nat>
    requires |s| == |t|
  {
    set p: nat | p < |s| && s[p] != t[p]
  }

  /** The route edit of `mutate_swap`: exchange the values at i and j. */
  function SwapCells(s: Route, i: nat, j: nat): Route
    requires i < |s| && j < |s|
  {
    s[i := s[j]][j := s[i]]
  }

  /** The swap exchanges the two cells, leaves every other one alone and keeps
      the values with their multiplicities. */
  lemma SwapExchanges(s: Route, i: nat, j: nat)
    requires i < |s| && j < |s|
    ensures var r := SwapCells(s, i, j);
            && |r| == |s| && r[i] == s[j] && r[j] == s[i]
            && (forall p :: 0 <= p < |s| && p != i && p != j ==> r[p] == s[p])
            && multiset(r) == multiset(s)
  {
  }

  /** Exactly the two chosen cells change, or none when they hold equal values. */
  lemma SwapDiffering(s: Route, i: nat, j: nat)
    requires i < |s| && j < |s| && i != j
    ensures Differing(s, SwapCells(s, i, j)) == if s[i] == s[j] then {} else {i, j}
  {
    var r := SwapCells(s, i, j);
    SwapExchanges(s, i, j);
    if s[i] == s[j] {
      assert forall p :: p in Differing(s, r) ==> false;
    }
  }

  /** A swap keeps the city indices, so a route that could be costed still can. */
  lemma SwapFits(inst: Instance, s: Route, i: nat, j: nat)
    requires Fits(inst, s) && i < |s| && j < |s|
    ensures Fits(inst, SwapCells(s, i, j))
  {
    SwapExchanges(s, i, j);
  }

  /** The route edit of `mutate_random`: overwrite position i with city v. */
  function Reassign(s: Route, i: nat, v: nat): Route
    requires i < |s|
  {
    s[i := v]
  }

  /** Position i now holds v and every other position is unchanged. */
  lemma ReassignSets(s: Route, i: nat, v: nat)
    requires i < |s|
    ensures var r := Reassign(s, i, v);
            && |r| == |s| && r[i] == v
            && forall p :: 0 <= p < |s| && p != i ==> r[p] == s[p]
  {
  }

  /** At most the chosen position changes. */
  lemma ReassignDiffering(s: Route, i: nat, v: nat)
    requires i < |s|
    ensures Differing(s, Reassign(s, i, v)) <= {i}
    ensures |Differing(s, Reassign(s, i, v))| <= 1
  {
    var d := Differing(s, Reassign(s, i, v));
    ReassignSets(s, i, v);
    if i in d {
      assert d == {i};
    } else {
      assert d == {};
    }
  }

  /** A value drawn from [0, k) keeps every city index below k. */
  lemma ReassignFits(inst: Instance, s: Route, i: nat, v: nat)
    requires Fits(inst, s) && i < |s| && v < inst.K()
    ensures Fits(inst, Reassign(s, i, v))
  {
    ReassignSets(s, i, v);
  }

  /** Reassigning does not keep a permutation a permutation: [0, 1] becomes [1, 1]. */
  lemma ReassignBreaksPermutation()
    ensures IsPermutationOf([0, 1], Range(2))
    ensures !IsPermutationOf(Reassign([0, 1], 0, 1), Range(2))
  {
    assert Range(2) == [0, 1];
    var r := Reassign([0, 1], 0, 1);
    assert r == [1, 1];
    assert multiset(r)[0] == 0;
    assert multiset(Range(2))[0] == 1;
  }

  /** The route edit of `mutate_shift`: a copy of s[start..end] is inserted before
      position `position`; the original segment stays where it was. */
  function ShiftSegment(s: Route, start: nat, end: nat, position: nat): Route
    requires start < end <= |s| && position <= |s| - (end - start)
  {
    s[..position] + s[start..end] + s[position..]
  }

  /** The route grows by the segment's length, the copy sits at `position`,
      cutting it out again gives back s, and the values gained are exactly
      those of the segment. */
  lemma ShiftInsertsCopy(s: Route, start: nat, end: nat, position: nat)
    requires start < end <= |s| && position <= |s| - (end - start)
    ensures var r := ShiftSegment(s, start, end, position);
            && |r| == |s| + (end - start)
            && r[position..position + (end - start)] == s[start..end]
            && r[..position] + r[position + (end - start)..] == s
            && multiset(r) == multiset(s) + multiset(s[start..end])
  {
    var r := ShiftSegment(s, start, end, position);
    assert r[..position] == s[..position];
    assert r[position + (end - start)..] == s[position..];
    assert s == s[..position] + s[position..];
  }

  /** The inserted copy only repeats city indices already in the route. */
  lemma ShiftFits(inst: Instance, s: Route, start: nat, end: nat, position: nat)
    requires Fits(inst, s) && start < end <= |s| && position <= |s| - (end - start)
    requires |s| + (end - start) <= inst.N()
    ensures Fits(inst, ShiftSegment(s, start, end, position))
  {
    var r := ShiftSegment(s, start, end, position);
    ShiftInsertsCopy(s, start, end, position);
    forall p | 0 <= p < |r| ensures r[p] < inst.K() {
      assert r[p] in multiset(r);
      assert r[p] in s;
    }
  }

  /** The shift is not a relocation: moving the segment [0] of [0, 1] to the
      front gives [0, 0, 1], which is longer and no permutation of range(2). */
  lemma ShiftGrowsRoute()
    ensures ShiftSegment([0, 1], 0, 1, 0) == [0, 0, 1]
    ensures !IsPermutationOf(ShiftSegment([0, 1], 0, 1, 0), Range(2))
  {
    var r := ShiftSegment([0, 1], 0, 1, 0);
    ShiftInsertsCopy([0, 1], 0, 1, 0);
    assert r == [0, 0, 1];
    assert |multiset(r)| == 3;
    assert |multiset(Range(2))| == 2;
  }

  /** A candidate assignment and its cached cost. `inst` stands for the global
      tables the source reads. */
  class Individual {
    const inst: Instance
    var route: Route
    var fitness: real

    /** The cache is never stale: `fitness` is the cost of `route`. */
    ghost predicate Valid()
      reads this
    {
      inst.WellFormed() && Fits(inst, route) && fitness == Cost(inst, route)
    }

    /** `calculate_fitness`: the weighted distance of the current route. On an
        up-to-date individual it is the cached fitness, and with non-negative
        tables it is never negative. */
    function CalculateFitness(): (total: real)
      reads this
      requires inst.WellFormed() && Fits(inst, route)
      ensures Valid() ==> total == fitness
      ensures inst.NonNegative() ==> total >= 0.0
    {
      var total := Cost(inst, route);
      assert inst.NonNegative() ==> total >= 0.0 by {
        if inst.NonNegative() {
          CostNonNegative(inst, route);
        }
      }
      total
    }

    /** `__init__` with `create_route`: `sample` is the draw of
        `random.sample(range(k), k)`, a random ordering of the k city indices. */
    constructor (inst: Instance, sample: Route)
      requires inst.WellFormed() && inst.K() <= inst.N()
      requires IsPermutationOf(sample, Range(inst.K()))
      ensures Valid() && this.inst == inst && route == sample
      ensures |route| == inst.K()
    {
      PermutationFits(inst, sample);
      this.inst := inst;
      route := sample;
      new;
      fitness := CalculateFitness();
    }
  }

  /** `mutate_swap`: idx1 and idx2 are the draw of `random.sample(range(len(route)), 2)`. */
  method MutateSwap(ind: Individual, idx1: nat, idx2: nat)
    requires ind.Valid()
    requires idx1 < |ind.route| && idx2 < |ind.route| && idx1 != idx2
    modifies ind
    ensures ind.Valid()
    ensures ind.route == SwapCells(old(ind.route), idx1, idx2)
  {
    SwapFits(ind.inst, ind.route, idx1, idx2);
    ind.route := ind.route[idx1 := ind.route[idx2]][idx2 := ind.route[idx1]];
    ind.fitness := ind.CalculateFitness();
  }

  /** `mutate_random`: index is the draw of `randint(0, len(route) - 1)`, value
      that of `randint(0, k - 1)`. The new cost differs from the old by the one
      factory whose city changed. */
  method MutateRandom(ind: Individual, index: nat, value: nat)
    requires ind.Valid()
    requires index < |ind.route| && value < ind.inst.K()
    modifies ind
    ensures ind.Valid()
    ensures ind.route == Reassign(old(ind.route), index, value)
    ensures ind.fitness == old(ind.fitness) - Term(ind.inst, index, old(ind.route)[index]) + Term(ind.inst, index, value)
  {
    CostUpdate(ind.inst, ind.route, index, value);
    ind.route := ind.route[index := value];
    ind.fitness := ind.CalculateFitness();
  }

  /** `mutate_shift`: start is the draw of `randint(0, len(route) - 1)`, end that
      of `randint(start + 1, len(route))` and position that of
      `randint(0, len(route) - (end - start))`. The grown route must still fit
      the factory list, or the cost evaluation fails with an index error. */
  method MutateShift(ind: Individual, start: nat, end: nat, position: nat)
    requires ind.Valid()
    requires start < |ind.route| && start + 1 <= end <= |ind.route|
    requires position <= |ind.route| - (end - start)
    requires |ind.route| + (end - start) <= ind.inst.N()
    modifies ind
    ensures ind.Valid()
    ensures ind.route == ShiftSegment(old(ind.route), start, end, position)
  {
    ShiftFits(ind.inst, ind.route, start, end, position);
    var segment := ind.route[start..end];
    ind.route := ind.route[..position] + segment + ind.route[position..];
    ind.fitness := ind.CalculateFitness();
  }
}
