/** One generation of `genetic_algorithm` in ML_LAB1.py, and the run of several
    generations for one mutation method. */
module Genetic {
  import opened CostModel
  import opened Individuals

  /** `p_mutation`: the chance that a pair of new children is mutated. */
  const MutationProbability: real := 0.2

  /** The three values of `mutation_method`: 'swap', 'random' and 'shift'. */
  datatype MutationMethod = Swap | Random | Shift

  /** The integers one mutation draws. Swap reads them as (idx1, idx2, -),
      Random as (index, value, -), Shift as (start, end, position). */
  datatype MutationDraw = MutationDraw(first: nat, second: nat, third: nat)

  /** The draw lies in the ranges the source draws it from, for a route of length
      len; for Shift the grown route must also still fit the factory list. */
  predicate DrawFits(inst: Instance, m: MutationMethod, d: MutationDraw, len: nat) {
    match m
    case Swap => d.first < len && d.second < len && d.first != d.second
    case Random => d.first < len && d.second < inst.K()
    case Shift =>
      && d.first < len && d.first + 1 <= d.second <= len
      && d.third <= len - (d.second - d.first)
      && len + (d.second - d.first) <= inst.N()
  }

  /** The route a mutation method turns s into. */
  function Mutated(inst: Instance, m: MutationMethod, s: Route, d: MutationDraw): Route
    requires DrawFits(inst, m, d, |s|)
  {
    match m
    case Swap => SwapCells(s, d.first, d.second)
    case Random => Reassign(s, d.first, d.second)
    case Shift => ShiftSegment(s, d.first, d.second, d.third)
  }

  /** The `if mutation_method == ...` dispatch applied to one child. */
  method Mutate(m: MutationMethod, ind: Individual, d: MutationDraw)
    requires ind.Valid() && DrawFits(ind.inst, m, d, |ind.route|)
    modifies ind
    ensures ind.Valid()
    ensures ind.route == Mutated(ind.inst, m, old(ind.route), d)
  {
    match m
    case Swap => MutateSwap(ind, d.first, d.second);
    case Random => MutateRandom(ind, d.first, d.second);
    case Shift => MutateShift(ind, d.first, d.second, d.third);
  }

  /** What one pass of the refill loop draws: the two `create_route` samples,
      the `random.random()` coin and a mutation draw for each child (used only
      when the coin is below the mutation probability). */
  datatype PairDraw = PairDraw(sample1: Route, sample2: Route, coin: real, draw1: MutationDraw, draw2: MutationDraw)

  predicate PairDrawFits(inst: Instance, m: MutationMethod, pd: PairDraw) {
    && IsPermutationOf(pd.sample1, Range(inst.K()))
    && IsPermutationOf(pd.sample2, Range(inst.K()))
    && 0.0 <= pd.coin < 1.0
    && (pd.coin < MutationProbability ==>
          DrawFits(inst, m, pd.draw1, |pd.sample1|) && DrawFits(inst, m, pd.draw2, |pd.sample2|))
  }

  /** The route of a new child: its sample, mutated when the coin says so. */
  function ChildRoute(inst: Instance, m: MutationMethod, sample: Route, coin: real, d: MutationDraw): Route
    requires coin < MutationProbability ==> DrawFits(inst, m, d, |sample|)
  {
    if coin < MutationProbability then Mutated(inst, m, sample, d) else sample
  }

  /** A child always fits the tables; it is still an ordering of range(k) unless
      a Random or Shift mutation was applied, and a Shift mutation makes it longer. */
  lemma ChildRouteShape(inst: Instance, m: MutationMethod, sample: Route, coin: real, d: MutationDraw)
    requires inst.WellFormed() && inst.K() <= inst.N()
    requires IsPermutationOf(sample, Range(inst.K()))
    requires coin < MutationProbability ==> DrawFits(inst, m, d, |sample|)
    ensures |sample| == inst.K()
    ensures Fits(inst, ChildRoute(inst, m, sample, coin, d))
    ensures (coin >= MutationProbability || m == Swap) ==> IsPermutationOf(ChildRoute(inst, m, sample, coin, d), Range(inst.K()))
    ensures coin < MutationProbability && m == Shift ==> |ChildRoute(inst, m, sample, coin, d)| > inst.K()
  {
    PermutationFits(inst, sample);
    if coin < MutationProbability {
      match m
      case Swap =>
        SwapFits(inst, sample, d.first, d.second);
        SwapExchanges(sample, d.first, d.second);
      case Random => ReassignFits(inst, sample, d.first, d.second);
      case Shift =>
        ShiftFits(inst, sample, d.first, d.second, d.third);
        ShiftInsertsCopy(sample, d.first, d.second, d.third);
    }
  }

  /** Fitness values ascend along s. */
  ghost predicate Ascending(s: seq<Individual>)
    reads s
  {
    forall i, j :: 0 <= i < j < |s| ==> s[i].fitness <= s[j].fitness
  }

  /** Putting x between s[..p] and s[p..] adds x to the individuals. */
  lemma InsertKeepsIndividuals(s: seq<Individual>, p: nat, x: Individual)
    requires p <= |s|
    ensures multiset(s[..p] + [x] + s[p..]) == multiset(s) + multiset{x}
  {
    assert s == s[..p] + s[p..];
  }

  /** Putting x after the last individual not above it and before the first one
      above it keeps the order ascending. */
  lemma InsertKeepsAscending(s: seq<Individual>, p: nat, x: Individual)
    requires p <= |s| && Ascending(s)
    requires p > 0 ==> s[p - 1].fitness <= x.fitness
    requires forall q :: p <= q < |s| ==> s[q].fitness > x.fitness
    ensures Ascending(s[..p] + [x] + s[p..])
  {
    var r := s[..p] + [x] + s[p..];
    assert forall i :: 0 <= i < p ==> r[i] == s[i];
    assert forall i :: p < i < |r| ==> r[i] == s[i - 1];
    forall i, j | 0 <= i < j < |r| ensures r[i].fitness <= r[j].fitness {
      if j == p {
        assert s[i].fitness <= s[p - 1].fitness;
      }
    }
  }

  /** One insertion step of the sort: x goes after every individual whose
      fitness is not larger than its own, so ties keep their order. */
  method InsertByFitness(sorted: seq<Individual>, x: Individual) returns (r: seq<Individual>)
    requires Ascending(sorted)
    ensures |r| == |sorted| + 1 && multiset(r) == multiset(sorted) + multiset{x}
    ensures Ascending(r)
  {
    var p := |sorted|;
    while p > 0 && sorted[p - 1].fitness > x.fitness
      invariant 0 <= p <= |sorted|
      invariant forall q :: p <= q < |sorted| ==> sorted[q].fitness > x.fitness
    {
      p := p - 1;
    }
    InsertKeepsIndividuals(sorted, p, x);
    InsertKeepsAscending(sorted, p, x);
    r := sorted[..p] + [x] + sorted[p..];
  }

  /** `population.sort(key=lambda x: x.fitness)`: the same individuals, in
      ascending order of fitness. */
  method SortByFitness(population: seq<Individual>) returns (sorted: seq<Individual>)
    ensures |sorted| == |population| && multiset(sorted) == multiset(population)
    ensures Ascending(sorted)
  {
    sorted := [];
    var i := 0;
    while i < |population|
      invariant i <= |population|
      invariant |sorted| == i && multiset(sorted) == multiset(population[..i])
      invariant Ascending(sorted)
    {
      assert population[..i + 1] == population[..i] + [population[i]];
      sorted := InsertByFitness(sorted, population[i]);
      i := i + 1;
    }
    assert population[..i] == population;
  }

  /** The cached fitness values of a population, in its order. */
  function Fitnesses(s: seq<Individual>): (f: seq<real>)
    reads s
    ensures |f| == |s| && forall i :: 0 <= i < |s| ==> f[i] == s[i].fitness
  {
    seq(|s|, i requires 0 <= i < |s| reads s => s[i].fitness)
  }

  /** `sum(...)` of a list of fitness values. */
  function Sum(f: seq<real>): real {
    if f == [] then 0.0 else Sum(f[..|f| - 1]) + f[|f| - 1]
  }

  /** `sum(...) / len(...)`: the mean of a non-empty list of fitness values. */
  function Mean(f: seq<real>): real
    requires f != []
  {
    Sum(f) / (|f| as real)
  }

  /** `min(...)` of a list of fitness values: the least one, kept from the front
      and replaced only by a strictly smaller one. */
  function Least(f: seq<real>): (least: real)
    requires f != []
    ensures exists i :: 0 <= i < |f| && f[i] == least
    ensures forall i :: 0 <= i < |f| ==> least <= f[i]
  {
    if |f| == 1 then f[0]
    else
      var front := Least(f[..|f| - 1]);
      if f[|f| - 1] < front then f[|f| - 1] else front
  }

  /** A lower bound on every value bounds the sum by the count times it. */
  lemma {:induction false} SumAtLeast(f: seq<real>, b: real)
    requires forall i :: 0 <= i < |f| ==> b <= f[i]
    ensures (|f| as real) * b <= Sum(f)
  {
    if f != [] {
      var t := f[..|f| - 1];
      assert forall i :: 0 <= i < |t| ==> t[i] == f[i];
      SumAtLeast(t, b);
    }
  }

  /** Whatever bounds every value from below, the least one in particular, does
      not exceed the average. */
  lemma BoundAtMostMean(f: seq<real>, b: real)
    requires f != []
    requires forall i :: 0 <= i < |f| ==> b <= f[i]
    ensures b <= Mean(f)
  {
    SumAtLeast(f, b);
    BoundBelowQuotient(b, |f| as real, Sum(f));
  }

  lemma BoundBelowQuotient(m: real, n: real, total: real)
    requires n > 0.0 && n * m <= total
    ensures m <= total / n
  {
  }

  /** How many of the ranked population survive: `population[:population_size // 2]`. */
  function Survivors(populationLength: nat, size: nat): nat {
    if populationLength < size / 2 then populationLength else size / 2
  }

  /** The length the refill loop stops at when it starts from `length`:
      children come in pairs until the population reaches `size`. */
  function RefillSize(length: nat, size: nat): nat
    decreases size - length
  {
    if length >= size then length else RefillSize(length + 2, size)
  }

  /** Starting below `size`, the refill ends at `size` when the gap is even and
      one past it when the gap is odd. */
  lemma {:induction false} RefillLands(length: nat, size: nat)
    requires length < size
    ensures RefillSize(length, size) == if (size - length) % 2 == 0 then size else size + 1
    decreases size - length
  {
    if length + 2 < size {
      RefillLands(length + 2, size);
    }
  }

  /** Whatever the start, the refill ends after the first pass that reaches `size`. */
  lemma {:induction false} RefillStopsAt(length: nat, size: nat, j: nat)
    requires if length < size then size <= length + 2 * j <= size + 1 else j == 0
    ensures RefillSize(length, size) == length + 2 * j
    decreases j
  {
    if length < size {
      RefillStopsAt(length + 2, size, j - 1);
    }
  }

  /** A generation that keeps size / 2 individuals ends at `size` exactly when
      size - size / 2 is even (size % 4 is 0 or 3), otherwise at size + 1:
      100 stays 100, but 6 grows to 7 and 5 to 6. */
  lemma GenerationSize(size: nat)
    requires size >= 1
    ensures RefillSize(size / 2, size) == size || RefillSize(size / 2, size) == size + 1
    ensures RefillSize(size / 2, size) == size <==> size % 4 == 0 || size % 4 == 3
  {
    RefillLands(size / 2, size);
    HalfGapParity(size);
  }

  /** The gap a refill from half the population has to close is even exactly
      when the size is 0 or 3 modulo 4. */
  lemma HalfGapParity(size: nat)
    ensures (size - size / 2) % 2 == 0 <==> size % 4 == 0 || size % 4 == 3
  {
    var q, r := size / 4, size % 4;
    assert size == 4 * q + r;
    if r == 0 {
      assert size / 2 == 2 * q;
    } else if r == 1 {
      assert size / 2 == 2 * q;
    } else if r == 2 {
      assert size / 2 == 2 * q + 1;
    } else {
      assert size / 2 == 2 * q + 1;
    }
  }

  /** Every draw lies in its ranges. */
  predicate DrawsFit(inst: Instance, m: MutationMethod, draws: seq<PairDraw>) {
    forall j :: 0 <= j < |draws| ==> PairDrawFits(inst, m, draws[j])
  }

  /** The routes the draws prescribe, two per draw: the first child of draw j
      gets route 2j, the second route 2j + 1. */
  function ChildRoutes(inst: Instance, m: MutationMethod, draws: seq<PairDraw>): (r: seq<Route>)
    requires DrawsFit(inst, m, draws)
    ensures |r| == 2 * |draws|
  {
    if draws == [] then [] else PairRoutes(inst, m, draws[0]) + ChildRoutes(inst, m, draws[1..])
  }

  /** The routes of the two children one draw produces. */
  function PairRoutes(inst: Instance, m: MutationMethod, pd: PairDraw): (r: seq<Route>)
    requires PairDrawFits(inst, m, pd)
    ensures |r| == 2
  {
    [ChildRoute(inst, m, pd.sample1, pd.coin, pd.draw1), ChildRoute(inst, m, pd.sample2, pd.coin, pd.draw2)]
  }

  lemma DrawsFitTail(inst: Instance, m: MutationMethod, draws: seq<PairDraw>)
    requires DrawsFit(inst, m, draws) && draws != []
    ensures DrawsFit(inst, m, draws[1..])
  {
    var rest := draws[1..];
    forall i | 0 <= i < |rest| ensures PairDrawFits(inst, m, rest[i]) {
      assert rest[i] == draws[i + 1];
    }
  }

  /** Routes 2j and 2j + 1 are those of draw j. */
  lemma {:induction false} ChildRoutesAt(inst: Instance, m: MutationMethod, draws: seq<PairDraw>, j: nat)
    requires DrawsFit(inst, m, draws) && j < |draws|
    ensures ChildRoutes(inst, m, draws)[2 * j] == PairRoutes(inst, m, draws[j])[0]
    ensures ChildRoutes(inst, m, draws)[2 * j + 1] == PairRoutes(inst, m, draws[j])[1]
  {
    if j > 0 {
      var rest := draws[1..];
      DrawsFitTail(inst, m, draws);
      ChildRoutesAt(inst, m, rest, j - 1);
      var routes, tail := ChildRoutes(inst, m, draws), ChildRoutes(inst, m, rest);
      var k := 2 * (j - 1);
      assert routes[k + 2] == tail[k];
      assert routes[k + 3] == tail[k + 1];
      assert rest[j - 1] == draws[j];
    }
  }

  /** One pass of the refill loop: two individuals are created from the two
      samples and, when the coin falls below the mutation probability, both are
      mutated with the configured method. */
  method NewPair(inst: Instance, m: MutationMethod, draws: seq<PairDraw>, j: nat) returns (child1: Individual, child2: Individual)
    requires inst.WellFormed() && inst.K() <= inst.N() && DrawsFit(inst, m, draws) && j < |draws|
    ensures fresh(child1) && fresh(child2)
    ensures child1.inst == inst && child1.Valid() && child2.inst == inst && child2.Valid()
    ensures child1.route == ChildRoutes(inst, m, draws)[2 * j]
    ensures child2.route == ChildRoutes(inst, m, draws)[2 * j + 1]
  {
    var pd := draws[j];
    ChildRoutesAt(inst, m, draws, j);
    child1 := new Individual(inst, pd.sample1);
    child2 := new Individual(inst, pd.sample2);
    if pd.coin < MutationProbability {
      Mutate(m, child1, pd.draw1);
      Mutate(m, child2, pd.draw2);
    }
  }

  /** From position `from` on, the individuals belong to the instance, have
      an up-to-date fitness and carry the routes listed in `routes`, in order. */
  ghost predicate CarryRoutes(inst: Instance, s: seq<Individual>, from: nat, routes: seq<Route>)
    reads s
  {
    && from <= |s| <= from + |routes|
    && forall i :: from <= i < |s| ==> s[i].inst == inst && s[i].Valid() && s[i].route == routes[i - from]
  }

  /** Appending the next two children keeps the listed routes in order. */
  lemma CarryRoutesExtend(inst: Instance, s: seq<Individual>, from: nat, routes: seq<Route>, c1: Individual, c2: Individual)
    requires CarryRoutes(inst, s, from, routes) && |s| + 2 <= from + |routes|
    requires c1.inst == inst && c1.Valid() && c1.route == routes[|s| - from]
    requires c2.inst == inst && c2.Valid() && c2.route == routes[|s| - from + 1]
    ensures CarryRoutes(inst, s + [c1, c2], from, routes)
  {
  }

  /** One pass of the refill loop body: the pair built from draw j is appended. */
  method AppendPair(inst: Instance, m: MutationMethod, draws: seq<PairDraw>, j: nat, next: seq<Individual>, from: nat)
    returns (grown: seq<Individual>)
    requires inst.WellFormed() && inst.K() <= inst.N() && DrawsFit(inst, m, draws) && j < |draws|
    requires |next| == from + 2 * j && CarryRoutes(inst, next, from, ChildRoutes(inst, m, draws))
    ensures |grown| == |next| + 2 && grown[..|next|] == next
    ensures CarryRoutes(inst, grown, from, ChildRoutes(inst, m, draws))
  {
    var child1, child2 := NewPair(inst, m, draws, j);
    CarryRoutesExtend(inst, next, from, ChildRoutes(inst, m, draws), child1, child2);
    grown := next + [child1, child2];
  }

  /** The refill loop `while len(new_population) < population_size`: pairs of
      children built from the draws, in order, are appended to the survivors
      until the population has at least `size` members. */
  method Refill(inst: Instance, m: MutationMethod, size: nat, survivors: seq<Individual>, draws: seq<PairDraw>)
    returns (next: seq<Individual>)
    requires inst.WellFormed() && inst.K() <= inst.N()
    requires 2 * |draws| >= size - |survivors|
    requires DrawsFit(inst, m, draws) && AllValid(inst, survivors)
    ensures |next| == RefillSize(|survivors|, size)
    ensures |survivors| <= |next| && next[..|survivors|] == survivors
    ensures CarryRoutes(inst, next, |survivors|, ChildRoutes(inst, m, draws))
    ensures AllValid(inst, next)
  {
    next := survivors;
    var j := 0;
    while |next| < size
      invariant |next| == |survivors| + 2 * j && j <= |draws|
      invariant next[..|survivors|] == survivors
      invariant if |survivors| < size then |next| <= size + 1 else j == 0
      invariant CarryRoutes(inst, next, |survivors|, ChildRoutes(inst, m, draws))
      decreases size - |next|
    {
      next := AppendPair(inst, m, draws, j, next, |survivors|);
      j := j + 1;
    }
    RefillStopsAt(|survivors|, size, j);
    AllValidJoin(inst, next, |survivors|, ChildRoutes(inst, m, draws));
  }

  /** One generation of `genetic_algorithm` for mutation method m, with `size`
      the configured `population_size`. The survivors are the lowest-fitness
      individuals of the sorted population, in ascending order; each pass of
      the refill loop appends two fresh children built from `draws`; the
      returned avg and best are what the source appends to its two series.
      The parent pair drawn from the first 20 survivors is never used; the
      draw only needs two survivors to pick from. */
  method GenerationStep(inst: Instance, m: MutationMethod, size: nat, population: seq<Individual>, draws: seq<PairDraw>)
    returns (next: seq<Individual>, avg: real, best: real)
    requires inst.WellFormed() && inst.K() <= inst.N()
    requires AllValid(inst, population)
    requires Survivors(|population|, size) >= 2
    requires 2 * |draws| >= size - Survivors(|population|, size)
    requires DrawsFit(inst, m, draws)
    ensures |next| == RefillSize(Survivors(|population|, size), size)
    ensures |next| == size || |next| == size + 1
    ensures AllValid(inst, next)
    ensures KeepsLowest(population, next[..Survivors(|population|, size)])
    ensures CarryRoutes(inst, next, Survivors(|population|, size), ChildRoutes(inst, m, draws))
    ensures avg == Mean(Fitnesses(next)) && best == Least(Fitnesses(next))
    ensures (exists i :: 0 <= i < |next| && next[i].fitness == best) && forall i :: 0 <= i < |next| ==> best <= next[i].fitness
    ensures best <= avg
    ensures forall i :: 0 <= i < |population| ==> best <= population[i].fitness
  {
    var h := Survivors(|population|, size);
    next := Breed(inst, m, size, population, draws);
    RefillLands(h, size);
    var values := Fitnesses(next);
    avg := Mean(values);
    best := Least(values);
    BoundAtMostMean(values, best);
  }

  /** The new population of one generation: the survivors of the sorted
      population followed by the children the refill loop appends. Its first
      member has a fitness no larger than any of the old population. */
  method Breed(inst: Instance, m: MutationMethod, size: nat, population: seq<Individual>, draws: seq<PairDraw>)
    returns (next: seq<Individual>)
    requires inst.WellFormed() && inst.K() <= inst.N()
    requires AllValid(inst, population)
    requires Survivors(|population|, size) >= 2
    requires 2 * |draws| >= size - Survivors(|population|, size)
    requires DrawsFit(inst, m, draws)
    ensures |next| == RefillSize(Survivors(|population|, size), size)
    ensures Survivors(|population|, size) <= |next|
    ensures AllValid(inst, next)
    ensures KeepsLowest(population, next[..Survivors(|population|, size)])
    ensures CarryRoutes(inst, next, Survivors(|population|, size), ChildRoutes(inst, m, draws))
    ensures forall i :: 0 <= i < |population| ==> next[0].fitness <= population[i].fitness
  {
    var survivors := SelectSurvivors(inst, size, population);
    next := Refill(inst, m, size, survivors, draws);
    LowestKeptBoundsAll(population, survivors);
    assert next[0] == survivors[0];
  }

  /** `population.sort(...)` followed by `population[:population_size // 2]`. */
  method SelectSurvivors(inst: Instance, size: nat, population: seq<Individual>) returns (survivors: seq<Individual>)
    requires AllValid(inst, population)
    ensures |survivors| == Survivors(|population|, size)
    ensures KeepsLowest(population, survivors)
    ensures AllValid(inst, survivors)
  {
    var ranked := SortByFitness(population);
    var h := Survivors(|population|, size);
    survivors := ranked[..h];
    SurvivorsAreLowest(population, ranked, h);
    KeptStayValid(inst, population, survivors);
  }

  /** The first survivor has a fitness no larger than any individual of the
      population it was drawn from, kept or not. */
  lemma LowestKeptBoundsAll(population: seq<Individual>, kept: seq<Individual>)
    requires KeepsLowest(population, kept) && kept != []
    ensures forall i :: 0 <= i < |population| ==> kept[0].fitness <= population[i].fitness
  {
    forall i | 0 <= i < |population| ensures kept[0].fitness <= population[i].fitness {
      var y := population[i];
      assert y in multiset(population);
      if y in multiset(kept) {
        var j :| 0 <= j < |kept| && kept[j] == y;
      } else {
        assert y in multiset(population) - multiset(kept);
      }
    }
  }

  /** The population of the first generation: `population_size` individuals
      built from the given `create_route` samples, in order; `start` holds
      their fitness values, the costs of the samples. */
  method InitialPopulation(inst: Instance, samples: seq<Route>) returns (population: seq<Individual>, ghost start: seq<real>)
    requires inst.WellFormed() && inst.K() <= inst.N()
    requires forall i :: 0 <= i < |samples| ==> IsPermutationOf(samples[i], Range(inst.K()))
    ensures |population| == |samples| && AllValid(inst, population)
    ensures forall i :: 0 <= i < |samples| ==> population[i].route == samples[i]
    ensures start == Fitnesses(population)
    ensures |start| == |samples| && forall i :: 0 <= i < |samples| ==> Fits(inst, samples[i]) && start[i] == Cost(inst, samples[i])
  {
    population := [];
    var i := 0;
    while i < |samples|
      invariant i <= |samples| && |population| == i && AllValid(inst, population)
      invariant forall j :: 0 <= j < i ==> population[j].route == samples[j]
    {
      var ind := new Individual(inst, samples[i]);
      population := population + [ind];
      i := i + 1;
    }
    start := Fitnesses(population);
  }

  /** `min(population, key=lambda x: x.fitness)`: the first individual of
      least fitness. */
  method Fittest(population: seq<Individual>) returns (index: nat)
    requires population != []
    ensures index < |population|
    ensures forall i :: 0 <= i < |population| ==> population[index].fitness <= population[i].fitness
    ensures forall i :: 0 <= i < index ==> population[index].fitness < population[i].fitness
  {
    index := 0;
    var i := 1;
    while i < |population|
      invariant index < i <= |population|
      invariant forall j :: 0 <= j < i ==> population[index].fitness <= population[j].fitness
      invariant forall j :: 0 <= j < index ==> population[index].fitness < population[j].fitness
    {
      if population[i].fitness < population[index].fitness {
        index := i;
      }
      i := i + 1;
    }
  }

  /** One pass of the `for generation` loop on a population that has reached
      its size, whose fitness values are `before`: the new population, whose
      fitness values are `after`, the two statistics of the new population, and
      its best fitness bounded by every fitness of the old one. */
  method Advance(inst: Instance, m: MutationMethod, size: nat, population: seq<Individual>, ghost before: seq<real>, draws: seq<PairDraw>)
    returns (next: seq<Individual>, avg: real, best: real, ghost after: seq<real>)
    requires inst.WellFormed() && inst.K() <= inst.N() && size >= 4
    requires AllValid(inst, population) && |population| >= size / 2 && before == Fitnesses(population)
    requires DrawsFit(inst, m, draws) && 2 * |draws| >= size - size / 2
    ensures |next| == RefillSize(size / 2, size) && AllValid(inst, next)
    ensures after == Fitnesses(next) && after != []
    ensures avg == Mean(after) && best == Least(after)
    ensures best <= avg
    ensures forall i :: 0 <= i < |before| ==> best <= before[i]
  {
    next, avg, best := GenerationStep(inst, m, size, population, draws);
    after := Fitnesses(next);
  }

  /** The best fitness of each generation is no larger than that of any earlier one. */
  predicate NonIncreasing(s: seq<real>) {
    forall i, j :: 0 <= i < j < |s| ==> s[j] <= s[i]
  }

  /** Every generation recorded has a fitness value. */
  predicate NoneEmpty(history: seq<seq<real>>) {
    forall g :: 0 <= g < |history| ==> history[g] != []
  }

  /** `fitness_results_avg[mutation_method]`: the mean fitness of each recorded generation. */
  function Means(history: seq<seq<real>>): (avgs: seq<real>)
    requires NoneEmpty(history)
    ensures |avgs| == |history|
  {
    if history == [] then [] else Means(history[..|history| - 1]) + [Mean(history[|history| - 1])]
  }

  /** `fitness_results_max[mutation_method]`: the least fitness of each recorded generation. */
  function Leasts(history: seq<seq<real>>): (bests: seq<real>)
    requires NoneEmpty(history)
    ensures |bests| == |history|
  {
    if history == [] then [] else Leasts(history[..|history| - 1]) + [Least(history[|history| - 1])]
  }

  /** Entry g of each series is the statistic of generation g. */
  lemma {:induction false} SeriesAt(history: seq<seq<real>>, g: nat)
    requires NoneEmpty(history) && g < |history|
    ensures Means(history)[g] == Mean(history[g]) && Leasts(history)[g] == Least(history[g])
  {
    if g < |history| - 1 {
      var front := history[..|history| - 1];
      SeriesAt(front, g);
      assert front[g] == history[g];
    }
  }

  /** Recording one more generation appends its two statistics. */
  lemma SeriesExtend(history: seq<seq<real>>, f: seq<real>)
    requires NoneEmpty(history) && f != []
    ensures NoneEmpty(history + [f])
    ensures Means(history + [f]) == Means(history) + [Mean(f)]
    ensures Leasts(history + [f]) == Leasts(history) + [Least(f)]
  {
    assert (history + [f])[..|history|] == history;
  }

  /** In every recorded generation the best fitness is no larger than the mean. */
  lemma BestsAtMostMeans(history: seq<seq<real>>)
    requires NoneEmpty(history)
    ensures forall g :: 0 <= g < |history| ==> Leasts(history)[g] <= Means(history)[g]
  {
    forall g | 0 <= g < |history| ensures Leasts(history)[g] <= Means(history)[g] {
      SeriesAt(history, g);
      BoundAtMostMean(history[g], Least(history[g]));
    }
  }

  /** The fitness values of the generation before generation g: the initial
      population's for g = 0. */
  function Before(initial: seq<real>, history: seq<seq<real>>, g: nat): seq<real>
    requires g < |history|
  {
    if g == 0 then initial else history[g - 1]
  }

  /** Each generation's best fitness is no larger than any fitness of the
      generation before it. */
  predicate Descends(initial: seq<real>, history: seq<seq<real>>)
    requires NoneEmpty(history)
  {
    forall g, i :: 0 <= g < |history| && 0 <= i < |Before(initial, history, g)| ==>
      Least(history[g]) <= Before(initial, history, g)[i]
  }

  /** A descending history has a non-increasing best series. */
  lemma DescendsNonIncreasing(initial: seq<real>, history: seq<seq<real>>)
    requires NoneEmpty(history) && Descends(initial, history)
    ensures NonIncreasing(Leasts(history))
  {
    var bests := Leasts(history);
    forall g, h | 0 <= g < h < |history| ensures bests[h] <= bests[g] {
      SeriesAt(history, g);
      SeriesAt(history, h);
      DescendsFrom(initial, history, g, h);
    }
  }

  lemma {:induction false} DescendsFrom(initial: seq<real>, history: seq<seq<real>>, g: nat, h: nat)
    requires NoneEmpty(history) && Descends(initial, history) && g < h < |history|
    ensures Least(history[h]) <= Least(history[g])
    decreases h - g
  {
    DescendsOnce(initial, history, h);
    if g < h - 1 {
      DescendsFrom(initial, history, g, h - 1);
    }
  }

  /** The best fitness of a generation is no larger than that of the one before. */
  lemma DescendsOnce(initial: seq<real>, history: seq<seq<real>>, h: nat)
    requires NoneEmpty(history) && Descends(initial, history) && 0 < h < |history|
    ensures Least(history[h]) <= Least(history[h - 1])
  {
    var w :| 0 <= w < |history[h - 1]| && history[h - 1][w] == Least(history[h - 1]);
    assert Before(initial, history, h)[w] == Least(history[h - 1]);
  }

  /** A generation whose best fitness is no larger than any fitness of the one
      before keeps the history descending and appends its two statistics. */
  lemma RecordNext(initial: seq<real>, history: seq<seq<real>>, before: seq<real>, after: seq<real>)
    requires NoneEmpty(history) && Descends(initial, history) && after != []
    requires before == if history == [] then initial else history[|history| - 1]
    requires forall i :: 0 <= i < |before| ==> Least(after) <= before[i]
    ensures NoneEmpty(history + [after]) && Descends(initial, history + [after])
    ensures Means(history + [after]) == Means(history) + [Mean(after)]
    ensures Leasts(history + [after]) == Leasts(history) + [Least(after)]
  {
    SeriesExtend(history, after);
    DescendsExtend(initial, history, after);
  }

  lemma DescendsExtend(initial: seq<real>, history: seq<seq<real>>, after: seq<real>)
    requires NoneEmpty(history) && Descends(initial, history) && after != []
    requires forall i :: 0 <= i < |Before(initial, history + [after], |history|)| ==>
               Least(after) <= Before(initial, history + [after], |history|)[i]
    ensures NoneEmpty(history + [after]) && Descends(initial, history + [after])
  {
    var longer := history + [after];
    assert NoneEmpty(longer) by {
      assert forall g :: 0 <= g < |history| ==> longer[g] == history[g];
    }
    forall g, i | 0 <= g < |longer| && 0 <= i < |Before(initial, longer, g)|
      ensures Least(longer[g]) <= Before(initial, longer, g)[i]
    {
      if g < |history| {
        assert longer[g] == history[g];
        assert Before(initial, longer, g) == Before(initial, history, g);
      }
    }
  }

  /** The `for generation` loop from a population of `size` individuals, one
      generation per element of `draws`. `history` holds the fitness values of
      the population each generation produced; `avgs` and `bests` are the two
      series the source records, their means and their least values. Each
      generation's best fitness is no larger than any fitness of the generation
      before: the lowest-fitness individual survives, so the new least value is
      at most its fitness. */
  method Generations(inst: Instance, m: MutationMethod, size: nat, initial: seq<Individual>, ghost first: seq<real>, draws: seq<seq<PairDraw>>)
    returns (population: seq<Individual>, avgs: seq<real>, bests: seq<real>, ghost history: seq<seq<real>>)
    requires inst.WellFormed() && inst.K() <= inst.N() && size >= 4
    requires AllValid(inst, initial) && |initial| == size && first == Fitnesses(initial)
    requires forall g :: 0 <= g < |draws| ==> DrawsFit(inst, m, draws[g]) && 2 * |draws[g]| >= size - size / 2
    ensures |history| == |draws| && NoneEmpty(history)
    ensures avgs == Means(history) && bests == Leasts(history)
    ensures Descends(first, history)
    ensures AllValid(inst, population)
    ensures |population| == if draws == [] then size else RefillSize(size / 2, size)
    ensures draws != [] ==> Fitnesses(population) == history[|draws| - 1]
  {
    population := initial;
    avgs, bests, history := [], [], [];
    RefillLands(size / 2, size);
    ghost var last := first;
    var g := 0;
    while g < |draws|
      invariant g <= |draws| && |history| == g && NoneEmpty(history)
      invariant avgs == Means(history) && bests == Leasts(history) && Descends(first, history)
      invariant AllValid(inst, population)
      invariant |population| == if g == 0 then size else RefillSize(size / 2, size)
      invariant last == Fitnesses(population) && last == if g == 0 then first else history[g - 1]
    {
      var avg, best;
      ghost var after;
      population, avg, best, after := Advance(inst, m, size, population, last, draws[g]);
      RecordNext(first, history, last, after);
      avgs, bests, history, last := avgs + [avg], bests + [best], history + [after], after;
      g := g + 1;
    }
  }

  /** The body of the `for mutation_method` loop: an initial population built
      from `samples`, one generation per element of `draws`, and the first
      individual of least fitness in the last population. */
  method Evolve(inst: Instance, m: MutationMethod, size: nat, samples: seq<Route>, draws: seq<seq<PairDraw>>)
    returns (population: seq<Individual>, avgs: seq<real>, bests: seq<real>, champion: Individual,
             ghost start: seq<real>, ghost history: seq<seq<real>>)
    requires inst.WellFormed() && inst.K() <= inst.N() && size >= 4
    requires |samples| == size && forall i :: 0 <= i < size ==> IsPermutationOf(samples[i], Range(inst.K()))
    requires forall g :: 0 <= g < |draws| ==> DrawsFit(inst, m, draws[g]) && 2 * |draws[g]| >= size - size / 2
    ensures |history| == |draws| && NoneEmpty(history)
    ensures avgs == Means(history) && bests == Leasts(history)
    ensures |start| == size && forall i :: 0 <= i < size ==> Fits(inst, samples[i]) && start[i] == Cost(inst, samples[i])
    ensures Descends(start, history)
    ensures forall g :: 0 <= g < |draws| ==> bests[g] <= avgs[g]
    ensures NonIncreasing(bests)
    ensures AllValid(inst, population)
    ensures |population| == if draws == [] then size else RefillSize(size / 2, size)
    ensures draws != [] ==> Fitnesses(population) == history[|draws| - 1]
    ensures exists i :: 0 <= i < |population| && population[i] == champion
                        && forall q :: 0 <= q < i ==> champion.fitness < population[q].fitness
    ensures forall i :: 0 <= i < |population| ==> champion.fitness <= population[i].fitness
    ensures draws != [] ==> champion.fitness == bests[|draws| - 1]
  {
    var initial;
    initial, start := InitialPopulation(inst, samples);
    population, avgs, bests, history := Generations(inst, m, size, initial, start, draws);
    var index := Fittest(population);
    champion := population[index];
    BestsAtMostMeans(history);
    DescendsNonIncreasing(start, history);
  }

  /** Every individual belongs to the instance and has an up-to-date fitness. */
  ghost predicate AllValid(inst: Instance, s: seq<Individual>)
    reads s
  {
    forall i :: 0 <= i < |s| ==> s[i].inst == inst && s[i].Valid()
  }

  /** Individuals drawn from a valid population are valid. */
  lemma KeptStayValid(inst: Instance, population: seq<Individual>, kept: seq<Individual>)
    requires AllValid(inst, population) && multiset(kept) <= multiset(population)
    ensures AllValid(inst, kept)
  {
    forall i | 0 <= i < |kept| ensures kept[i].inst == inst && kept[i].Valid() {
      assert kept[i] in multiset(kept);
      assert kept[i] in multiset(population);
      var q :| 0 <= q < |population| && population[q] == kept[i];
    }
  }

  /** Valid survivors followed by valid children make a valid population. */
  lemma AllValidJoin(inst: Instance, s: seq<Individual>, from: nat, routes: seq<Route>)
    requires from <= |s| && AllValid(inst, s[..from]) && CarryRoutes(inst, s, from, routes)
    ensures AllValid(inst, s)
  {
    forall i | 0 <= i < |s| ensures s[i].inst == inst && s[i].Valid() {
      if i < from {
        assert s[i] == s[..from][i];
      }
    }
  }

  /** kept is drawn from the population in ascending order of fitness, and
      none of the individuals left behind has a lower fitness than any kept one. */
  ghost predicate KeepsLowest(population: seq<Individual>, kept: seq<Individual>)
    reads population, kept
  {
    && Ascending(kept)
    && multiset(kept) <= multiset(population)
    && forall i, y :: 0 <= i < |kept| && y in multiset(population) - multiset(kept) ==> kept[i].fitness <= y.fitness
  }

  /** The first h of the ranked population are in order, come from the population,
      and none of the others has a lower fitness. */
  lemma SurvivorsAreLowest(population: seq<Individual>, ranked: seq<Individual>, h: nat)
    requires multiset(ranked) == multiset(population) && Ascending(ranked) && h <= |ranked|
    ensures KeepsLowest(population, ranked[..h])
  {
    assert ranked == ranked[..h] + ranked[h..];
    forall i, y | 0 <= i < h && y in multiset(population) - multiset(ranked[..h])
      ensures ranked[i].fitness <= y.fitness
    {
      assert y in multiset(ranked[h..]);
      var q :| h <= q < |ranked| && ranked[q] == y;
    }
  }
}
