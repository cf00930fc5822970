# Assignment optimiser of ML_LAB1.py, modelled in Dafny

`ML_LAB1.py` maps each of the first factories to a city index and scores such
a route by weighted distance: position i contributes
`distances[i][route[i]] * factories[i]`. Two solvers use this cost:

- an exhaustive search over every ordering of `range(k)`;
- a genetic search whose individuals carry a route and a cached fitness, with
  three mutation operators (swap, random reassignment, segment shift) and a
  generation loop that keeps the cheaper half of the population and refills
  it with fresh random children.

The model is split by those pieces:

- `cost.dfy` (module `CostModel`): the instance tables, the cost as a left
  fold (`Cost`), the `total_cost` loop, and the facts about the cost that the
  rest uses (one overwritten position, appending a position, only the first
  factories count, no negative costs).
- `exhaustive.dfy` (module `ExhaustiveSolver`): the orderings of `range(k)` in
  the order `itertools.permutations` yields them (`Perms`), proved to be
  exactly the reorderings and `k!` many, and `exhaustive_search` proved to
  return the first cheapest of them. A worked instance (three factories, two
  cities) shows the answer `[0, 1]` with cost 30.
- `individual.dfy` (module `Individuals`): the class `Individual` with fields
  `route` and `fitness`. Its invariant `Valid` says that the cached fitness is
  the cost of the route. The three route edits are pure functions with their
  properties as lemmas. The three mutation methods update the object in place,
  keeping `Valid`.
- `genetic.dfy` (module `Genetic`): one generation of `genetic_algorithm` and
  the generation loop around it. The steps are:
  - sort by fitness (an insertion sort over the individuals);
  - keep the first `population_size // 2`;
  - refill in pairs, with the mutation gated by one coin per pair;
  - record the mean and least fitness;
  - at the end, pick the fittest individual.

Every random draw is a parameter, constrained to the range the source draws
it from. These are the `random.sample` route of a new individual, the two
indices of a swap, the `randint` values of the other mutations, and the
`random.random()` coin. A draw that would make the source raise (an index past
the factory list, a city index of k or more) is excluded by a precondition.

Costs are `real`, volumes `int`, routes `seq<nat>`.

Where the code and a plain reading of its intent differ, the model follows the
code:

- `create_route` draws a permutation of `range(k)`, not an independent city
  per position (`Individuals.Individual.constructor`).
- `mutate_shift` inserts a copy of the segment and leaves the original in
  place, so the route grows by the segment's length
  (`Individuals.ShiftInsertsCopy`, `Individuals.ShiftGrowsRoute`).
- The refill loop ends at `population_size + 1` whenever
  `population_size - population_size // 2` is odd, and that includes even sizes
  such as 6, which gives 7 (`Genetic.GenerationSize`).
- Because the cheapest individual is never dropped, the per-generation least
  fitness never increases within one run (`Genetic.DescendsNonIncreasing`,
  `Genetic.Evolve`). After each generation the new least fitness is at most
  every fitness of the previous population (`Genetic.GenerationStep`).

## Model

| member | source | states |
|---|---|---|
| CostModel.CostUpTo | ML_LAB1.py:30-31 | the definition: the sum of distance times volume over the first m positions of a route, added from the front as the `enumerate` loop does; its properties are the CostUpTo lemmas below |
| CostModel.Cost | ML_LAB1.py:28-32 | the definition of a route's cost, the sum over all its positions; `total_cost` computes it (`TotalCost`) and `calculate_fitness` (line 61) returns it (`Individual.CalculateFitness`) |
| CostModel.TotalCost | ML_LAB1.py:28-32 | the loop's accumulated cost equals the cost of the route, the sum over its positions of distance times volume |
| CostModel.CostUpToUpdate | ML_LAB1.py:31 | overwriting one position of a route changes each partial sum that includes it by exactly the difference of that position's two terms, and leaves shorter sums alone |
| CostModel.CostUpdate | ML_LAB1.py:28-32 | overwriting position j of a route changes its cost by exactly the difference of the two terms of factory j |
| CostModel.CostUpToNonNegative | ML_LAB1.py:31 | with non-negative volumes and distances no partial sum of the cost is negative |
| CostModel.CostNonNegative | ML_LAB1.py:28-32 | with non-negative volumes and distances no route has a negative cost |
| CostModel.CostUpToOnlyReadsPrefix | ML_LAB1.py:30-31 | two instances that agree on the first len(route) volumes and distance rows give the same partial sums |
| CostModel.CostOnlyReadsPrefix | ML_LAB1.py:28-32 | only the first len(route) factories take part in the cost |
| CostModel.CostUpToExtend | ML_LAB1.py:30-31 | appending a city leaves every partial sum over the old positions unchanged |
| CostModel.CostExtend | ML_LAB1.py:28-32 | appending a city adds exactly that new position's term: the cost is a left fold |
| CostModel.Range | ML_LAB1.py:38 | range(k) has length k and holds i at position i |
| CostModel.PermutationFits | ML_LAB1.py:38-39 | a reordering of range(k) has length k and city indices below k, so it can be costed when k <= n |
| ExhaustiveSolver.Perms | ML_LAB1.py:38 | the definition of the `itertools.permutations` order: for each position i in turn, the element at i followed by every ordering of the rest; `PermsSound`, `PermsComplete` and `PermsCount` prove these are exactly the k! reorderings |
| ExhaustiveSolver.PermsFrom | ML_LAB1.py:38 | the definition of the orderings that start with the element at position i, then those that start with the one at i + 1, and so on |
| ExhaustiveSolver.PermsSound | ML_LAB1.py:38 | every ordering enumerated is a reordering of the input |
| ExhaustiveSolver.PermsFromSound | ML_LAB1.py:38 | every ordering enumerated from position i on is a reordering of the input |
| ExhaustiveSolver.PermsComplete | ML_LAB1.py:38 | every reordering of the input is enumerated |
| ExhaustiveSolver.PermsFromContains | ML_LAB1.py:38 | an ordering that starts with the element at position j is enumerated among those from any position i <= j |
| ExhaustiveSolver.PermsCount | ML_LAB1.py:38 | k! orderings are enumerated for k values |
| ExhaustiveSolver.PermsFromCount | ML_LAB1.py:38 | the orderings from position i on number (k - i) times (k - 1)! |
| ExhaustiveSolver.PermsOfRangeFit | ML_LAB1.py:38-39 | every enumerated ordering of range(k) can be costed on the first k factories |
| ExhaustiveSolver.PositionInPerms | ML_LAB1.py:38 | every reordering of range(k) sits at some position of the enumeration |
| ExhaustiveSolver.BoundOverAllPermutations | ML_LAB1.py:38-42 | a bound below the cost of every enumerated ordering is below the cost of every reordering of range(k) |
| ExhaustiveSolver.FirstCheapest | ML_LAB1.py:36-42 | the scan with strict < returns a cheapest candidate, and every candidate before it is strictly more expensive |
| ExhaustiveSolver.ExhaustiveSearch | ML_LAB1.py:35-43 | the result is a reordering of range(k), its cost is the cost of that route, no reordering of range(k) is cheaper, and every ordering earlier in itertools order is strictly more expensive |
| ExhaustiveSolver.PermsOfPair | ML_LAB1.py:38 | itertools order for two values: first as given, then exchanged |
| ExhaustiveSolver.OrderingsOfTwo | ML_LAB1.py:38 | the only reorderings of range(2) are [0, 1] and [1, 0] |
| ExhaustiveSolver.TwoCityCosts | ML_LAB1.py:28-32 | on volumes 10, 20, 30 and distance rows [1, 2], [3, 1], [2, 2], route [0, 1] costs 30 and [1, 0] costs 80 |
| ExhaustiveSolver.TwoCityAnswer | ML_LAB1.py:35-43 | on that instance any result meeting the contract of the search is the route [0, 1] with cost 30 |
| Individuals.SwapCells | ML_LAB1.py:68 | the definition of the route after the tuple assignment; `SwapExchanges`, `SwapDiffering` and `SwapFits` state what it does |
| Individuals.SwapExchanges | ML_LAB1.py:68 | the swap exchanges the two cells, leaves every other cell and the length alone, and keeps the multiset of cities |
| Individuals.SwapDiffering | ML_LAB1.py:67-68 | a swap of two distinct cells changes exactly those two positions, or none when they hold the same city |
| Individuals.SwapFits | ML_LAB1.py:66-69 | a swapped route can still be costed |
| Individuals.Reassign | ML_LAB1.py:74 | the definition of the route with one position overwritten; `ReassignSets`, `ReassignDiffering`, `ReassignFits` and `ReassignBreaksPermutation` state what it does |
| Individuals.ReassignSets | ML_LAB1.py:74 | position index now holds the drawn city and every other position is unchanged |
| Individuals.ReassignDiffering | ML_LAB1.py:73-74 | at most one position differs after a random reassignment |
| Individuals.ReassignFits | ML_LAB1.py:72-75 | a city drawn from [0, k) keeps the route costable |
| Individuals.ReassignBreaksPermutation | ML_LAB1.py:72-74 | a reassignment can turn a permutation of range(2) into a non-permutation ([0, 1] becomes [1, 1]) |
| Individuals.ShiftSegment | ML_LAB1.py:81-83 | the definition `route[:position] + route[start:end] + route[position:]`; `ShiftInsertsCopy`, `ShiftFits` and `ShiftGrowsRoute` state what it does |
| Individuals.ShiftInsertsCopy | ML_LAB1.py:81-83 | the shifted route is longer by the segment's length, holds a copy of the segment at the drawn position, gives back the old route when that copy is cut out, and gains exactly the segment's cities |
| Individuals.ShiftFits | ML_LAB1.py:78-84 | the shifted route can still be costed when it is no longer than the factory list |
| Individuals.ShiftGrowsRoute | ML_LAB1.py:81-83 | shifting the segment [0] of [0, 1] to the front gives [0, 0, 1], which is longer and not a permutation of range(2) |
| Individuals.Individual.constructor | ML_LAB1.py:53-62 | a new individual's route is the drawn permutation of range(k) and its fitness is that route's cost |
| Individuals.Individual.CalculateFitness | ML_LAB1.py:60-62 | the weighted distance of the current route, the same cost `total_cost` computes; on an up-to-date individual it equals the cached fitness, and with non-negative tables it is never negative |
| Individuals.MutateSwap | ML_LAB1.py:66-69 | the route becomes the swapped route and the cached fitness is its cost again |
| Individuals.MutateRandom | ML_LAB1.py:72-75 | the route becomes the reassigned route, the cached fitness is its cost again, and it moves by exactly the changed factory's term difference |
| Individuals.MutateShift | ML_LAB1.py:78-84 | the route becomes the shifted route and the cached fitness is its cost again |
| Genetic.Mutated | ML_LAB1.py:107-116 | the definition of the route edit the mutation method selects: swap, reassign or shift; `Mutate` applies it and `ChildRouteShape` states its effect |
| Genetic.Mutate | ML_LAB1.py:108-116 | the mutation method's route edit is applied to the child and its fitness stays the cost of its route |
| Genetic.ChildRoute | ML_LAB1.py:104-116 | the definition of a child's route: its `create_route` sample, with the mutation method's edit applied when the coin is below the mutation probability 0.2 |
| Genetic.PairRoutes | ML_LAB1.py:104-116 | the definition of the two child routes one pass of the refill loop builds from one draw, in the order they are appended |
| Genetic.ChildRouteShape | ML_LAB1.py:104-116 | a child's route can be costed; it is still a reordering of range(k) unless a random or shift mutation hit it, and a shift mutation makes it longer than k |
| Genetic.InsertByFitness | ML_LAB1.py:96 | one insertion step adds exactly the new individual and keeps fitness ascending |
| Genetic.SortByFitness | ML_LAB1.py:96 | the sorted population holds the same individuals, in ascending order of fitness |
| Genetic.Fitnesses | ML_LAB1.py:122 | `[ind.fitness for ind in population]`: one value per individual, in order, each its cached fitness |
| Genetic.Sum | ML_LAB1.py:122 | the definition of the sum of a list of fitness values, added from the front; `SumAtLeast` bounds it |
| Genetic.Mean | ML_LAB1.py:122 | the definition of `np.mean`: the sum over the count, for a non-empty list; `BoundAtMostMean` bounds it from below |
| Genetic.Least | ML_LAB1.py:123 | `min(...)`: the least value is one of the list's values and is no larger than any of them |
| Genetic.SumAtLeast | ML_LAB1.py:122 | a lower bound on every value, times the count, is at most the sum |
| Genetic.BoundAtMostMean | ML_LAB1.py:122-123 | a lower bound on every value, the least in particular, is at most the mean |
| Genetic.Survivors | ML_LAB1.py:97 | the definition of the length of `population[:population_size // 2]`: the whole population when it is shorter, otherwise `population_size // 2` |
| Genetic.RefillSize | ML_LAB1.py:99-118 | the definition of the length at which the pairwise refill loop stops; `RefillLands` gives its closed form and `RefillStopsAt` the stopping rule |
| Genetic.RefillLands | ML_LAB1.py:99-118 | from a length below the size, the pairwise refill ends at the size when the gap is even and one past it when the gap is odd |
| Genetic.RefillStopsAt | ML_LAB1.py:99-118 | the refill stops after the first pass that reaches the size, and not at all when the size is already reached |
| Genetic.GenerationSize | ML_LAB1.py:97-118 | after a generation the population has size or size + 1 members, exactly size when size % 4 is 0 or 3 |
| Genetic.ChildRoutes | ML_LAB1.py:99-118 | the draws prescribe two routes each |
| Genetic.ChildRoutesAt | ML_LAB1.py:104-116 | routes 2j and 2j + 1 are the two children of draw j |
| Genetic.NewPair | ML_LAB1.py:104-116 | the two children are fresh, up to date, and carry the routes draw j prescribes |
| Genetic.AppendPair | ML_LAB1.py:118 | extending the new population appends the two children of draw j after the unchanged earlier members |
| Genetic.Refill | ML_LAB1.py:99-118 | the survivors stay as the prefix; after them come the children in draw order; the loop ends at the refill size; every member is up to date |
| Genetic.GenerationStep | ML_LAB1.py:96-126 | the new population has size or size + 1 members, begins with the lowest-fitness half of the old one in ascending order, continues with the children in draw order, and every member is up to date; avg is the mean and best the least fitness of the new population; best <= avg; and best is at most every fitness of the old population |
| Genetic.Breed | ML_LAB1.py:96-118 | the new population is the kept lowest-fitness prefix followed by the children, and its first member is no worse than any old individual |
| Genetic.SelectSurvivors | ML_LAB1.py:96-97 | the survivors are population_size // 2 (or all) individuals of the population, in ascending fitness, none worse than any individual left behind |
| Genetic.LowestKeptBoundsAll | ML_LAB1.py:96-97 | the first survivor's fitness is at most that of every individual of the old population |
| Genetic.InitialPopulation | ML_LAB1.py:94 | the first population has one up-to-date individual per drawn route, in order, and its fitness values are the costs of those routes |
| Genetic.Fittest | ML_LAB1.py:128 | the chosen individual has the least fitness, and every individual before it is strictly worse |
| Genetic.Advance | ML_LAB1.py:95-126 | one generation on a full population: the refill size, up-to-date members, the new fitness values, avg their mean and best their least value, best <= avg, and best at most every old fitness |
| Genetic.Means | ML_LAB1.py:122-125 | the definition of `fitness_results_avg[mutation_method]`: one mean per recorded generation, in order |
| Genetic.Leasts | ML_LAB1.py:123-126 | the definition of `fitness_results_max[mutation_method]`: one least fitness per recorded generation, in order |
| Genetic.SeriesAt | ML_LAB1.py:122-126 | entry g of the avg series is generation g's mean and entry g of the best series its least fitness |
| Genetic.SeriesExtend | ML_LAB1.py:125-126 | recording one more generation appends its mean and its least fitness to the two series |
| Genetic.BestsAtMostMeans | ML_LAB1.py:122-126 | in every recorded generation the best entry is at most the avg entry |
| Genetic.DescendsNonIncreasing | ML_LAB1.py:95-126 | when each generation's least fitness is at most every fitness of the generation before, the best series never increases |
| Genetic.DescendsFrom | ML_LAB1.py:95-126 | in such a history a later generation's least fitness is at most an earlier one's |
| Genetic.DescendsOnce | ML_LAB1.py:95-126 | in such a history each generation's least fitness is at most the previous generation's |
| Genetic.DescendsExtend | ML_LAB1.py:95-126 | a new generation whose least fitness is at most every fitness of the last one keeps the history descending |
| Genetic.RecordNext | ML_LAB1.py:95-126 | recording such a generation keeps the history descending and appends its mean and least fitness to the two series |
| Genetic.Generations | ML_LAB1.py:95-126 | one history entry per generation; the avg series is the means and the best series the least values of those entries; each generation's least fitness is at most every fitness of the one before, the initial population for the first; the last entry is the fitness list of the final population, whose members are up to date |
| Genetic.Evolve | ML_LAB1.py:93-128 | for one mutation method: the initial fitness values are the costs of the drawn routes; the two series are the means and least values of the per-generation fitness lists, with best <= avg and a non-increasing best series; the returned individual is the first of least fitness in the final population, with the last recorded best fitness |
| Genetic.KeptStayValid | ML_LAB1.py:97 | individuals drawn from an up-to-date population are up to date |
| Genetic.AllValidJoin | ML_LAB1.py:118-120 | up-to-date survivors followed by up-to-date children form an up-to-date population |
| Genetic.SurvivorsAreLowest | ML_LAB1.py:96-97 | the first h of the sorted population are ascending, come from the population, and none is worse than any individual left behind |

## Left out

- Instance generation with `np.random.seed`, `randint` and `rand` (lines 15-20): the tables are a parameter, `Instance`.
- The random number generator: every draw is a parameter constrained to its range.
- The parent draw `random.sample(new_population[:20], 2)` (line 100): its values are never used. Only its precondition is kept, that there are at least two survivors.
- `p_crossover` (line 9): it is never used.
- All `print` output and the matplotlib plots: these are I/O.
- Floating point: costs, the mean and the coin are exact reals. Rounding of float sums and of `np.mean` is not modelled.
- numpy's negative indexing: routes hold natural numbers, and the source never produces a negative city index.
- IndexError: a route longer than the factory list or a city index of k or more makes the source raise. The model excludes such inputs by preconditions (`Fits`, `DrawFits`).
- ValueError: three draws raise on a route or population too short for them. These are `random.sample(range(len(route)), 2)` on a route shorter than 2 (line 67), `randint(0, -1)` on an empty route (lines 73 and 79), and `random.sample(new_population[:20], 2)` with fewer than 2 survivors (line 100). The model excludes the first two by `DrawFits`. `PairDrawFits` demands it only when the coin is below the mutation probability, because the source draws those values only then. The third is excluded by the precondition of `GenerationStep` that at least 2 individuals survive.
- Genetic.SortByFitness: the contract states the same individuals in ascending fitness. It does not state that equal fitness values keep their earlier order, as Python's stable sort does.
- Genetic.Evolve: it models one pass of the `for mutation_method` loop. The three passes share nothing, and collecting their series in the two dictionaries (lines 90-91, 125-126) is not modelled.
- Genetic.Evolve: its series are taken over the ghost list `history` from `Genetic.Generations`. Every entry but the last is tied to the population of its generation only through its least value, so the contract does not state the length or the other values of those entries.
- Genetic.Generations: the populations of the intermediate generations are not returned. Their fitness values are, as the ghost list `history`, and the generation count is the number of draw lists given. Beyond the last population, each entry is tied to the one before only through its least fitness. Per generation, `Genetic.GenerationStep` states the whole new population.
- ML_LAB2.py and the fuzzy-control scripts are not part of this model. They evaluate float membership curves, read console input and plot.
