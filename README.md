# A verified model of GeneticAlgorithmLibrary

This project models, in Dafny, the Java package `GeneticAlgorithmLibrary`: a small
genetic-algorithm framework with fixed-length chromosomes, populations, and pluggable
selection, crossover, mutation and replacement strategies. Two engines, `GAEngine` and
`GeneticAlgorithm`, drive the generational loop and keep the best individual found.

The model is imperative where the library is. It has:

- **Chromosomes** (`chromosome.dfy`): the three chromosome classes are one `Chromosome`
  class whose constant `kind` holds the class and its bounds. The genes live in a real
  `array` (`bool`, a 32-bit `int32` newtype, or `real` for Java's `double`).
- **Populations** (`population.dfy`): `Population` keeps its list as a `seq` field that
  its methods reassign.
- **Selection, crossover, mutation and replacement** (`selection.dfy`,
  `crossover.dfy`, `mutation.dfy`, `replacement.dfy`): each strategy is a method.
  - Its loops carry invariants.
  - It is proved against a pure specification function of the old gene contents and
    the random draws.
  - Lemmas state the library's promises about that function: bounds, length,
    permutation of the parents' genes, counts, sortedness and permutation.
- **Engines** (`engines.dfy`, `genetic_algorithm.dfy`): the two engines are classes
  with the same fields as the Java ones. Their `Run` methods are proved to keep a
  record of every evaluated generation.
  - The record starts with the fitness values of the initial population. Those
    individuals hold the genomes the random draws give them (`InitialGenomes`).
  - Each loop pass adds the fitness values of the generation it evaluated.
  - **GAEngine**: each pass also records the fitness of the best clone. The best
    returned has the largest fitness over all generations, and the recorded best
    never decreases.
  - **GeneticAlgorithm**: each pass also records two fitness values: the one the kept
    alias has when it is compared, which crossover and mutation may have changed, and
    the one of the best kept. The best returned is at least as fit as every member of
    the final population.

Randomness is an oracle. Each `RandomSource.Random` object reads from an arbitrary
stream `source: nat -> real` and counts how many values it has used. Every Java source
of randomness is a method on it, and its contract gives the draw's range. The
randomness sources are:

- `Math.random()`;
- `java.util.Random.nextInt`, `nextInt()`, `nextDouble` and `nextBoolean`;
- the chromosome base class's `nextRandom`.

The strategy contracts name exactly which draws they use. This makes the results
deterministic functions of the stream, which the lemmas then speak about. Java
exceptions become `Result`/`Outcome` values (`outcomes.dfy`); each `Exception`
constructor is named after the condition that throws it.

## Model

| member | source | states |
|---|---|---|
| RandomSource.Random.NextDouble | GeneticAlgorithmLibrary/Crossover/SinglePointCrossover.java:17 | `Math.random()` / `nextDouble()` yields a value in [0, 1): the next stream value, folded into that range; it uses one draw |
| RandomSource.Random.NextInt | GeneticAlgorithmLibrary/Selection/TournamentSelection.java:32 | `nextInt(bound)` for a positive bound yields a value in [0, bound) and uses one draw |
| RandomSource.Random.NextInt32 | GeneticAlgorithmLibrary/GAEngine.java:66 | `nextInt()` yields a 32-bit signed integer and uses one draw |
| RandomSource.Random.NextBoolean | GeneticAlgorithmLibrary/Crossover/UniformCrossover.java:43 | `nextBoolean()` is the next draw tested against one half; it uses one draw |
| RandomSource.Random.NextRandom | GeneticAlgorithmLibrary/Chromosome/IntegerChromosome.java:52 | `nextRandom(seed, bound)` yields a value in [0, bound) and uses one draw |
| RandomSource.IndexDrawReaches | GeneticAlgorithmLibrary/Selection/TournamentSelection.java:32 | every index below n is the outcome of some draw, so the oracle excludes no index `nextInt(n)` can return |
| RandomSource.ScaleToIndex | GeneticAlgorithmLibrary/Selection/RandomSelection.java:31 | `(int) (u * n)` for u in [0, 1) is an index in [0, n) |
| RandomSource.ScaleToIndexIsCast | GeneticAlgorithmLibrary/Crossover/SinglePointCrossover.java:27 | that index is the truncation (floor) of u * n, which is Java's cast of a non-negative double |
| RandomSource.FloorFromIsFloor | GeneticAlgorithmLibrary/Crossover/TwoPointCrossover.java:24-25 | the counting search used for the cast returns the integer part of its argument |
| Chromosomes.Wrap | GeneticAlgorithmLibrary/Mutation/IntegerNeighborMutation.java:26 | Java `int` addition: equal to the mathematical sum when that fits in 32 bits, and always congruent to it modulo 2^32 |
| Chromosomes.NewIntegerChromosome | GeneticAlgorithmLibrary/Chromosome/IntegerChromosome.java:9-22 | throws exactly when minValue > maxValue (InvalidBounds) or when the length is negative; otherwise gives a fresh valid chromosome of that class and length, every gene minValue, fitness 0, and the given seed |
| Chromosomes.NewFloatChromosome | GeneticAlgorithmLibrary/Chromosome/FloatChromosome.java:11-24 | throws exactly when minValue >= maxValue (InvalidBounds) or when the length is negative; otherwise every gene is minValue |
| Chromosomes.NewBinaryChromosome | GeneticAlgorithmLibrary/Chromosome/BinaryChromosome.java:7-15 | throws only for a negative length; otherwise `length` genes, all false |
| Chromosomes.Chromosome.IntegerChromosome | GeneticAlgorithmLibrary/Chromosome/IntegerChromosome.java:16-21 | the constructor past its bound check: a fresh gene array of `length` genes, each minValue |
| Chromosomes.Chromosome.FloatChromosome | GeneticAlgorithmLibrary/Chromosome/FloatChromosome.java:21-23 | the constructor past its bound check: every gene minValue |
| Chromosomes.Chromosome.BinaryChromosome | GeneticAlgorithmLibrary/Chromosome/BinaryChromosome.java:7-15 | the constructor: every gene false |
| Chromosomes.FillArray | GeneticAlgorithmLibrary/Chromosome/IntegerChromosome.java:19-21 | the constructor's fill loop leaves every element equal to the fill value |
| Chromosomes.Chromosome.SetGenes | GeneticAlgorithmLibrary/Chromosome/IntegerChromosome.java:30-44 | for each of the three classes (here `int[]`; `boolean[]` and `double[]` alike): null gives NullGenes; an array of another element type gives WrongGeneType; a length mismatch gives LengthMismatch; it succeeds if and only if none of these applies; on success the genes are a copy in a fresh array, not the caller's; on failure nothing changes |
| Chromosomes.CopyArray | GeneticAlgorithmLibrary/Chromosome/IntegerChromosome.java:39-40 | `copyArray(src, dst, n)`: the first n elements of dst equal those of src; the rest are untouched |
| Chromosomes.Chromosome.Initialize | GeneticAlgorithmLibrary/Chromosome/IntegerChromosome.java:47-55 | the chromosome stays valid, keeps its length and every gene lies within its bounds, using one draw per gene; integer genes are `minValue + nextRandom(seed, range)`; binary genes are `seed == 1` after each seed update, the seed ending as the last draw in [0, 2); float genes are `min + rnd / 1000 * (max - min)`, each in [min, max) |
| Chromosomes.DrawInts | GeneticAlgorithmLibrary/Chromosome/IntegerChromosome.java:50-54 | the integer initialize loop writes exactly the specified draws and uses one draw per gene |
| Chromosomes.DrawBits | GeneticAlgorithmLibrary/Chromosome/BinaryChromosome.java:42-45 | the binary initialize loop writes exactly the specified bits, and the seed ends as the last draw |
| Chromosomes.DrawReals | GeneticAlgorithmLibrary/Chromosome/FloatChromosome.java:52-57 | the float initialize loop writes exactly the specified values |
| Chromosomes.IntDrawsInBounds | GeneticAlgorithmLibrary/Chromosome/IntegerChromosome.java:49-53 | given `nextRandom` returns a value in [0, max - min + 1), every initialized gene lies in [min, max] |
| Chromosomes.RealDrawsInBounds | GeneticAlgorithmLibrary/Chromosome/FloatChromosome.java:54-56 | with rnd in [0, 999], every initialized gene lies in [min, max) |
| Chromosomes.Chromosome.Clone | GeneticAlgorithmLibrary/Chromosome/IntegerChromosome.java:57-63 | for each of the three classes: a fresh chromosome with a fresh gene array; same class, bounds, length, genes, fitness and seed |
| Populations.Population.constructor | GeneticAlgorithmLibrary/Population.java:14-17 | a new population stores its capacity and starts empty |
| Populations.Population.Add | GeneticAlgorithmLibrary/Population.java:20-22 | appends exactly one element at the end; the others are unchanged |
| Populations.Population.SetIndividuals | GeneticAlgorithmLibrary/Population.java:29-31 | the list becomes the given one |
| Populations.Population.Replace | GeneticAlgorithmLibrary/Population.java:68-71 | after clearing and adding them all, the list equals newIndividuals in order |
| Populations.Population.GetSize | GeneticAlgorithmLibrary/Population.java:63-65 | the number of stored individuals |
| Populations.Population.GetBestIndividual | GeneticAlgorithmLibrary/Population.java:34-46 | null if and only if the population is empty; otherwise the first individual of maximal fitness: none is fitter, and every earlier one is strictly less fit |
| Populations.Population.GetWorstIndividual | GeneticAlgorithmLibrary/Population.java:49-61 | null if and only if the population is empty; otherwise the first individual of minimal fitness |
| Selections.RandomSelection.constructor | GeneticAlgorithmLibrary/Selection/RandomSelection.java:14-16 | stores the parent count |
| Selections.RandomSelection.Select | GeneticAlgorithmLibrary/Selection/RandomSelection.java:26-36 | exactly numParents entries; entry i is the population member at the i-th `(int) (Math.random() * size)` index, by reference; on an empty population with a positive count, the first `get(0)` throws IndexOutOfBounds |
| Selections.RandomSelection.SelectN | GeneticAlgorithmLibrary/Selection/RandomSelection.java:19-22 | `select(pop, n)` overwrites the stored count with n, then selects n entries as above |
| Selections.CastIndices | GeneticAlgorithmLibrary/Selection/RandomSelection.java:30-33 | n indices, each the cast of its draw, each in [0, size) |
| Selections.DrawnIndices | GeneticAlgorithmLibrary/Selection/TournamentSelection.java:31-33 | n `nextInt(size)` indices, each in [0, size) |
| Selections.DrawnIndexAt | GeneticAlgorithmLibrary/Selection/TournamentSelection.java:32 | index i is the draw at stream position from + i |
| Selections.NewTournamentSelection | GeneticAlgorithmLibrary/Selection/TournamentSelection.java:17-21 | a tournament size below 2 is rejected; any other is kept |
| Selections.Winner | GeneticAlgorithmLibrary/Selection/TournamentSelection.java:30-36 | the scan's winner is one of the sampled candidates |
| Selections.WinnerIsFirstBest | GeneticAlgorithmLibrary/Selection/TournamentSelection.java:33-35 | no sampled candidate is fitter than the winner, and every candidate sampled before it is strictly less fit (ties keep the first) |
| Selections.TournamentPickIsFirstBest | GeneticAlgorithmLibrary/Selection/TournamentSelection.java:30-36 | the tournament's pick is the first fittest of the t population indices it drew |
| Selections.TournamentPicks | GeneticAlgorithmLibrary/Selection/TournamentSelection.java:29-39 | n tournaments give n winners, each a population index |
| Selections.RunTournament | GeneticAlgorithmLibrary/Selection/TournamentSelection.java:30-36 | one tournament's loop uses t draws and keeps the specified winner |
| Selections.TournamentWinners | GeneticAlgorithmLibrary/Selection/TournamentSelection.java:29-39 | the outer loop gives numParents winners, the i-th that of tournament i |
| Selections.CloneEach | GeneticAlgorithmLibrary/Selection/TournamentSelection.java:38 | each result is a fresh clone, with its own gene array, of the chromosome at the same position |
| Selections.TournamentSelect | GeneticAlgorithmLibrary/Selection/TournamentSelection.java:25-40 | exactly numParents results, each a fresh clone and not an alias of a tournament winner; with a positive count an empty population throws at `nextInt(0)` |
| Selections.Select | GeneticAlgorithmLibrary/Selection/TournamentSelection.java:44-46 | `select(population)`: the tournament and roulette strategies (RouletteWheelSelection.java:46-48 alike) return 2 parents (roulette at most 2, exactly 2 when no fitness is negative), the random strategy its stored count; only an empty population fails, for the random strategy only with a positive count; parents keep the population's class and length; tournament and roulette parents are fresh, separate clones; random parents are population members |
| Selections.SumFitness | GeneticAlgorithmLibrary/Selection/RouletteWheelSelection.java:18-21 | the accumulation loop computes the total fitness |
| Selections.PrefixFitnessNonNegative | GeneticAlgorithmLibrary/Selection/RouletteWheelSelection.java:35-36 | with no negative fitness, every running sum is non-negative |
| Selections.SpinFrom | GeneticAlgorithmLibrary/Selection/RouletteWheelSelection.java:33-40 | the pick is the first index whose running sum reaches the point; there is none only when no running sum reaches it |
| Selections.SpinLands | GeneticAlgorithmLibrary/Selection/RouletteWheelSelection.java:31-41 | a point no greater than the total of a non-empty population always lands on someone |
| Selections.Spin | GeneticAlgorithmLibrary/Selection/RouletteWheelSelection.java:33-40 | the running-sum loop stops at exactly the specified pick |
| Selections.RoulettePicks | GeneticAlgorithmLibrary/Selection/RouletteWheelSelection.java:31-42 | at most n picks, each a population index |
| Selections.RoulettePicksComplete | GeneticAlgorithmLibrary/Selection/RouletteWheelSelection.java:31-42 | with a positive total every spin lands, so there are exactly n picks |
| Selections.UniformPicks | GeneticAlgorithmLibrary/Selection/RouletteWheelSelection.java:24-29 | the zero-total branch picks the members at numParents `nextInt(size)` indices, with no division |
| Selections.SpinPicks | GeneticAlgorithmLibrary/Selection/RouletteWheelSelection.java:31-41 | the spinning branch keeps exactly the specified picks, in order |
| Selections.RouletteSelect | GeneticAlgorithmLibrary/Selection/RouletteWheelSelection.java:14-43 | with total 0, exactly numParents clones at uniformly drawn indices, and an empty population throws; otherwise one clone per landed spin of the first individual whose running sum reaches the point; at most numParents results, exactly numParents when no fitness is negative; all are fresh, separate clones |
| Crossovers.MixExchanges | GeneticAlgorithmLibrary/Crossover/UniformCrossover.java:41-51 | at every index the two children together hold the two parents' genes, {c1[i], c2[i]} = {p1[i], p2[i]}, kept or swapped |
| Crossovers.MixKeepsGenes | GeneticAlgorithmLibrary/Crossover/TwoPointCrossover.java:31-49 | the two children are a permutation of the parents' genes: the multiset union is preserved |
| Crossovers.MixUndo | GeneticAlgorithmLibrary/Crossover/TwoPointCrossover.java:31-49 | crossing the children again with the same mask gives back the first parent |
| Crossovers.MixOfSame | GeneticAlgorithmLibrary/Crossover/SinglePointCrossover.java:35-43 | crossing a parent with itself changes nothing |
| Crossovers.CutShape | GeneticAlgorithmLibrary/Crossover/SinglePointCrossover.java:35-43 | the single-point child is a[0, p) ++ b[p, len) |
| Crossovers.SegmentShape | GeneticAlgorithmLibrary/Crossover/TwoPointCrossover.java:31-49 | the two-point child is a outside [lo, hi) and b inside it |
| Crossovers.Cross | GeneticAlgorithmLibrary/Crossover/UniformCrossover.java:41-51 | crossing two gene lists of one encoding and length gives one of that encoding and length |
| Crossovers.CrossAt | GeneticAlgorithmLibrary/Crossover/UniformCrossover.java:43-49 | gene i of a child comes from the second parent when the mask is set at i, and from the first otherwise |
| Crossovers.CrossUndo | GeneticAlgorithmLibrary/Crossover/TwoPointCrossover.java:31-49 | crossing is undone by crossing again with the same mask |
| Crossovers.SpliceInts | GeneticAlgorithmLibrary/Crossover/SinglePointCrossover.java:33-43 | the child loop fills two fresh arrays with a[0, p) ++ b[p, len) and b[0, p) ++ a[p, len) |
| Crossovers.SplicePair | GeneticAlgorithmLibrary/Crossover/SinglePointCrossover.java:26-47 | for `int[]` genes the parents receive the child genes in fresh arrays, with p the cast of one draw in [0, len); other encodings pass through unchanged |
| Crossovers.ClonePair | GeneticAlgorithmLibrary/Crossover/SinglePointCrossover.java:49-50 | the offspring are fresh, separate clones of the first two parents |
| Crossovers.SinglePointCrossover | GeneticAlgorithmLibrary/Crossover/SinglePointCrossover.java:10-52 | fewer than 2 parents give no offspring and use no draw; otherwise the first draw against the rate selects crossover, only the first two parents are used, they are spliced as in SplicePair or left alone, and exactly 2 offspring result, fresh clones of the parents as they end |
| Crossovers.CutPoints | GeneticAlgorithmLibrary/Crossover/TwoPointCrossover.java:23-26 | the cut points are the two casts, ordered, with 0 <= pA <= pB < len |
| Crossovers.SwapSegment | GeneticAlgorithmLibrary/Crossover/TwoPointCrossover.java:31-49 | the swap loop exchanges exactly the elements at indices in [lo, hi) |
| Crossovers.SwapGenes | GeneticAlgorithmLibrary/Crossover/TwoPointCrossover.java:29-50 | the pair's gene arrays are crossed in place over [lo, hi), whatever the encoding |
| Crossovers.DrawCutPoints | GeneticAlgorithmLibrary/Crossover/TwoPointCrossover.java:24-26 | two draws give the specified cut points |
| Crossovers.CloneWithOwnGenes | GeneticAlgorithmLibrary/Crossover/TwoPointCrossover.java:51-56 | clone then `setGenes(getGenes())`: a fresh clone with a fresh gene array |
| Crossovers.SwapAndClone | GeneticAlgorithmLibrary/Crossover/TwoPointCrossover.java:31-56 | swaps the segment in the parents, then takes fresh separate clones |
| Crossovers.TwoPointPair | GeneticAlgorithmLibrary/Crossover/TwoPointCrossover.java:17-56 | one draw against the rate, then for a crossover two draws: the parents' genes are exchanged on [pA, pB) and are unchanged elsewhere, or without a crossover are unchanged; the offspring are fresh clones of the pair |
| Crossovers.Partner | GeneticAlgorithmLibrary/Crossover/TwoPointCrossover.java:15 | parent i is paired with (i + 1) mod n, so an odd last parent pairs with the first |
| Crossovers.TwoPointStep | GeneticAlgorithmLibrary/Crossover/TwoPointCrossover.java:13-57 | one pass of the pair loop appends two fresh offspring of the parents' class and length |
| Crossovers.TwoPointCrossover | GeneticAlgorithmLibrary/Crossover/TwoPointCrossover.java:10-60 | 2 * ceil(n / 2) offspring, all fresh and separate, of the parents' class and length |
| Crossovers.MixInto | GeneticAlgorithmLibrary/Crossover/UniformCrossover.java:41-51 | the coin loop gives child1 and child2 the parents' genes, swapped where the coin says so, one draw per gene |
| Crossovers.UniformPair | GeneticAlgorithmLibrary/Crossover/UniformCrossover.java:35-57 | two fresh children, starting as copies so the parents are not modified, whose genes are the coin-mask cross of the parents |
| Crossovers.UniformStep | GeneticAlgorithmLibrary/Crossover/UniformCrossover.java:20-29 | a pair below the rate crosses as in UniformPair, using 1 + len draws; otherwise the children are plain clones, using one draw |
| Crossovers.UniformStartCount | GeneticAlgorithmLibrary/Crossover/UniformCrossover.java:18-30 | at rate 0 each pair uses one draw; at a rate of 1 or more each uses 1 + len draws |
| Crossovers.UniformPairExchange | GeneticAlgorithmLibrary/Crossover/UniformCrossover.java:41-51 | at every index the pair's children hold the pair's two genes |
| Crossovers.UniformWithoutCrossover | GeneticAlgorithmLibrary/Crossover/UniformCrossover.java:22-29 | at rate 0 the offspring are copies of the parents |
| Crossovers.UniformAlwaysCrosses | GeneticAlgorithmLibrary/Crossover/UniformCrossover.java:22-24 | at a rate of 1 or more every pair is crossed with its coin mask |
| Crossovers.UniformAppend | GeneticAlgorithmLibrary/Crossover/UniformCrossover.java:18-30 | one pass of the pair loop appends the pair's two children as specified |
| Crossovers.UniformCrossover | GeneticAlgorithmLibrary/Crossover/UniformCrossover.java:15-33 | pairs (i, i + 1) for even i < n - 1, so an odd last parent is dropped: 2 * floor(n / 2) fresh offspring, pair q's children as specified from the draws |
| Crossovers.Crossover | GeneticAlgorithmLibrary/Crossover/CrossoverMethod.java:10 | `crossover(parents, rate)` of each strategy: its offspring count; fresh, separate offspring of the parents' class and length; parents keep their class and length, and any gene array of theirs that changed is a new one |
| Mutations.FlipEachGene | GeneticAlgorithmLibrary/Mutation/BitFlipMutation.java:17-21 | each gene is unchanged or negated, and it is negated exactly where the mask is set |
| Mutations.FlipTwice | GeneticAlgorithmLibrary/Mutation/BitFlipMutation.java:17-21 | flipping twice with the same mask restores the genes |
| Mutations.FlipRates | GeneticAlgorithmLibrary/Mutation/BitFlipMutation.java:18-19 | rate 0 changes nothing and a rate of 1 or more flips every gene |
| Mutations.FlipBits | GeneticAlgorithmLibrary/Mutation/BitFlipMutation.java:16-22 | the in-place loop flips exactly the genes whose draw is below the rate, one draw per gene, keeping the length |
| Mutations.GeneDrawCount | GeneticAlgorithmLibrary/Mutation/IntegerNeighborMutation.java:23-28 | one draw per gene plus one per hit: between n and 2n, exactly n at rate 0 and 2n at a rate of 1 or more |
| Mutations.Change | GeneticAlgorithmLibrary/Mutation/IntegerNeighborMutation.java:25 | the change is -1 or +1 |
| Mutations.NeighborGene | GeneticAlgorithmLibrary/Mutation/IntegerNeighborMutation.java:25-26 | the corrected step: the gene moved by the change and clamped, always within [min, max] |
| Mutations.NeighborGeneAsWritten | GeneticAlgorithmLibrary/Mutation/IntegerNeighborMutation.java:26 | the step as written, clamping the wrapped 32-bit sum: still within [min, max] |
| Mutations.NeighborAsWrittenAgrees | GeneticAlgorithmLibrary/Mutation/IntegerNeighborMutation.java:26 | the two steps agree whenever the sum does not overflow |
| Mutations.NeighborOverflow | GeneticAlgorithmLibrary/Mutation/IntegerNeighborMutation.java:26 | a gene at Integer.MAX_VALUE with max = MAX_VALUE and change +1 jumps to min (0) as written, but stays at MAX_VALUE when corrected |
| Mutations.NeighborMoves | GeneticAlgorithmLibrary/Mutation/IntegerNeighborMutation.java:23-28 | every mutated gene is within [min, max] and differs from the old by at most 1; a gene whose draw misses the rate is unchanged |
| Mutations.NeighborAtRateZero | GeneticAlgorithmLibrary/Mutation/IntegerNeighborMutation.java:23-30 | rate 0 leaves the genes unchanged |
| Mutations.NeighborMatchesWritten | GeneticAlgorithmLibrary/Mutation/IntegerNeighborMutation.java:23-28 | on every gene strictly inside the 32-bit range the corrected mutation takes Java's step as written |
| Mutations.NeighborInts | GeneticAlgorithmLibrary/Mutation/IntegerNeighborMutation.java:23-28 | the in-place loop computes the specified genes with the specified draws |
| Mutations.StepBound | GeneticAlgorithmLibrary/Mutation/FloatUniformMutation.java:31-35 | the step `(u * 2 - 1) * maxStep` has magnitude at most maxStep = (max - min) * noiseScale |
| Mutations.DefaultStepBound | GeneticAlgorithmLibrary/Mutation/FloatUniformMutation.java:13-15 | with the default noiseScale 0.05 the step is at most (max - min) / 20 |
| Mutations.UniformMoves | GeneticAlgorithmLibrary/Mutation/FloatUniformMutation.java:33-38 | every mutated gene is clamped into [min, max] and moves by at most maxStep; a gene whose draw misses the rate is unchanged |
| Mutations.UniformAtRateZero | GeneticAlgorithmLibrary/Mutation/FloatUniformMutation.java:33-38 | rate 0 leaves the genes unchanged |
| Mutations.UniformReals | GeneticAlgorithmLibrary/Mutation/FloatUniformMutation.java:33-38 | the in-place loop computes the specified genes with the specified draws |
| Mutations.Mutated | GeneticAlgorithmLibrary/Mutation/BitFlipMutation.java:13-14 | a strategy keeps the encoding and length, and leaves chromosomes of another class untouched |
| Mutations.MutatedInBounds | GeneticAlgorithmLibrary/Mutation/FloatUniformMutation.java:33-40 | genes within their bounds stay within them under every strategy |
| Mutations.MutatedAtRateZero | GeneticAlgorithmLibrary/Mutation/IntegerNeighborMutation.java:23-30 | rate 0 changes no gene, and uses one draw per gene of a chromosome the strategy applies to |
| Mutations.MutateChromosome | GeneticAlgorithmLibrary/Mutation/IntegerNeighborMutation.java:12-32 | one chromosome's genes become the specified mutation; a chromosome of another class keeps its array; fitness and seed are unchanged |
| Mutations.Mutate | GeneticAlgorithmLibrary/Mutation/MutationMethod.java:16 | `mutate(list, rate)`: each chromosome's genes become the mutation of its old genes from its own draws, in list order; class, length, fitness and seed are kept |
| Replacements.InsertPermutes | GeneticAlgorithmLibrary/Replacement/ElitistReplacement.java:26 | inserting one element adds exactly that element |
| Replacements.InsertOrdered | GeneticAlgorithmLibrary/Replacement/ElitistReplacement.java:26 | insertion keeps a list ordered |
| Replacements.SortOrders | GeneticAlgorithmLibrary/Replacement/ElitistReplacement.java:26 | the sort orders by key |
| Replacements.SortPermutes | GeneticAlgorithmLibrary/Replacement/ElitistReplacement.java:26 | the sort is a permutation |
| Replacements.InsertWithKey | GeneticAlgorithmLibrary/Replacement/ElitistReplacement.java:26 | inserting x keeps the order of the elements of each key, with x first among those of its key |
| Replacements.SortStable | GeneticAlgorithmLibrary/Replacement/ElitistReplacement.java:26 | the sort is stable: the elements of each key keep their relative order |
| Replacements.SortByFitnessStable | GeneticAlgorithmLibrary/Replacement/SteadyStateReplacement.java:26 | `List.sort` by fitness, ascending or reversed, keeps chromosomes of equal fitness in their old order |
| Replacements.SortByFitnessSorts | GeneticAlgorithmLibrary/Replacement/SteadyStateReplacement.java:26 | sorting by fitness, ascending or reversed, is a permutation of the list, ordered accordingly |
| Replacements.SortPopulation | GeneticAlgorithmLibrary/Replacement/ElitistReplacement.java:26 | the population's own list is sorted in place |
| Replacements.EliteCount | GeneticAlgorithmLibrary/Replacement/ElitistReplacement.java:27-29 | the number of elites kept is min(numElites, old size) and never more than the old size |
| Replacements.Survivors | GeneticAlgorithmLibrary/Replacement/ElitistReplacement.java:27-34 | the first EliteCount entries are the top of the sorted old list, and the rest are offspring in order up to the old size |
| Replacements.ElitistNext | GeneticAlgorithmLibrary/Replacement/ElitistReplacement.java:27-34 | the two loops give a fresh clone of each survivor, in order |
| Replacements.InstallClones | GeneticAlgorithmLibrary/Replacement/ElitistReplacement.java:36 | `setIndividuals(nextGen)` installs the clones |
| Replacements.ElitistReplace | GeneticAlgorithmLibrary/Replacement/ElitistReplacement.java:20-38 | returns oldPopulation holding fresh clones of the survivors of its descending sort |
| Replacements.ElitesAreBest | GeneticAlgorithmLibrary/Replacement/ElitistReplacement.java:26-29 | no old individual left out is fitter than an elite, and the first elite is a fittest individual |
| Replacements.ElitistSize | GeneticAlgorithmLibrary/Replacement/ElitistReplacement.java:27-34 | the result has min(old size, elites + offspring) members: the old size whenever the offspring suffice |
| Replacements.Pick | GeneticAlgorithmLibrary/Replacement/SteadyStateReplacement.java:30 | the drawn offspring index lies in [0, offspring size) |
| Replacements.DrawChild | GeneticAlgorithmLibrary/Replacement/SteadyStateReplacement.java:30 | a fresh clone of the offspring at one `nextInt(size)` draw |
| Replacements.ReplaceSlot | GeneticAlgorithmLibrary/Replacement/SteadyStateReplacement.java:30-31 | one pass overwrites slot i only, with the drawn clone |
| Replacements.ReplaceWeakest | GeneticAlgorithmLibrary/Replacement/SteadyStateReplacement.java:29-32 | the first min(k, size) slots of the ascending sort become drawn clones of offspring, the others keep their old members, and `set(size, ...)` faults exactly when k exceeds the size |
| Replacements.SteadyStateReplace | GeneticAlgorithmLibrary/Replacement/SteadyStateReplacement.java:21-36 | with k = min(numToReplace, offspring), only the first k slots of the ascending sort are overwritten, each with a clone of a drawn offspring; slots at k or beyond keep their sorted old members; the size is unchanged; it throws IndexOutOfBounds exactly when k exceeds the size |
| Replacements.ReplacedAreWeakest | GeneticAlgorithmLibrary/Replacement/SteadyStateReplacement.java:26-32 | the overwritten slots held the weakest old individuals |
| Replacements.Replace | GeneticAlgorithmLibrary/Replacement/ReplacementMethod.java:8 | `replace(old, new)` returns the old population; it keeps one class and length; its members are old members or new chromosomes; elitist replacement draws nothing and steady-state keeps the size |
| Engines.InitialGenes | GeneticAlgorithmLibrary/GAEngine.java:67 | freshly initialized genes have the class's encoding and length and lie within its bounds |
| Engines.ClearSignBit | GeneticAlgorithmLibrary/GAEngine.java:66 | `x & 0x7fffffff` is in [0, 2^31); it is congruent to x modulo 2^31 and equal to x when x is non-negative |
| Engines.StartIsLinear | GeneticAlgorithmLibrary/GAEngine.java:63-69 | individual i's draws start i times one individual's width into the stream |
| Engines.InitializedMeans | GeneticAlgorithmLibrary/GAEngine.java:61-70 | an initialized population is all of the prototype's class and length, with separate gene arrays; individual i is made from its own draws |
| Engines.InitialGenome | GeneticAlgorithmLibrary/GAEngine.java:64-67 | the genome individual j gets from its own draws has the class's encoding and length and lies within its bounds |
| Engines.MadeFromGenome | GeneticAlgorithmLibrary/GAEngine.java:64-67 | a chromosome one pass makes holds the prototype's class and the genes initialized from its draws, after the seed draw when seeded |
| Engines.InitializedGenomes | GeneticAlgorithmLibrary/GAEngine.java:61-70 | an initialized list holds, position by position, exactly the genomes InitialGenomes gives |
| Engines.ScoredBy | GeneticAlgorithmLibrary/GAEngine.java:73-77 | the fitness values of a list scored while it holds the genomes gs are the scores of gs, in order |
| Engines.NewIndividual | GeneticAlgorithmLibrary/GAEngine.java:64-67 | clone, `setSeed(nextInt() & 0x7fffffff)`, `initialize()`: a fresh individual within bounds, using length + 1 draws |
| Engines.InitialPopulation | GeneticAlgorithmLibrary/GAEngine.java:61-70 | exactly populationSize fresh individuals, each an initialized clone of the prototype |
| Engines.AppendIndividual | GeneticAlgorithmLibrary/GAEngine.java:68 | `population.add(individual)` extends the initialized list |
| Engines.EvaluatePopulation | GeneticAlgorithmLibrary/GAEngine.java:73-77 | every individual's fitness becomes the fitness function's score of its genes |
| Engines.TracksBestAt | GeneticAlgorithmLibrary/GAEngine.java:129-133 | the best recorded after generation g is the largest fitness over generations 0..g, and some individual had it |
| Engines.BestSoFarNeverDecreases | GeneticAlgorithmLibrary/GAEngine.java:129-133 | the best-so-far fitness never decreases from one generation to the next |
| Engines.FirstBestSoFar | GeneticAlgorithmLibrary/GAEngine.java:105 | the clone of the initial best starts the record |
| Engines.NextBestSoFar | GeneticAlgorithmLibrary/GAEngine.java:130-133 | replacing best only on strictly greater fitness extends the record by one generation |
| Engines.Breed | GeneticAlgorithmLibrary/GAEngine.java:111-117 | select, cross and mutate: fresh, separate offspring of the population's class and length; the population keeps its class and length |
| Engines.Offspring | GeneticAlgorithmLibrary/GAEngine.java:114-117 | crossover then mutation keep offspring and parents of one class and length |
| Engines.GAEngine.constructor | GeneticAlgorithmLibrary/GAEngine.java:32-41 | stores the parameters; no strategy is set and there is no population |
| Engines.GAEngine.SetSelectionMethod | GeneticAlgorithmLibrary/GAEngine.java:44-46 | stores the strategy |
| Engines.GAEngine.SetCrossoverMethod | GeneticAlgorithmLibrary/GAEngine.java:48-50 | stores the strategy |
| Engines.GAEngine.SetMutationMethod | GeneticAlgorithmLibrary/GAEngine.java:52-54 | stores the strategy |
| Engines.GAEngine.SetReplacementMethod | GeneticAlgorithmLibrary/GAEngine.java:56-58 | stores the strategy |
| Engines.GAEngine.InitializePopulation | GeneticAlgorithmLibrary/GAEngine.java:61-70 | a fresh population of capacity populationSize holding exactly populationSize initialized clones of the prototype, each seeded from its own draw |
| Engines.GAEngine.BuildPopulation | GeneticAlgorithmLibrary/GAEngine.java:80-86 | a fresh population holding the offspring in order and number |
| Engines.GAEngine.TrackBest | GeneticAlgorithmLibrary/GAEngine.java:130-133 | an empty population throws NullPointer; otherwise the current best is the first fittest, and best becomes a fresh clone of it exactly when it is strictly fitter, staying as it was otherwise |
| Engines.GAEngine.Reproduce | GeneticAlgorithmLibrary/GAEngine.java:111-121 | select, cross, mutate and build: a fresh offspring population of the class and length |
| Engines.GAEngine.ReplaceAndEvaluate | GeneticAlgorithmLibrary/GAEngine.java:124-127 | replacement then evaluation: members are old ones or fresh chromosomes, all scored |
| Engines.GAEngine.Generation | GeneticAlgorithmLibrary/GAEngine.java:110-127 | one generation keeps its population object and class and length, scores every member, and leaves best's fitness as it was |
| Engines.GAEngine.Populate | GeneticAlgorithmLibrary/GAEngine.java:95 | the initial population has exactly populationSize members of the prototype's class and length, member j holding InitialGenomes' genome j for the draws at entry |
| Engines.GAEngine.EvaluateInitial | GeneticAlgorithmLibrary/GAEngine.java:96 | every initial member is scored, and the fitness values are the scores of its initial genomes |
| Engines.GAEngine.Prepare | GeneticAlgorithmLibrary/GAEngine.java:95-96 | a fresh population of populationSize members of the class and length, all scored, whose fitness values are the scores of the initial genomes |
| Engines.GAEngine.TrackFirst | GeneticAlgorithmLibrary/GAEngine.java:105 | `getBestIndividual().clone()`: a fresh clone of the first fittest; NullPointer on an empty population |
| Engines.GAEngine.Begin | GeneticAlgorithmLibrary/GAEngine.java:95-105 | initialize, evaluate and clone the best: it fails exactly when populationSize <= 0; otherwise the initial fitness values are the scores of the initial genomes, and the record starts with them and the best of them, held by a fresh clone |
| Engines.GAEngine.Step | GeneticAlgorithmLibrary/GAEngine.java:110-135 | one loop pass appends the new generation's fitness values to evaluated and the returned best's fitness to bestSoFar; that best is the old one or a fresh clone strictly fitter than it, and the old best's fitness is unchanged |
| Engines.GAEngine.Evolve | GeneticAlgorithmLibrary/GAEngine.java:109-136 | the loop runs `generations` times and keeps the record, whose first entries are the population's fitness values and best's fitness at entry |
| Engines.GAEngine.Run | GeneticAlgorithmLibrary/GAEngine.java:89-139 | a missing strategy throws MissingComponent before anything changes; a non-positive population size throws NullPointer; otherwise the result is a fresh clone, the record has generations + 1 entries and starts with the scores of the initial genomes, the result's fitness is the largest over all generations, and the recorded best never decreases |
| GeneticAlgorithms.Repair | GeneticAlgorithmLibrary/InfeasibilityHandler.java:20 | `repair(child)` gives the child the handler's repaired genes, of the same shape, in a new array |
| GeneticAlgorithms.RepairAt | GeneticAlgorithmLibrary/GeneticAlgorithm.java:161-163 | repair is called only for an infeasible child; every other offspring keeps its genes |
| GeneticAlgorithms.RepairInfeasible | GeneticAlgorithmLibrary/GeneticAlgorithm.java:159-165 | each offspring's genes become the repair of its old genes if those are infeasible, and are unchanged otherwise |
| GeneticAlgorithms.Largest | GeneticAlgorithmLibrary/GeneticAlgorithm.java:174 | no fitness value exceeds the largest, and some value equals it |
| GeneticAlgorithms.NextKept | GeneticAlgorithmLibrary/GeneticAlgorithm.java:174-177 | keeping the new best only on strictly greater fitness extends the record |
| GeneticAlgorithms.LastKeptIsLargest | GeneticAlgorithmLibrary/GeneticAlgorithm.java:174-177 | the best kept is at least the largest fitness of the last generation |
| GeneticAlgorithms.FittestKept | GeneticAlgorithmLibrary/GeneticAlgorithm.java:174-184 | the returned chromosome is at least as fit as every member of the final population |
| GeneticAlgorithms.UnrescoredKeepsBestSoFar | GeneticAlgorithmLibrary/GeneticAlgorithm.java:144-177 | when the kept alias keeps the fitness it was kept with, its fitness is the best over all generations so far, which never decreases |
| GeneticAlgorithms.GeneticAlgorithm.constructor | GeneticAlgorithmLibrary/GeneticAlgorithm.java:47-63 | stores the parameters; the strategies and the handler start null |
| GeneticAlgorithms.GeneticAlgorithm.SetSelectionMethod | GeneticAlgorithmLibrary/GeneticAlgorithm.java:69-71 | stores the strategy |
| GeneticAlgorithms.GeneticAlgorithm.SetCrossoverMethod | GeneticAlgorithmLibrary/GeneticAlgorithm.java:77-79 | stores the strategy |
| GeneticAlgorithms.GeneticAlgorithm.SetMutationMethod | GeneticAlgorithmLibrary/GeneticAlgorithm.java:85-87 | stores the strategy |
| GeneticAlgorithms.GeneticAlgorithm.SetReplacementStrategy | GeneticAlgorithmLibrary/GeneticAlgorithm.java:93-95 | stores the strategy |
| GeneticAlgorithms.GeneticAlgorithm.SetInfeasibilityHandler | GeneticAlgorithmLibrary/GeneticAlgorithm.java:101-103 | stores the handler, which may be null |
| GeneticAlgorithms.GeneticAlgorithm.InitializePopulation | GeneticAlgorithmLibrary/GeneticAlgorithm.java:108-116 | exactly populationSize copies of the prototype, each randomly initialized from its own draws |
| GeneticAlgorithms.GeneticAlgorithm.Populate | GeneticAlgorithmLibrary/GeneticAlgorithm.java:141 | the initial population has exactly populationSize members of the prototype's class and length, member j holding InitialGenomes' genome j for the draws at entry |
| GeneticAlgorithms.GeneticAlgorithm.EvaluateInitial | GeneticAlgorithmLibrary/GeneticAlgorithm.java:122-127 | every individual is scored by the fitness function, and the fitness values are the scores of the initial genomes |
| GeneticAlgorithms.GeneticAlgorithm.Prepare | GeneticAlgorithmLibrary/GeneticAlgorithm.java:141-142 | a fresh population of populationSize members of the class and length, all scored, whose fitness values are the scores of the initial genomes |
| GeneticAlgorithms.GeneticAlgorithm.FirstBest | GeneticAlgorithmLibrary/GeneticAlgorithm.java:144 | `getBestIndividual()` is a member of largest fitness, by reference; on an empty population, reading its fitness throws NullPointer |
| GeneticAlgorithms.GeneticAlgorithm.Begin | GeneticAlgorithmLibrary/GeneticAlgorithm.java:141-144 | it fails exactly when populationSize <= 0; otherwise the initial fitness values are the scores of the initial genomes and best is a member of largest fitness |
| GeneticAlgorithms.GeneticAlgorithm.Reproduce | GeneticAlgorithmLibrary/GeneticAlgorithm.java:150-165 | select, cross, mutate and repair: fresh offspring of the class and length |
| GeneticAlgorithms.GeneticAlgorithm.ReplaceAndEvaluate | GeneticAlgorithmLibrary/GeneticAlgorithm.java:168-171 | replacement then evaluation: members are old ones or fresh chromosomes, all scored |
| GeneticAlgorithms.GeneticAlgorithm.Generation | GeneticAlgorithmLibrary/GeneticAlgorithm.java:150-171 | one generation keeps the population object, its class and length, and scores every member |
| GeneticAlgorithms.GeneticAlgorithm.TrackBest | GeneticAlgorithmLibrary/GeneticAlgorithm.java:174-177 | an empty population throws NullPointer; otherwise best becomes the first fittest member, an alias, exactly when that is strictly fitter |
| GeneticAlgorithms.GeneticAlgorithm.Step | GeneticAlgorithmLibrary/GeneticAlgorithm.java:149-177 | one loop pass appends the new generation's fitness values to evaluated, best's fitness at the comparison to rescored and the kept best's fitness to kept; the kept best is best or a member of the new generation |
| GeneticAlgorithms.GeneticAlgorithm.Evolve | GeneticAlgorithmLibrary/GeneticAlgorithm.java:148-182 | the loop runs `generations` times and keeps the record, whose first entries are the population's fitness values and best's fitness at entry |
| GeneticAlgorithms.GeneticAlgorithm.RunConfigured | GeneticAlgorithmLibrary/GeneticAlgorithm.java:140-184 | with every strategy set: a non-positive population size throws NullPointer; otherwise the record has generations + 1 entries and starts with the scores of the initial genomes |
| GeneticAlgorithms.GeneticAlgorithm.Run | GeneticAlgorithmLibrary/GeneticAlgorithm.java:133-185 | a missing strategy throws MissingComponent before anything changes; a non-positive population size throws NullPointer; otherwise the record has generations + 1 entries and starts with the scores of the initial genomes, each kept fitness is the previous one or the generation's best when that is strictly greater than the alias's fitness at the comparison, and the result is at least as fit as every member of the final population |

## Left out

- Console output (`System.out.println`, `toString`) and the getters are not modelled. They print or return fields and decide nothing.
- Randomness is an oracle stream, not `java.util.Random`'s linear congruential generator or the base class's `nextRandom`. The contracts give only the range of each draw and which draw is used.
- The chromosome base class, with `nextRandom`, `setSeed`, `copyArray`, `getGene`/`setGene` and `length`, is not part of this model. Its behaviour is taken from how the three subclasses use it.
- Chromosome.java is an interface (`copy`, `randomInitialize`) that the three classes do not match. GeneticAlgorithm's `copy()` and `randomInitialize()` are modelled as `clone()` and `initialize()`. UniformCrossover's `copy()` of its two parents (UniformCrossover.java:27-28 and 36-37) is modelled as `clone()` too, in Crossovers.UniformPair and Crossovers.UniformStep.
- The fitness function and the infeasibility handler are external code. They are modelled as a pure function of the chromosome's class and genes. The repair returns new genes of the same encoding and length, which the model stores in a new array; an in-place repair that touches other state is not captured.
- The concrete fitness functions, MultipleCrossOver.java and the repository's other libraries are not part of this model.
- GeneticAlgorithm imports a `ReplacementStrategy` interface that is not in the package; ReplacementStrategy is not part of this model. Its `replace(population, offspring)` is modelled with the package's ReplacementMethod strategies.
- Floating point is modelled as exact reals: no rounding, NaN or infinity.
- Integer overflow is modelled in two places. One is the seed mask `nextInt() & 0x7fffffff`. The other is IntegerNeighborMutation's step as written, NeighborGeneAsWritten, which adds through Chromosomes.Wrap. The mutation operations use the corrected step of the Findings table instead.
- Strategies are closed datatypes rather than open interfaces, so user-defined strategies are not covered. A null strategy passed to a setter is modelled by leaving it unset.
- Chromosomes.Chromosome.Initialize: requires the integer range width max - min + 1 to fit in an `int`. When it does not, the source's subtraction wraps and the unseen `nextRandom` receives a non-positive bound.
- Engines.GAEngine.Run: requires a valid prototype whose integer range width fits in an `int`, as Initialize does.
- GeneticAlgorithms.GeneticAlgorithm.Run: requires the same of its prototype.
- Replacements.SteadyStateReplace: requires the old and new populations to be distinct objects. Both engines always pass distinct ones, and with one object the sort would reorder the offspring list too.
- Mutations.Mutate: requires the offspring to be distinct, with distinct gene arrays. Every crossover strategy returns such offspring.
- GeneticAlgorithms.GeneticAlgorithm.Run: states the record (Recorded) and the bound over the final population, not a never-decreasing best. The kept best is an alias of a population member, and crossover and mutation can change its genes and fitness in place. Monotonicity is proved only when the alias is not rescored (UnrescoredKeepsBestSoFar).
- Engines.GAEngine.Run and GeneticAlgorithms.GeneticAlgorithm.Run: only the first entry of the record is tied to the initial genomes. Later generations are recorded by their fitness values; the genomes they came from are stated only one operation at a time, by the strategies' own contracts.
- Mutations.NeighborInts: uses the corrected step, so a gene at Integer.MAX_VALUE moving +1, or at Integer.MIN_VALUE moving -1, stays within [min, max] next to itself. Java wraps that sum and sends the gene to min (or max); see the Findings table. On every other gene the two agree (Mutations.NeighborMatchesWritten).
- Mutations.Neighbor, Mutations.NeighborAt: specify that corrected step, not the wrapping one.
- Mutations.Mutated, Mutations.MutateChromosome, Mutations.Mutate: IntegerNeighborMutation goes through Neighbor, so these do not capture the wrap either.
- Populations.Population.Replace: takes the new members as a value. Java's `replace(getIndividuals())` clears the very list it then iterates, which leaves the population empty; the model keeps the list. No operation in the package passes a population its own list.
- Crossovers.TwoPointCrossover: its ensures gives counts, freshness and class, not gene contents. Each pair's gene exchange is stated by Crossovers.TwoPointPair.
- The ghost `owned` sets in the engine methods are proof bookkeeping for freshness. They have no counterpart in the source.

## Findings

| source | as written | input that shows it | evidently intended | confidence | as-written member | corrected member |
|---|---|---|---|---|---|---|
| GeneticAlgorithmLibrary/Mutation/IntegerNeighborMutation.java:26 | `Math.max(min, Math.min(max, genes[i] + change))` adds in 32-bit `int`, so the sum wraps before it is clamped | a gene equal to Integer.MAX_VALUE, min = 0, max = Integer.MAX_VALUE, change = +1: the sum wraps to Integer.MIN_VALUE and the clamp sends the gene to 0 | the gene moves by at most 1 and stays at max | not executed | Mutations.NeighborGeneAsWritten, Mutations.NeighborOverflow | Mutations.NeighborGene, Mutations.NeighborMoves |
