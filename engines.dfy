/** The generational loops: GAEngine (GeneticAlgorithmLibrary/GAEngine.java) and the older
    GeneticAlgorithm (GeneticAlgorithmLibrary/GeneticAlgorithm.java).  Both initialize and
    evaluate a population, then per generation select parents, cross them, mutate the
    offspring, replace, re-evaluate and keep track of the best individual seen. */
module Engines {
  import opened Outcomes
  import opened RandomSource
  import opened Chromosomes
  import opened Populations
  import opened Selections
  import opened Crossovers
  import opened Mutations
  import opened Replacements

  // ------------------------------------------------------------------ initialization

  /** A chromosome class whose `initialize()` is defined: an integer range no wider than
      the bound `nextRandom` accepts. */
  predicate Initializable(k: Kind) {
    k.BoundsOk() && (k.Integer? ==> k.intMax as int - k.intMin as int + 1 <= INT32_MAX)
  }

  /** The genes `initialize()` gives a chromosome of class k and length n when its draws
      start at position from. */
  function InitialGenes(k: Kind, source: nat -> real, from: nat, n: nat): (g: Genes)
    requires Initializable(k)
    ensures Encodes(k, n, g)
    ensures WithinBounds(k, g)
  {
    match k
    case Binary => Bits(BitDraws(source, from, n))
    case Integer(lo, hi) =>
      IntDrawsInBounds(source, from, n, lo, hi);
      Ints(IntDraws(source, from, n, lo, hi))
    case Float(lo, hi) =>
      RealDrawsInBounds(source, from, n, lo, hi);
      Reals(RealDraws(source, from, n, lo, hi))
  }

  /** `x & 0x7fffffff` on a Java int: clearing the sign bit leaves the residue of x
      modulo 2^31, which is x itself when x is not negative. */
  function ClearSignBit(x: int): (r: int32)
    requires INT32_MIN <= x <= INT32_MAX
    ensures 0 <= r as int < 0x8000_0000
    ensures (x - r as int) % 0x8000_0000 == 0
    ensures x >= 0 ==> r as int == x
  {
    (x % 0x8000_0000) as int32
  }

  /** c is what one pass of GAEngine's `initializePopulation` loop makes when its draws
      start at position from: a clone of the prototype whose seed is set to
      `nextInt() & 0x7fffffff`, then initialized from the following draws (a binary
      chromosome's `initialize()` overwrites the seed with its last draw). */
  ghost predicate SeededFrom(c: Chromosome, prototype: Chromosome, source: nat -> real, from: nat)
    requires Initializable(prototype.kind)
    reads c, c.genes.Buffer(), prototype
  {
    && c.Valid() && c.kind == prototype.kind && c.length == prototype.length
    && c.Contents() == InitialGenes(prototype.kind, source, from + 1, prototype.length)
    && c.fitness == prototype.fitness
    && c.seed == if prototype.kind.Binary? && prototype.length > 0
                 then IndexDraw(source(from + prototype.length), 2) as int32
                 else ClearSignBit(IndexDraw(source(from), 0x1_0000_0000) - 0x8000_0000)
  }

  /** c is what one pass of GeneticAlgorithm's `initializePopulation` loop makes when its
      draws start at position from: a copy of the prototype, randomly initialized. */
  ghost predicate CopiedFrom(c: Chromosome, prototype: Chromosome, source: nat -> real, from: nat)
    requires Initializable(prototype.kind)
    reads c, c.genes.Buffer(), prototype
  {
    && c.Valid() && c.kind == prototype.kind && c.length == prototype.length
    && c.Contents() == InitialGenes(prototype.kind, source, from, prototype.length)
    && c.fitness == prototype.fitness
  }

  /** c is what one pass of either engine's `initializePopulation` loop makes when its
      draws start at position from: GAEngine's when seeded, GeneticAlgorithm's otherwise. */
  ghost predicate MadeFrom(c: Chromosome, prototype: Chromosome, source: nat -> real, from: nat, seeded: bool)
    requires Initializable(prototype.kind)
    reads c, c.genes.Buffer(), prototype
  {
    if seeded then SeededFrom(c, prototype, source, from) else CopiedFrom(c, prototype, source, from)
  }

  /** The draws one pass takes for a chromosome of length n: one per gene, and one more
      for the seed when seeded. */
  function Draws(n: nat, seeded: bool): nat {
    if seeded then n + 1 else n
  }

  /** Where the draws of individual i start when those of individual 0 start at d0 and
      each individual takes w draws. */
  function Start(d0: nat, i: nat, w: nat): nat {
    if i == 0 then d0 else Start(d0, i - 1, w) + w
  }

  /** Individual i's draws start i * w after individual 0's. */
  lemma {:induction false} StartIsLinear(d0: nat, i: nat, w: nat)
    ensures Start(d0, i, w) == d0 + i * w
  {
    if i > 0 {
      StartIsLinear(d0, i - 1, w);
    }
  }

  /** cs is what the first |cs| passes of an `initializePopulation` loop make when the
      draws start at d0: chromosome j is made from the draws that start at
      Start(d0, j, Draws(length, seeded)) and shares neither itself nor its gene array
      with any chromosome before it. */
  ghost predicate Initialized(cs: seq<Chromosome>, prototype: Chromosome, source: nat -> real, d0: nat, seeded: bool)
    requires Initializable(prototype.kind)
    reads cs, Buffers(cs), prototype
    decreases |cs|
  {
    if cs == [] then true
    else
      var n := |cs| - 1;
      assert Buffers(cs[..n]) <= Buffers(cs) by {
        forall c | c in cs[..n] ensures c in cs { }
      }
      && Initialized(cs[..n], prototype, source, d0, seeded)
      && MadeFrom(cs[n], prototype, source, Start(d0, n, Draws(prototype.length, seeded)), seeded) && cs[n].InBounds()
      && forall j :: 0 <= j < n ==> cs[j] != cs[n] && cs[j].genes.Buffer() != cs[n].genes.Buffer()
  }

  /** Appending the chromosome made from the next draws, sharing nothing with the
      others, keeps a list initialized. */
  lemma AppendInitialized(cs: seq<Chromosome>, owned: set<object>, c: Chromosome, prototype: Chromosome,
                          source: nat -> real, d0: nat, seeded: bool)
    requires Initializable(prototype.kind)
    requires Initialized(cs, prototype, source, d0, seeded) && forall d :: d in cs ==> d.genes.Buffer() in owned
    requires MadeFrom(c, prototype, source, Start(d0, |cs|, Draws(prototype.length, seeded)), seeded) && c.InBounds()
    requires c !in cs && c.genes.Buffer() !in owned
    ensures Initialized(cs + [c], prototype, source, d0, seeded)
  {
    assert (cs + [c])[..|cs|] == cs;
  }

  /** What Initialized states, chromosome by chromosome: the list is homogeneous and
      separate, and chromosome j is made from the draws that start at
      Start(d0, j, Draws(length, seeded)). */
  lemma {:induction false} InitializedMeans(cs: seq<Chromosome>, prototype: Chromosome, source: nat -> real, d0: nat, seeded: bool)
    requires Initializable(prototype.kind)
    requires Initialized(cs, prototype, source, d0, seeded)
    ensures Homogeneous(cs, prototype.kind, prototype.length) && Separate(cs)
    ensures forall j :: 0 <= j < |cs| ==>
      MadeFrom(cs[j], prototype, source, Start(d0, j, Draws(prototype.length, seeded)), seeded) && cs[j].InBounds()
  {
    if cs != [] {
      var n := |cs| - 1;
      InitializedMeans(cs[..n], prototype, source, d0, seeded);
      assert forall j :: 0 <= j < n ==> cs[..n][j] == cs[j];
    }
  }

  /** The genome of individual j of those an `initializePopulation` loop makes of class k
      and length len when its draws start at d0: its genes come from the draws that start
      at Start(d0, j, Draws(len, seeded)), after its seed draw when seeded. */
  ghost function InitialGenome(k: Kind, len: nat, source: nat -> real, d0: nat, j: nat, seeded: bool): (g: Genome)
    requires Initializable(k)
    ensures g.kind == k && Encodes(k, len, g.genes) && WithinBounds(k, g.genes)
  {
    Genome(k, InitialGenes(k, source, Start(d0, j, Draws(len, seeded)) + (if seeded then 1 else 0), len))
  }

  /** The genomes of the first n individuals, in order. */
  ghost function InitialGenomes(k: Kind, len: nat, source: nat -> real, d0: nat, n: nat, seeded: bool): (gs: seq<Genome>)
    requires Initializable(k)
    ensures |gs| == n
  {
    seq(n, j requires 0 <= j < n => InitialGenome(k, len, source, d0, j, seeded))
  }

  /** The fitness f gives each genome of gs, in order. */
  ghost function Scores(f: FitnessFunction, gs: seq<Genome>): (fs: seq<real>)
    ensures |fs| == |gs|
  {
    if gs == [] then [] else Scores(f, gs[..|gs| - 1]) + [f(gs[|gs| - 1])]
  }

  /** The fitness values of a list whose members f has scored while they held the genomes gs. */
  lemma {:induction false} ScoredBy(cs: seq<Chromosome>, f: FitnessFunction, gs: seq<Genome>)
    requires |cs| == |gs|
    requires forall j :: 0 <= j < |cs| ==> Evaluated(cs[j], f) && cs[j].Value() == gs[j]
    ensures Fitnesses(cs) == Scores(f, gs)
  {
    if cs != [] {
      var n := |cs| - 1;
      assert forall j :: 0 <= j < n ==> cs[..n][j] == cs[j] && gs[..n][j] == gs[j];
      ScoredBy(cs[..n], f, gs[..n]);
    }
  }

  /** A list whose chromosome j is made from the draws that start at
      Start(d0, j, Draws(length, seeded)), as InitializedMeans states of an initialized
      one, holds exactly the genomes InitialGenomes describes. */
  lemma InitializedGenomes(cs: seq<Chromosome>, prototype: Chromosome, source: nat -> real, d0: nat, seeded: bool)
    requires Initializable(prototype.kind)
    requires forall j :: 0 <= j < |cs| ==>
      MadeFrom(cs[j], prototype, source, Start(d0, j, Draws(prototype.length, seeded)), seeded)
    ensures forall j :: 0 <= j < |cs| ==>
      cs[j].Value() == InitialGenomes(prototype.kind, prototype.length, source, d0, |cs|, seeded)[j]
  {
    forall j | 0 <= j < |cs|
      ensures cs[j].Value() == InitialGenome(prototype.kind, prototype.length, source, d0, j, seeded)
    {
      MadeFromGenome(cs[j], prototype, source, Start(d0, j, Draws(prototype.length, seeded)), seeded);
    }
  }

  /** The genome of a chromosome one pass makes. */
  lemma MadeFromGenome(c: Chromosome, prototype: Chromosome, source: nat -> real, from: nat, seeded: bool)
    requires Initializable(prototype.kind)
    requires MadeFrom(c, prototype, source, from, seeded)
    ensures c.Value() == Genome(prototype.kind, InitialGenes(prototype.kind, source, from + (if seeded then 1 else 0), prototype.length))
  {
  }

  /** A gene buffer is never an engine. */
  lemma BuffersAreNotEngines(cs: seq<Chromosome>, e: GAEngine)
    ensures e !in Buffers(cs)
  {
  }

  /** `population.add(individual)`: adding the chromosome that follows keeps the
      population's individuals initialized. */
  method AppendIndividual(pop: Population, c: Chromosome, prototype: Chromosome, ghost source: nat -> real, ghost d0: nat,
                          ghost seeded: bool)
    requires Initializable(prototype.kind)
    requires Initialized(pop.individuals + [c], prototype, source, d0, seeded)
    modifies pop`individuals
    ensures pop.individuals == old(pop.individuals) + [c]
    ensures Initialized(pop.individuals, prototype, source, d0, seeded)
  {
    BuffersAreNotPopulations(pop.individuals + [c], pop);
    pop.Add(c);
  }

  // ------------------------------------------------------------------ evaluation

  /** c's fitness is the fitness function's score of its current genes. */
  ghost predicate Evaluated(c: Chromosome, f: FitnessFunction)
    reads c, c.genes.Buffer()
  {
    c.fitness == f(c.Value())
  }

  /** `evaluatePopulation`: every individual's fitness becomes its score.  Only fitness
      fields are written, so the genes stay as they are. */
  method EvaluatePopulation(pop: Population, f: FitnessFunction)
    modifies pop.individuals`fitness
    ensures forall j :: 0 <= j < |pop.individuals| ==> Evaluated(pop.individuals[j], f)
  {
    var individuals := pop.individuals;
    for i := 0 to |individuals|
      invariant forall j :: 0 <= j < i ==> Evaluated(individuals[j], f)
    {
      individuals[i].fitness := f(individuals[i].Value());
    }
  }

  // ------------------------------------------------------------------ best so far

  /** m is the largest fitness recorded in the generations of `evaluated`, each the list of
      fitness values of one evaluated population. */
  ghost predicate IsBestSoFar(evaluated: seq<seq<real>>, m: real) {
    && (forall g, j :: 0 <= g < |evaluated| && 0 <= j < |evaluated[g]| ==> evaluated[g][j] <= m)
    && (exists g, j :: 0 <= g < |evaluated| && 0 <= j < |evaluated[g]| && evaluated[g][j] == m)
  }

  /** Every member of cs is scored by f. */
  ghost predicate Scored(cs: seq<Chromosome>, f: FitnessFunction)
    reads cs, Buffers(cs)
  {
    forall j :: 0 <= j < |cs| ==> Evaluated(cs[j], f)
  }

  /** The record of `run()` so far (TracksBest) describes the population cs, all scored
      by f, whose fitness values it holds last, and best, whose fitness it holds last. */
  ghost predicate Tracked(cs: seq<Chromosome>, f: FitnessFunction, evaluated: seq<seq<real>>, bestSoFar: seq<real>,
                          best: Chromosome)
    reads cs, Buffers(cs), best
  {
    && TracksBest(evaluated, bestSoFar)
    && |bestSoFar| > 0 && bestSoFar[|bestSoFar| - 1] == best.fitness
    && Fitnesses(cs) == evaluated[|evaluated| - 1]
    && Scored(cs, f)
  }

  /** bestSoFar[g] is the best fitness over generations 0..g (TracksBestAt), stated from
      the last generation back. */
  ghost predicate TracksBest(evaluated: seq<seq<real>>, bestSoFar: seq<real>)
    decreases |bestSoFar|
  {
    && |bestSoFar| == |evaluated|
    && (|bestSoFar| > 0 ==>
         var n := |bestSoFar| - 1;
         IsBestSoFar(evaluated, bestSoFar[n]) && TracksBest(evaluated[..n], bestSoFar[..n]))
  }

  /** Each bestSoFar[g] is the best fitness over generations 0..g. */
  lemma {:induction false} TracksBestAt(evaluated: seq<seq<real>>, bestSoFar: seq<real>, g: nat)
    requires TracksBest(evaluated, bestSoFar) && g < |bestSoFar|
    ensures IsBestSoFar(evaluated[..g + 1], bestSoFar[g])
    decreases |bestSoFar|
  {
    var n := |bestSoFar| - 1;
    if g == n {
      assert evaluated[..g + 1] == evaluated;
    } else {
      TracksBestAt(evaluated[..n], bestSoFar[..n], g);
      assert evaluated[..n][..g + 1] == evaluated[..g + 1];
    }
  }

  /** The best fitness so far never decreases from one generation to a later one. */
  lemma {:induction false} BestSoFarNeverDecreases(evaluated: seq<seq<real>>, bestSoFar: seq<real>)
    requires TracksBest(evaluated, bestSoFar)
    ensures forall g1, g2 :: 0 <= g1 <= g2 < |bestSoFar| ==> bestSoFar[g1] <= bestSoFar[g2]
  {
    forall g1, g2 | 0 <= g1 <= g2 < |bestSoFar| ensures bestSoFar[g1] <= bestSoFar[g2] {
      var early := evaluated[..g1 + 1];
      var late := evaluated[..g2 + 1];
      TracksBestAt(evaluated, bestSoFar, g1);
      TracksBestAt(evaluated, bestSoFar, g2);
      var g, j :| 0 <= g < |early| && 0 <= j < |early[g]| && early[g][j] == bestSoFar[g1];
      assert early[g] == late[g];
    }
  }

  /** The best of the first evaluated population, when it has an individual. */
  lemma FirstBestSoFar(fs: seq<real>, k: nat)
    requires k < |fs| && forall j :: 0 <= j < |fs| ==> fs[j] <= fs[k]
    ensures TracksBest([fs], [fs[k]])
  {
    assert [fs][..0] == [];
    assert [fs][0][k] == fs[k];
  }

  /** The tracking step of both loops.  With m the best so far and fs[k] the best of the
      newly evaluated generation, the best so far becomes fs[k] if it is strictly greater
      and stays m otherwise. */
  lemma {:induction false} NextBestSoFar(evaluated: seq<seq<real>>, bestSoFar: seq<real>, fs: seq<real>, k: nat, m': real)
    requires TracksBest(evaluated, bestSoFar) && |bestSoFar| > 0
    requires k < |fs| && forall j :: 0 <= j < |fs| ==> fs[j] <= fs[k]
    requires var m := bestSoFar[|bestSoFar| - 1]; m' == if fs[k] > m then fs[k] else m
    ensures TracksBest(evaluated + [fs], bestSoFar + [m'])
  {
    var m := bestSoFar[|bestSoFar| - 1];
    var next := evaluated + [fs];
    var best := bestSoFar + [m'];
    assert next[..|evaluated|] == evaluated && best[..|bestSoFar|] == bestSoFar;
    assert IsBestSoFar(evaluated, m);
    forall g, j | 0 <= g < |next| && 0 <= j < |next[g]| ensures next[g][j] <= m' {
      if g < |evaluated| {
        assert next[g] == evaluated[g];
      }
    }
    if fs[k] > m {
      assert next[|evaluated|][k] == m';
    } else {
      var g', j :| 0 <= g' < |evaluated| && 0 <= j < |evaluated[g']| && evaluated[g'][j] == m;
      assert next[g'][j] == m';
    }
  }

  // ------------------------------------------------------------------ one generation

  /** The part of a generation both engines share: `select`, `crossover` on the parents,
      `mutate` on the offspring.  The parents may be members of the population, whose
      gene arrays crossover may rewrite or replace; the population keeps its class and
      length, its individuals and their fitness. */
  method Breed(sel: SelectionMethod, cm: CrossoverMethod, mm: MutationMethod, pop: Population,
               crossoverRate: real, mutationRate: real, rng: Random, ghost kind: Kind, ghost length: nat)
    returns (r: Result<seq<Chromosome>>)
    requires Homogeneous(pop.individuals, kind, length)
    modifies rng, pop.individuals`genes, Buffers(pop.individuals)
    ensures Homogeneous(pop.individuals, kind, length)
    ensures forall j :: 0 <= j < |pop.individuals| ==>
      pop.individuals[j].genes == old(pop.individuals[j].genes) || fresh(pop.individuals[j].genes.Buffer())
    ensures r.Success? ==> Homogeneous(r.value, kind, length) && Separate(r.value)
    ensures r.Success? ==> forall j :: 0 <= j < |r.value| ==> fresh(r.value[j]) && fresh(r.value[j].genes.Buffer())
  {
    var parents := Select(sel, pop, rng, kind, length);
    if parents.Failure? {
      return Failure(parents.error);
    }
    BuffersAreNotPopulations(parents.value, pop);
    var offspring := Offspring(cm, mm, parents.value, crossoverRate, mutationRate, rng, pop.individuals, kind, length);
    return Success(offspring);
  }

  /** `crossover` on the parents, then `mutate` on the offspring, beside the population
      list others, which may share members with the parents but none with the offspring. */
  method Offspring(cm: CrossoverMethod, mm: MutationMethod, parents: seq<Chromosome>, crossoverRate: real,
                   mutationRate: real, rng: Random, ghost others: seq<Chromosome>, ghost kind: Kind, ghost length: nat)
    returns (offspring: seq<Chromosome>)
    requires Homogeneous(parents, kind, length) && Homogeneous(others, kind, length)
    modifies rng, FirstTwo(parents)`genes, Buffers(parents)
    ensures Homogeneous(others, kind, length)
    ensures forall j :: 0 <= j < |others| ==> others[j].genes == old(others[j].genes) || fresh(others[j].genes.Buffer())
    ensures Homogeneous(offspring, kind, length) && Separate(offspring)
    ensures forall j :: 0 <= j < |offspring| ==> fresh(offspring[j]) && fresh(offspring[j].genes.Buffer())
  {
    offspring := CrossKeeping(cm, parents, crossoverRate, rng, others, kind, length);
    assert forall i, j :: 0 <= i < |offspring| && 0 <= j < |others| ==> offspring[i] != others[j];
    MutateOffspring(mm, offspring, mutationRate, rng, others, kind, length);
  }

  /** `crossover(parents, crossoverRate)` beside a list others of the same class and
      length, which may share members with the parents: others keeps its class and
      length, and any of its gene arrays that changed is a new one. */
  method CrossKeeping(cm: CrossoverMethod, parents: seq<Chromosome>, crossoverRate: real, rng: Random,
                      ghost others: seq<Chromosome>, ghost kind: Kind, ghost length: nat)
    returns (offspring: seq<Chromosome>)
    requires Homogeneous(parents, kind, length) && Homogeneous(others, kind, length)
    modifies rng, FirstTwo(parents)`genes, Buffers(parents)
    ensures Homogeneous(others, kind, length)
    ensures forall j :: 0 <= j < |others| ==> others[j].genes == old(others[j].genes) || fresh(others[j].genes.Buffer())
    ensures Homogeneous(offspring, kind, length) && Separate(offspring)
    ensures forall j :: 0 <= j < |offspring| ==> fresh(offspring[j]) && fresh(offspring[j].genes.Buffer())
  {
    offspring := Crossover(cm, parents, crossoverRate, rng, kind, length);
    forall j | 0 <= j < |others|
      ensures others[j].Valid() && others[j].kind == kind && others[j].length == length
      ensures others[j].genes == old(others[j].genes) || fresh(others[j].genes.Buffer())
    {
      if others[j] !in FirstTwo(parents) {
        assert others[j].genes == old(others[j].genes);
      }
    }
  }

  /** `mutate(offspring, mutationRate)` on offspring that are none of the chromosomes in
      others: those keep their genes. */
  method MutateOffspring(mm: MutationMethod, offspring: seq<Chromosome>, mutationRate: real, rng: Random,
                         ghost others: seq<Chromosome>, ghost kind: Kind, ghost length: nat)
    requires Homogeneous(offspring, kind, length) && Separate(offspring)
    requires forall i, j :: 0 <= i < |offspring| && 0 <= j < |others| ==> offspring[i] != others[j]
    modifies rng, offspring, Buffers(offspring)
    ensures Homogeneous(offspring, kind, length) && Separate(offspring)
    ensures forall j :: 0 <= j < |others| ==> others[j].genes == old(others[j].genes)
    ensures forall j :: 0 <= j < |offspring| ==> offspring[j].genes == old(offspring[j].genes) || fresh(offspring[j].genes.Buffer())
  {
    Mutate(mm, offspring, mutationRate, rng);
  }

  // ------------------------------------------------------------------ population building

  /** One pass of an `initializePopulation` loop.  GAEngine's (seeded): a clone of the
      prototype, its seed set from `nextInt() & 0x7fffffff`, then `initialize()`.
      GeneticAlgorithm's: `copy()` then `randomInitialize()`, which the chromosome
      classes provide as `clone()` and `initialize()`. */
  method NewIndividual(prototype: Chromosome, rand: Random, seeded: bool) returns (c: Chromosome)
    requires prototype.Valid() && Initializable(prototype.kind)
    modifies rand
    ensures fresh(c) && fresh(c.genes.Buffer())
    ensures MadeFrom(c, prototype, rand.source, old(rand.drawn), seeded) && c.InBounds()
    ensures rand.drawn == old(rand.drawn) + Draws(prototype.length, seeded)
  {
    c := prototype.Clone();
    if seeded {
      var r := rand.NextInt32();
      c.seed := ClearSignBit(r);
    }
    c.Initialize(rand);
  }

  /** The population an `initializePopulation` builds, one `population.add` per pass;
      its chromosomes and their gene arrays are all new, gathered in owned. */
  method InitialPopulation(prototype: Chromosome, rand: Random, populationSize: int, seeded: bool)
    returns (pop: Population, ghost owned: set<object>)
    requires prototype.Valid() && Initializable(prototype.kind)
    modifies rand
    ensures fresh(pop) && fresh(owned) && pop.size == populationSize
    ensures |pop.individuals| == Count(populationSize)
    ensures rand.drawn == Start(old(rand.drawn), Count(populationSize), Draws(prototype.length, seeded))
    ensures Initialized(pop.individuals, prototype, rand.source, old(rand.drawn), seeded)
    ensures forall c :: c in pop.individuals ==> c in owned && c.genes.Buffer() in owned
  {
    pop := new Population(populationSize);
    ghost var d0 := rand.drawn;
    owned := {};
    var i := 0;
    while i < populationSize
      invariant 0 <= i <= Count(populationSize) && |pop.individuals| == i && pop.size == populationSize
      invariant rand.drawn == Start(d0, i, Draws(prototype.length, seeded))
      invariant Initialized(pop.individuals, prototype, rand.source, d0, seeded)
      invariant fresh(owned) && forall c :: c in pop.individuals ==> c in owned && c.genes.Buffer() in owned
    {
      var individual := AddIndividual(prototype, rand, pop, seeded, owned, d0);
      owned := owned + {individual, individual.genes.Buffer()};
      i := i + 1;
    }
  }

  /** One pass of an `initializePopulation` loop: `population.add` of a new individual
      made from the next draws. */
  method AddIndividual(prototype: Chromosome, rand: Random, pop: Population, seeded: bool,
                       ghost owned: set<object>, ghost d0: nat)
    returns (individual: Chromosome)
    requires prototype.Valid() && Initializable(prototype.kind)
    requires rand.drawn == Start(d0, |pop.individuals|, Draws(prototype.length, seeded))
    requires Initialized(pop.individuals, prototype, rand.source, d0, seeded)
    requires forall c :: c in pop.individuals ==> c in owned && c.genes.Buffer() in owned
    modifies pop`individuals, rand
    ensures fresh(individual) && fresh(individual.genes.Buffer())
    ensures rand.drawn == Start(d0, |pop.individuals|, Draws(prototype.length, seeded))
    ensures Initialized(pop.individuals, prototype, rand.source, d0, seeded)
    ensures pop.individuals == old(pop.individuals) + [individual]
  {
    individual := NextIndividual(prototype, rand, seeded, pop.individuals, owned, d0);
    AppendIndividual(pop, individual, prototype, rand.source, d0, seeded);
  }

  /** The individual that follows those of cs, made from the next draws. */
  method NextIndividual(prototype: Chromosome, rand: Random, seeded: bool, ghost cs: seq<Chromosome>,
                        ghost owned: set<object>, ghost d0: nat)
    returns (c: Chromosome)
    requires prototype.Valid() && Initializable(prototype.kind)
    requires rand.drawn == Start(d0, |cs|, Draws(prototype.length, seeded))
    requires Initialized(cs, prototype, rand.source, d0, seeded)
    requires forall d :: d in cs ==> d in owned && d.genes.Buffer() in owned
    modifies rand
    ensures fresh(c) && fresh(c.genes.Buffer())
    ensures rand.drawn == Start(d0, |cs| + 1, Draws(prototype.length, seeded))
    ensures Initialized(cs + [c], prototype, rand.source, d0, seeded)
  {
    BuffersAreNotRandom(cs, rand);
    c := NewIndividual(prototype, rand, seeded);
    AppendInitialized(cs, owned, c, prototype, rand.source, d0, seeded);
  }

  // ------------------------------------------------------------------ GAEngine

  class GAEngine {
    const populationSize: int
    const generations: int
    const crossoverRate: real
    const mutationRate: real
    var selectionMethod: Option<SelectionMethod>
    var crossoverMethod: Option<CrossoverMethod>
    var mutationMethod: Option<MutationMethod>
    var replacementMethod: Option<ReplacementMethod>
    const fitnessFunction: FitnessFunction
    const prototype: Chromosome
    var population: Population?
    /** The engine's `new Random()`; it also stands for the chromosomes' own draws. */
    const rand: Random

    /** The constructor: the four strategies start unset and there is no population. */
    constructor (populationSize: int, generations: int, crossoverRate: real, mutationRate: real,
                 prototype: Chromosome, fitnessFunction: FitnessFunction, rand: Random)
      ensures this.populationSize == populationSize && this.generations == generations
      ensures this.crossoverRate == crossoverRate && this.mutationRate == mutationRate
      ensures this.prototype == prototype && this.fitnessFunction == fitnessFunction && this.rand == rand
      ensures selectionMethod.None? && crossoverMethod.None? && mutationMethod.None? && replacementMethod.None?
      ensures population == null
    {
      this.populationSize := populationSize;
      this.generations := generations;
      this.crossoverRate := crossoverRate;
      this.mutationRate := mutationRate;
      this.prototype := prototype;
      this.fitnessFunction := fitnessFunction;
      this.rand := rand;
      selectionMethod := None;
      crossoverMethod := None;
      mutationMethod := None;
      replacementMethod := None;
      population := null;
    }

    method SetSelectionMethod(m: SelectionMethod)
      modifies this`selectionMethod
      ensures selectionMethod == Some(m)
    {
      selectionMethod := Some(m);
    }

    method SetCrossoverMethod(m: CrossoverMethod)
      modifies this`crossoverMethod
      ensures crossoverMethod == Some(m)
    {
      crossoverMethod := Some(m);
    }

    method SetMutationMethod(m: MutationMethod)
      modifies this`mutationMethod
      ensures mutationMethod == Some(m)
    {
      mutationMethod := Some(m);
    }

    method SetReplacementMethod(m: ReplacementMethod)
      modifies this`replacementMethod
      ensures replacementMethod == Some(m)
    {
      replacementMethod := Some(m);
    }

    /** All four strategies are set, as `run()` demands. */
    predicate Configured()
      reads this`selectionMethod, this`crossoverMethod, this`mutationMethod, this`replacementMethod
    {
      selectionMethod.Some? && crossoverMethod.Some? && mutationMethod.Some? && replacementMethod.Some?
    }

    /** `initializePopulation`: a new population of populationSize (none when it is not
        positive) separate individuals, individual i made from the draws that start at
        Start(old drawn, i, length + 1), that is i * (length + 1) further on
        (StartIsLinear); InitializedMeans spells the list out. */
    method InitializePopulation() returns (ghost owned: set<object>)
      requires prototype.Valid() && Initializable(prototype.kind)
      modifies this`population, rand
      ensures population != null && fresh(population) && population.size == populationSize
      ensures |population.individuals| == Count(populationSize)
      ensures rand.drawn == Start(old(rand.drawn), Count(populationSize), prototype.length + 1)
      ensures Initialized(population.individuals, prototype, rand.source, old(rand.drawn), true)
      ensures fresh(owned) && forall c :: c in population.individuals ==> c in owned && c.genes.Buffer() in owned
    {
      var pop;
      pop, owned := InitialPopulation(prototype, rand, populationSize, true);
      BuffersAreNotEngines(pop.individuals, this);
      population := pop;
    }

    /** `buildPopulation`: a new population holding the offspring, in order. */
    method BuildPopulation(offspringList: seq<Chromosome>) returns (newPop: Population)
      ensures fresh(newPop) && newPop.size == populationSize && newPop.individuals == offspringList
    {
      newPop := new Population(populationSize);
      for i := 0 to |offspringList|
        invariant newPop.individuals == offspringList[..i]
      {
        newPop.Add(offspringList[i]);
      }
    }

    /** The tracking step at the end of each generation: `getBestIndividual()` throws on
        an empty population; a strictly fitter current best replaces best by a clone. */
    method TrackBest(best: Chromosome, ghost kind: Kind, ghost length: nat) returns (r: Result<Chromosome>, ghost k: nat)
      requires population != null && Homogeneous(population.individuals, kind, length)
      requires Scored(population.individuals, fitnessFunction)
      requires forall j :: 0 <= j < |population.individuals| ==> population.individuals[j] != best
      ensures Homogeneous(population.individuals, kind, length)
      ensures Scored(population.individuals, fitnessFunction)
      ensures r.Success? ==> forall j :: 0 <= j < |population.individuals| ==> population.individuals[j] != r.value
      ensures r.Failure? <==> population.individuals == []
      ensures r.Failure? ==> r.error == NullPointer
      ensures r.Success? ==> IsFirstBest(population.individuals, k)
      ensures r.Success? ==>
        if population.individuals[k].fitness > best.fitness
        then fresh(r.value) && r.value.Valid() && IsCloneOf(r.value, population.individuals[k])
        else r.value == best
    {
      var currentBest := population.GetBestIndividual();
      if currentBest.None? {
        return Failure(NullPointer), 0;
      }
      k :| IsFirstBest(population.individuals, k) && population.individuals[k] == currentBest.value;
      if currentBest.value.fitness > best.fitness {
        var c := currentBest.value.Clone();
        return Success(c), k;
      }
      return Success(best), k;
    }

    /** Selection, crossover, mutation and `buildPopulation`: a new population of new
        offspring, while the population's members keep their class and length and their
        gene arrays are the old ones or new. */
    method Reproduce(ghost kind: Kind, ghost length: nat, ghost owned: set<object>) returns (r: Result<Population>)
      requires Configured()
      requires population != null && Homogeneous(population.individuals, kind, length)
      requires forall c :: c in population.individuals ==> c.genes.Buffer() in owned
      modifies rand, population.individuals`genes, Buffers(population.individuals)
      ensures population.individuals == old(population.individuals)
      ensures Homogeneous(population.individuals, kind, length)
      ensures forall c :: c in population.individuals ==> c.genes.Buffer() in owned || fresh(c.genes.Buffer())
      ensures r.Success? ==> fresh(r.value) && Homogeneous(r.value.individuals, kind, length)
      ensures r.Success? ==> forall j :: 0 <= j < |r.value.individuals| ==>
        fresh(r.value.individuals[j]) && fresh(r.value.individuals[j].genes.Buffer())
    {
      var bred := Breed(selectionMethod.value, crossoverMethod.value, mutationMethod.value, population,
                        crossoverRate, mutationRate, rand, kind, length);
      if bred.Failure? {
        return Failure(bred.error);
      }
      var offspringPopulation := BuildPopulation(bred.value);
      return Success(offspringPopulation);
    }

    /** `population = replace(population, offspringPopulation)` and the re-evaluation:
        the members are old ones or new, all scored by the fitness function; no gene
        array of an old member changes. */
    method ReplaceAndEvaluate(offspringPopulation: Population, ghost kind: Kind, ghost length: nat)
      returns (r: Result<Population>)
      requires Configured() && population != null && offspringPopulation != population
      requires Homogeneous(population.individuals, kind, length)
      requires Homogeneous(offspringPopulation.individuals, kind, length)
      modifies this`population, rand, population, population.individuals`fitness
      ensures population == old(population)
      ensures forall c :: c in old(population.individuals) ==> c.genes == old(c.genes)
      ensures r.Success? ==> Homogeneous(population.individuals, kind, length)
      ensures r.Success? ==> forall c :: c in population.individuals ==>
        c in old(population.individuals) || (fresh(c) && fresh(c.genes.Buffer()))
      ensures r.Success? ==> Scored(population.individuals, fitnessFunction)
    {
      r := Replace(replacementMethod.value, population, offspringPopulation, rand, kind, length);
      if r.Failure? {
        return;
      }
      population := r.value;
      EvaluatePopulation(population, fitnessFunction);
    }

    /** `run()`'s loop body up to the tracking step: select, cross, mutate, build the
        offspring population, replace and re-evaluate.  The population keeps its class and
        length; its members are old ones, whose gene arrays are the old ones or new, or new
        chromosomes, all scored by the fitness function; best is none of them. */
    method Generation(best: Chromosome, ghost kind: Kind, ghost length: nat, ghost owned: set<object>)
      returns (r: Outcome)
      requires Configured()
      requires population != null && Held(population.individuals, kind, length, owned)
      requires forall j :: 0 <= j < |population.individuals| ==> population.individuals[j] != best
      modifies this`population, rand, population, population.individuals`genes, population.individuals`fitness,
        Buffers(population.individuals)
      ensures population == old(population)
      ensures r.Pass? ==> Homogeneous(population.individuals, kind, length)
      ensures r.Pass? ==> forall c :: c in population.individuals ==>
        (c in owned || fresh(c)) && (c.genes.Buffer() in owned || fresh(c.genes.Buffer()))
      ensures r.Pass? ==> Scored(population.individuals, fitnessFunction)
      ensures r.Pass? ==> forall j :: 0 <= j < |population.individuals| ==> population.individuals[j] != best
      ensures best.fitness == old(best.fitness)
    {
      var offspring := Reproduce(kind, length, owned);
      if offspring.Failure? {
        return Fail(offspring.error);
      }
      var replaced := ReplaceAndEvaluate(offspring.value, kind, length);
      if replaced.Failure? {
        return Fail(replaced.error);
      }
      return Pass;
    }

    /** `run()`: throws when a strategy is unset; otherwise initializes and evaluates the
        population, keeps a clone of its best, and runs `generations` generations.  On
        success, evaluated[g] holds the fitness values of generation g (0 being the
        initial population), bestSoFar[g] is the best of them over generations 0..g, and
        the returned clone has the last of those. */
    method Run() returns (r: Result<Chromosome>, ghost evaluated: seq<seq<real>>, ghost bestSoFar: seq<real>)
      requires prototype.Valid() && Initializable(prototype.kind)
      modifies this`population, rand
      ensures !Configured() ==> r == Failure(MissingComponent) && population == old(population) && rand.drawn == old(rand.drawn)
      ensures Configured() && populationSize <= 0 ==> r == Failure(NullPointer)
      ensures r.Success? ==> population != null && fresh(r.value) && |evaluated| == Count(generations) + 1
      ensures r.Success? ==> Tracked(population.individuals, fitnessFunction, evaluated, bestSoFar, r.value)
      ensures r.Success? ==> evaluated[0] == Scores(fitnessFunction, InitialGenomes(prototype.kind, prototype.length, rand.source, old(rand.drawn), Count(populationSize), true))
      ensures r.Success? ==> IsBestSoFar(evaluated, r.value.fitness)
      ensures r.Success? ==> forall g1, g2 :: 0 <= g1 <= g2 < |bestSoFar| ==> bestSoFar[g1] <= bestSoFar[g2]
    {
      if !Configured() {
        return Failure(MissingComponent), [], [];
      }
      var first;
      ghost var owned;
      first, owned := Begin();
      if first.Failure? {
        return Failure(first.error), [], [];
      }
      r, evaluated, bestSoFar := Evolve(first.value, owned);
      if r.Success? {
        BestSoFarNeverDecreases(evaluated, bestSoFar);
      }
    }

    /** `run()`'s loop, from the initial population and the clone of its best: the
        generations 1..generations, recorded as for Run. */
    method Evolve(best: Chromosome, ghost owned: set<object>)
      returns (r: Result<Chromosome>, ghost evaluated: seq<seq<real>>, ghost bestSoFar: seq<real>)
      requires Configured() && population != null && this !in owned
      requires Held(population.individuals, prototype.kind, prototype.length, owned)
      requires forall j :: 0 <= j < |population.individuals| ==> population.individuals[j] != best
      requires Tracked(population.individuals, fitnessFunction, [Fitnesses(population.individuals)], [best.fitness], best)
      modifies this`population, rand, population, owned
      ensures r.Success? ==> population != null && (fresh(r.value) || r.value == best) && |evaluated| == Count(generations) + 1
      ensures r.Success? ==> Tracked(population.individuals, fitnessFunction, evaluated, bestSoFar, r.value)
      ensures r.Success? ==> evaluated[0] == old(Fitnesses(population.individuals)) && bestSoFar[0] == old(best.fitness)
    {
      var current := best;
      evaluated := [Fitnesses(population.individuals)];
      bestSoFar := [best.fitness];
      ghost var fs0, m0 := evaluated[0], bestSoFar[0];
      ghost var grown := owned;
      var gen := 1;
      while gen <= generations
        invariant 1 <= gen <= Count(generations) + 1 && |evaluated| == gen
        invariant population == old(population) && owned <= grown && fresh(grown - owned)
        invariant Held(population.individuals, prototype.kind, prototype.length, grown)
        invariant fresh(current) || current == best
        invariant forall j :: 0 <= j < |population.individuals| ==> population.individuals[j] != current
        invariant Tracked(population.individuals, fitnessFunction, evaluated, bestSoFar, current)
        invariant evaluated[0] == fs0 && bestSoFar[0] == m0
      {
        var next;
        next, evaluated, bestSoFar, grown := Step(current, evaluated, bestSoFar, grown);
        if next.Failure? {
          return Failure(next.error), evaluated, bestSoFar;
        }
        current := next.value;
        gen := gen + 1;
      }
      return Success(current), evaluated, bestSoFar;
    }

    /** One pass of `run()`'s loop with its record: evaluated gains the fitness values
        of the new generation and bestSoFar the fitness of the best kept so far. */
    method Step(best: Chromosome, ghost evaluated: seq<seq<real>>, ghost bestSoFar: seq<real>, ghost owned: set<object>)
      returns (r: Result<Chromosome>, ghost evaluated': seq<seq<real>>, ghost bestSoFar': seq<real>, ghost owned': set<object>)
      requires Configured() && population != null
      requires Held(population.individuals, prototype.kind, prototype.length, owned)
      requires forall j :: 0 <= j < |population.individuals| ==> population.individuals[j] != best
      requires TracksBest(evaluated, bestSoFar) && |bestSoFar| > 0 && bestSoFar[|bestSoFar| - 1] == best.fitness
      modifies this`population, rand, population, population.individuals`genes, population.individuals`fitness,
        Buffers(population.individuals)
      ensures population == old(population) && owned <= owned' && fresh(owned' - owned)
      ensures r.Success? ==> Held(population.individuals, prototype.kind, prototype.length, owned')
      ensures best.fitness == old(best.fitness)
      ensures r.Success? ==> r.value == best || (fresh(r.value) && r.value.fitness > best.fitness)
      ensures r.Success? ==> forall j :: 0 <= j < |population.individuals| ==> population.individuals[j] != r.value
      ensures r.Success? ==> evaluated' == evaluated + [Fitnesses(population.individuals)]
      ensures r.Success? ==> bestSoFar' == bestSoFar + [r.value.fitness]
      ensures r.Success? ==> Tracked(population.individuals, fitnessFunction, evaluated', bestSoFar', r.value)
    {
      var o := Generation(best, prototype.kind, prototype.length, owned);
      if o.Fail? {
        return Failure(o.error), evaluated, bestSoFar, owned;
      }
      ghost var k: nat;
      r, k := TrackBest(best, prototype.kind, prototype.length);
      if r.Failure? {
        return r, evaluated, bestSoFar, owned;
      }
      Adopted(population.individuals, owned);
      owned' := owned + Members(population.individuals) + Buffers(population.individuals);
      FirstBestFitnesses(population.individuals, k);
      ghost var fs := Fitnesses(population.individuals);
      assert r.value.fitness == if fs[k] > best.fitness then fs[k] else best.fitness;
      NextBestSoFar(evaluated, bestSoFar, fs, k, r.value.fitness);
      evaluated' := evaluated + [fs];
      bestSoFar' := bestSoFar + [r.value.fitness];
    }

    /** `initializePopulation()` as `run()` relies on it: a new population of
        populationSize new chromosomes of the prototype's class and length. */
    method Populate() returns (ghost owned: set<object>)
      requires prototype.Valid() && Initializable(prototype.kind)
      modifies this`population, rand
      ensures population != null && fresh(population) && fresh(owned)
      ensures |population.individuals| == Count(populationSize)
      ensures Homogeneous(population.individuals, prototype.kind, prototype.length)
      ensures forall c :: c in population.individuals ==> c in owned && c.genes.Buffer() in owned
      ensures forall j :: 0 <= j < |population.individuals| ==>
        population.individuals[j].Value() ==
        InitialGenomes(prototype.kind, prototype.length, rand.source, old(rand.drawn), Count(populationSize), true)[j]
    {
      ghost var d0 := rand.drawn;
      owned := InitializePopulation();
      InitializedMeans(population.individuals, prototype, rand.source, d0, true);
      InitializedGenomes(population.individuals, prototype, rand.source, d0, true);
    }

    /** What `run()` does before its loop: `initializePopulation()`, the evaluation and
        `getBestIndividual().clone()`, which throws on the empty population a
        non-positive populationSize gives.  The clone holds the best fitness of the
        initial generation and is none of its members. */
    method Begin() returns (r: Result<Chromosome>, ghost owned: set<object>)
      requires prototype.Valid() && Initializable(prototype.kind)
      modifies this`population, rand
      ensures population != null && fresh(population) && fresh(owned)
      ensures Homogeneous(population.individuals, prototype.kind, prototype.length)
      ensures forall c :: c in population.individuals ==> c in owned && c.genes.Buffer() in owned
      ensures forall j :: 0 <= j < |population.individuals| ==> Evaluated(population.individuals[j], fitnessFunction)
      ensures |population.individuals| == Count(populationSize)
      ensures Fitnesses(population.individuals) == Scores(fitnessFunction, InitialGenomes(prototype.kind, prototype.length, rand.source, old(rand.drawn), Count(populationSize), true))
      ensures r.Failure? <==> populationSize <= 0
      ensures r.Failure? ==> r.error == NullPointer
      ensures r.Success? ==> fresh(r.value) && forall j :: 0 <= j < |population.individuals| ==> population.individuals[j] != r.value
      ensures r.Success? ==> TracksBest([Fitnesses(population.individuals)], [r.value.fitness])
    {
      owned := Prepare();
      ghost var k: nat;
      r, k := TrackFirst(prototype.kind, prototype.length);
      if r.Success? {
        FirstBestSoFar(Fitnesses(population.individuals), k);
      }
    }

    /** `initializePopulation()` and the evaluation: a fresh population of
        Count(populationSize) members, each scored by its initial genome. */
    method Prepare() returns (ghost owned: set<object>)
      requires prototype.Valid() && Initializable(prototype.kind)
      modifies this`population, rand
      ensures population != null && fresh(population) && fresh(owned)
      ensures |population.individuals| == Count(populationSize)
      ensures Held(population.individuals, prototype.kind, prototype.length, owned)
      ensures forall j :: 0 <= j < |population.individuals| ==> Evaluated(population.individuals[j], fitnessFunction)
      ensures Fitnesses(population.individuals) == Scores(fitnessFunction, InitialGenomes(prototype.kind, prototype.length, rand.source, old(rand.drawn), Count(populationSize), true))
    {
      owned := Populate();
      ghost var gs := InitialGenomes(prototype.kind, prototype.length, rand.source, old(rand.drawn), Count(populationSize), true);
      EvaluateInitial(gs, owned);
    }

    /** `evaluatePopulation(population)` on the initial population, whose genomes are gs:
        each member is scored by its genome. */
    method EvaluateInitial(ghost gs: seq<Genome>, ghost owned: set<object>)
      requires population != null && |population.individuals| == |gs|
      requires Held(population.individuals, prototype.kind, prototype.length, owned)
      requires forall j :: 0 <= j < |gs| ==> population.individuals[j].Value() == gs[j]
      modifies population.individuals`fitness
      ensures Held(population.individuals, prototype.kind, prototype.length, owned)
      ensures forall j :: 0 <= j < |gs| ==> Evaluated(population.individuals[j], fitnessFunction)
      ensures Fitnesses(population.individuals) == Scores(fitnessFunction, gs)
    {
      EvaluatePopulation(population, fitnessFunction);
      ScoredBy(population.individuals, fitnessFunction, gs);
    }

    /** `population.getBestIndividual().clone()` before the loop: throws on an empty
        population. */
    method TrackFirst(ghost kind: Kind, ghost length: nat) returns (r: Result<Chromosome>, ghost k: nat)
      requires population != null && Homogeneous(population.individuals, kind, length)
      requires forall j :: 0 <= j < |population.individuals| ==> Evaluated(population.individuals[j], fitnessFunction)
      ensures Homogeneous(population.individuals, kind, length)
      ensures forall j :: 0 <= j < |population.individuals| ==> Evaluated(population.individuals[j], fitnessFunction)
      ensures Fitnesses(population.individuals) == old(Fitnesses(population.individuals))
      ensures r.Success? ==> forall j :: 0 <= j < |population.individuals| ==> population.individuals[j] != r.value
      ensures r.Failure? <==> population.individuals == []
      ensures r.Failure? ==> r.error == NullPointer
      ensures r.Success? ==> fresh(r.value) && r.value.Valid()
      ensures r.Success? ==> IsFirstBest(population.individuals, k) && IsCloneOf(r.value, population.individuals[k])
    {
      var b := population.GetBestIndividual();
      if b.None? {
        return Failure(NullPointer), 0;
      }
      k :| IsFirstBest(population.individuals, k) && population.individuals[k] == b.value;
      var c := b.value.Clone();
      return Success(c), k;
    }
  }
}
