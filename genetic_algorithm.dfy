/** The older generational loop, GeneticAlgorithm (GeneticAlgorithmLibrary/GeneticAlgorithm.java).
    It differs from GAEngine in three ways: the initial chromosomes are copies of the
    prototype with no seed drawn, an optional infeasibility handler repairs offspring
    between mutation and replacement, and the best individual is kept as the chromosome
    itself rather than as a clone. */
module GeneticAlgorithms {
  import opened Outcomes
  import opened RandomSource
  import opened Chromosomes
  import opened Populations
  import opened Selections
  import opened Crossovers
  import opened Mutations
  import opened Replacements
  import opened Engines

  // ------------------------------------------------------------------ infeasibility

  /** What a repair may do to a chromosome: leave it with genes of its own class and
      length (a chromosome's class and length never change). */
  type Repairer = f: Genome -> Genes | forall v :: SameShape(f(v), v.genes) witness (v: Genome) => v.genes

  /** InfeasibilityHandler: `isInfeasible` and `repair`, as functions of what they see of
      a chromosome; `repair` gives the genes the chromosome is left with. */
  datatype InfeasibilityHandler = InfeasibilityHandler(isInfeasible: Genome -> bool, repair: Repairer)

  /** The genes a child with genome v is left with after the handler's pass over the
      offspring. */
  function Repaired(h: InfeasibilityHandler, v: Genome): Genes {
    if h.isInfeasible(v) then h.repair(v) else v.genes
  }

  /** A new Java array holding the genes g. */
  method NewGeneArray(g: Genes) returns (a: GeneArray)
    ensures fresh(a.Buffer()) && a.Read() == g
  {
    match g
    case Bits(s) =>
      var b := new bool[|s|](i requires 0 <= i < |s| => s[i]);
      assert b[..] == s;
      a := BoolArray(b);
    case Ints(s) =>
      var b := new int32[|s|](i requires 0 <= i < |s| => s[i]);
      assert b[..] == s;
      a := IntArray(b);
    case Reals(s) =>
      var b := new real[|s|](i requires 0 <= i < |s| => s[i]);
      assert b[..] == s;
      a := RealArray(b);
  }

  /** `infeasibilityHandler.repair(child)`: the child's genes become h's repair of them,
      in a new array. */
  method Repair(h: InfeasibilityHandler, child: Chromosome)
    requires child.Valid()
    modifies child`genes
    ensures child.Valid() && fresh(child.genes.Buffer())
    ensures child.Contents() == h.repair(old(child.Value()))
  {
    ValidEncodes(child);
    var a := NewGeneArray(h.repair(child.Value()));
    child.genes := a;
  }

  /** The handler's pass over the offspring (lines 159-165 of `run()`): each child h finds
      infeasible is repaired, every other child keeps its genes. */
  method RepairInfeasible(h: InfeasibilityHandler, offspring: seq<Chromosome>, ghost kind: Kind, ghost length: nat)
    requires Homogeneous(offspring, kind, length) && Separate(offspring)
    modifies offspring`genes
    ensures Homogeneous(offspring, kind, length) && Separate(offspring)
    ensures forall j :: 0 <= j < |offspring| ==> offspring[j].Contents() == Repaired(h, old(offspring[j].Value()))
    ensures forall j :: 0 <= j < |offspring| ==>
      offspring[j].genes == old(offspring[j].genes) || fresh(offspring[j].genes.Buffer())
  {
    ghost var vs := seq(|offspring|, j requires 0 <= j < |offspring| reads offspring, Buffers(offspring) => offspring[j].Value());
    for i := 0 to |offspring|
      invariant Homogeneous(offspring, kind, length) && Separate(offspring)
      invariant forall j :: 0 <= j < i ==> offspring[j].Contents() == Repaired(h, vs[j])
      invariant forall j :: i <= j < |offspring| ==> offspring[j].genes == old(offspring[j].genes) && offspring[j].Value() == vs[j]
      invariant forall j :: 0 <= j < |offspring| ==>
        offspring[j].genes == old(offspring[j].genes) || fresh(offspring[j].genes.Buffer())
    {
      RepairAt(h, offspring[i], offspring, i, vs, kind, length);
    }
  }

  /** One pass of the handler's loop, on child i. */
  method RepairAt(h: InfeasibilityHandler, child: Chromosome, ghost offspring: seq<Chromosome>, ghost i: nat,
                  ghost vs: seq<Genome>, ghost kind: Kind, ghost length: nat)
    requires i < |offspring| == |vs| && child == offspring[i] && child.Value() == vs[i]
    requires Homogeneous(offspring, kind, length) && Separate(offspring)
    modifies child`genes
    ensures Homogeneous(offspring, kind, length) && Separate(offspring)
    ensures child.Contents() == Repaired(h, vs[i])
    ensures child.genes == old(child.genes) || fresh(child.genes.Buffer())
    ensures forall j :: 0 <= j < |offspring| && j != i ==>
      offspring[j].genes == old(offspring[j].genes) && offspring[j].Value() == old(offspring[j].Value())
  {
    if h.isInfeasible(child.Value()) {
      Repair(h, child);
    }
  }

  // ------------------------------------------------------------------ the best kept

  /** The largest of the fitness values fs. */
  function Largest(fs: seq<real>): (m: real)
    requires |fs| > 0
    ensures forall j :: 0 <= j < |fs| ==> fs[j] <= m
    ensures exists j :: 0 <= j < |fs| && fs[j] == m
  {
    if |fs| == 1 then fs[0]
    else
      var m := Largest(fs[..|fs| - 1]);
      assert forall j :: 0 <= j < |fs| - 1 ==> fs[..|fs| - 1][j] == fs[j];
      if fs[|fs| - 1] > m then fs[|fs| - 1] else m
  }

  /** A position of the largest of fs. */
  function LargestAt(fs: seq<real>): (k: nat)
    requires |fs| > 0
    ensures k < |fs| && fs[k] == Largest(fs)
    ensures forall j :: 0 <= j < |fs| ==> fs[j] <= fs[k]
  {
    if |fs| == 1 then 0
    else
      var k := LargestAt(fs[..|fs| - 1]);
      assert fs[..|fs| - 1][k] == fs[k];
      if fs[|fs| - 1] > fs[k] then |fs| - 1 else k
  }

  /** after is what the tracking step keeps when the newly evaluated generation has the
      fitness values fs and the best kept so far has fitness before at the comparison:
      the generation's best if that is strictly greater, before otherwise. */
  ghost predicate IsKept(fs: seq<real>, before: real, after: real) {
    |fs| > 0 && after == if Largest(fs) > before then Largest(fs) else before
  }

  /** The record of `run()`: evaluated[g] holds the fitness values of generation g (0 being
      the initial population), kept[g] the fitness of the best kept after generation g and
      rescored[g] the fitness that best had when generation g was compared with it.
      kept[0] is the best of the initial population, and each later kept[g] is what the
      tracking step keeps (IsKept) from generation g and rescored[g]. */
  ghost predicate KeepsBest(evaluated: seq<seq<real>>, rescored: seq<real>, kept: seq<real>)
    decreases |kept|
  {
    && |evaluated| == |rescored| == |kept| > 0
    && var n := |kept| - 1;
       if n == 0 then |evaluated[0]| > 0 && kept[0] == Largest(evaluated[0])
       else KeepsBest(evaluated[..n], rescored[..n], kept[..n]) && IsKept(evaluated[n], rescored[n], kept[n])
  }

  /** One generation more of the record, fs[k] being the best of the new generation. */
  lemma NextKept(evaluated: seq<seq<real>>, rescored: seq<real>, kept: seq<real>, fs: seq<real>, k: nat,
                 before: real, after: real)
    requires KeepsBest(evaluated, rescored, kept)
    requires k < |fs| && forall j :: 0 <= j < |fs| ==> fs[j] <= fs[k]
    requires after == if fs[k] > before then fs[k] else before
    ensures KeepsBest(evaluated + [fs], rescored + [before], kept + [after])
  {
    assert Largest(fs) == fs[k];
    var n := |kept|;
    assert (evaluated + [fs])[..n] == evaluated && (rescored + [before])[..n] == rescored && (kept + [after])[..n] == kept;
    assert (evaluated + [fs])[n] == fs && (rescored + [before])[n] == before && (kept + [after])[n] == after;
  }

  /** The best kept after the last generation is at least as fit as every member of it. */
  lemma LastKeptIsLargest(evaluated: seq<seq<real>>, rescored: seq<real>, kept: seq<real>, last: seq<real>)
    requires KeepsBest(evaluated, rescored, kept) && last == evaluated[|evaluated| - 1]
    ensures forall j :: 0 <= j < |last| ==> last[j] <= kept[|kept| - 1]
  {
  }

  /** The chromosome kept after the last generation is at least as fit as every member of
      the population evaluated last. */
  lemma FittestKept(cs: seq<Chromosome>, evaluated: seq<seq<real>>, rescored: seq<real>, kept: seq<real>,
                    best: Chromosome)
    requires KeepsBest(evaluated, rescored, kept)
    requires Fitnesses(cs) == evaluated[|evaluated| - 1] && kept[|kept| - 1] == best.fitness
    ensures forall j :: 0 <= j < |cs| ==> cs[j].fitness <= best.fitness
  {
    LastKeptIsLargest(evaluated, rescored, kept, Fitnesses(cs));
  }

  /** When the best kept is never rescored, that is, its fitness at each comparison is the
      one it was kept with, GeneticAlgorithm's record is GAEngine's: kept[g] is the best
      fitness over generations 0..g, which never decreases (BestSoFarNeverDecreases). */
  lemma {:induction false} UnrescoredKeepsBestSoFar(evaluated: seq<seq<real>>, rescored: seq<real>, kept: seq<real>)
    requires KeepsBest(evaluated, rescored, kept)
    requires forall g :: 1 <= g < |kept| ==> rescored[g] == kept[g - 1]
    ensures TracksBest(evaluated, kept)
  {
    var n := |kept| - 1;
    if n == 0 {
      var k := LargestAt(evaluated[0]);
      FirstBestSoFar(evaluated[0], k);
      assert evaluated == [evaluated[0]] && kept == [kept[0]];
    } else {
      forall g | 1 <= g < n ensures rescored[..n][g] == kept[..n][g - 1] {
        assert rescored[g] == kept[g - 1];
      }
      UnrescoredKeepsBestSoFar(evaluated[..n], rescored[..n], kept[..n]);
      var fs := evaluated[n];
      var k := LargestAt(fs);
      assert kept[..n][n - 1] == rescored[n];
      NextBestSoFar(evaluated[..n], kept[..n], fs, k, kept[n]);
      assert evaluated[..n] + [evaluated[n]] == evaluated;
      assert kept[..n] + [kept[n]] == kept;
    }
  }

  /** The state `run()` enters its loop in: cs is a non-empty list of chromosomes of class
      kind and length n, all scored by f, and best is one of the fittest of them. */
  ghost predicate Ready(cs: seq<Chromosome>, kind: Kind, n: nat, f: FitnessFunction, best: Chromosome, owned: set<object>)
    reads cs, Buffers(cs), best
  {
    Held(cs, kind, n, owned) && Scored(cs, f) && cs != [] && best.fitness == Largest(Fitnesses(cs))
  }

  /** The record of `run()` so far (KeepsBest) describes the population cs, all scored by
      f, whose fitness values it holds last, and best, whose fitness it keeps last. */
  ghost predicate Recorded(cs: seq<Chromosome>, f: FitnessFunction, evaluated: seq<seq<real>>, rescored: seq<real>,
                           kept: seq<real>, best: Chromosome)
    reads cs, Buffers(cs), best
  {
    && KeepsBest(evaluated, rescored, kept)
    && kept[|kept| - 1] == best.fitness
    && Fitnesses(cs) == evaluated[|evaluated| - 1]
    && Scored(cs, f)
  }

  // ------------------------------------------------------------------ GeneticAlgorithm

  class GeneticAlgorithm {
    const populationSize: int
    const generations: int
    const crossoverRate: real
    const mutationRate: real
    var selectionMethod: Option<SelectionMethod>
    var crossoverMethod: Option<CrossoverMethod>
    var mutationMethod: Option<MutationMethod>
    var replacementStrategy: Option<ReplacementMethod>
    const fitnessFunction: FitnessFunction
    var infeasibilityHandler: Option<InfeasibilityHandler>
    const chromosomePrototype: Chromosome
    var population: Population?
    /** Every draw: the chromosomes' own random initialization and the strategies'. */
    const rand: Random

    /** The constructor: the four strategies and the infeasibility handler start unset and
        there is no population. */
    constructor (populationSize: int, generations: int, crossoverRate: real, mutationRate: real,
                 chromosomePrototype: Chromosome, fitnessFunction: FitnessFunction, rand: Random)
      ensures this.populationSize == populationSize && this.generations == generations
      ensures this.crossoverRate == crossoverRate && this.mutationRate == mutationRate
      ensures this.chromosomePrototype == chromosomePrototype && this.fitnessFunction == fitnessFunction
      ensures this.rand == rand
      ensures selectionMethod.None? && crossoverMethod.None? && mutationMethod.None? && replacementStrategy.None?
      ensures infeasibilityHandler.None? && population == null
    {
      this.populationSize := populationSize;
      this.generations := generations;
      this.crossoverRate := crossoverRate;
      this.mutationRate := mutationRate;
      this.chromosomePrototype := chromosomePrototype;
      this.fitnessFunction := fitnessFunction;
      this.rand := rand;
      selectionMethod := None;
      crossoverMethod := None;
      mutationMethod := None;
      replacementStrategy := None;
      infeasibilityHandler := None;
      population := null;
    }

    method SetSelectionMethod(m: SelectionMethod)
      modifies this`selectionMethod
      ensures selectionMethod == Some(m)
    {
      selectionMethod := Some(m);
    }

    method SetCrossoverMethod(m: CrossoverMethod)
      modifies this`crossoverMethod
      ensures crossoverMethod == Some(m)
    {
      crossoverMethod := Some(m);
    }

    method SetMutationMethod(m: MutationMethod)
      modifies this`mutationMethod
      ensures mutationMethod == Some(m)
    {
      mutationMethod := Some(m);
    }

    method SetReplacementStrategy(m: ReplacementMethod)
      modifies this`replacementStrategy
      ensures replacementStrategy == Some(m)
    {
      replacementStrategy := Some(m);
    }

    /** `setInfeasibilityHandler`: None switches the repair pass off again. */
    method SetInfeasibilityHandler(h: Option<InfeasibilityHandler>)
      modifies this`infeasibilityHandler
      ensures infeasibilityHandler == h
    {
      infeasibilityHandler := h;
    }

    /** All four strategies are set, as `run()` demands (the handler is optional). */
    predicate Configured()
      reads this`selectionMethod, this`crossoverMethod, this`mutationMethod, this`replacementStrategy
    {
      selectionMethod.Some? && crossoverMethod.Some? && mutationMethod.Some? && replacementStrategy.Some?
    }

    /** `initializePopulation`: a new population of populationSize (none when it is not
        positive) separate copies of the prototype, copy i randomly initialized from the
        draws that start at Start(old drawn, i, length), that is i * length further on
        (StartIsLinear); InitializedMeans spells the list out. */
    method InitializePopulation() returns (ghost owned: set<object>)
      requires chromosomePrototype.Valid() && Initializable(chromosomePrototype.kind)
      modifies this`population, rand
      ensures population != null && fresh(population) && population.size == populationSize
      ensures |population.individuals| == Count(populationSize)
      ensures rand.drawn == Start(old(rand.drawn), Count(populationSize), chromosomePrototype.length)
      ensures Initialized(population.individuals, chromosomePrototype, rand.source, old(rand.drawn), false)
      ensures fresh(owned) && forall c :: c in population.individuals ==> c in owned && c.genes.Buffer() in owned
    {
      var pop;
      pop, owned := InitialPopulation(chromosomePrototype, rand, populationSize, false);
      BuffersAreNotAlgorithms(pop.individuals, this);
      population := pop;
    }

    /** `initializePopulation()` as `run()` relies on it: a new population of
        populationSize new chromosomes of the prototype's class and length. */
    method Populate() returns (ghost owned: set<object>)
      requires chromosomePrototype.Valid() && Initializable(chromosomePrototype.kind)
      modifies this`population, rand
      ensures population != null && fresh(population) && fresh(owned)
      ensures |population.individuals| == Count(populationSize)
      ensures Held(population.individuals, chromosomePrototype.kind, chromosomePrototype.length, owned)
      ensures forall j :: 0 <= j < |population.individuals| ==>
        population.individuals[j].Value() ==
        InitialGenomes(chromosomePrototype.kind, chromosomePrototype.length, rand.source, old(rand.drawn), Count(populationSize), false)[j]
    {
      ghost var d0 := rand.drawn;
      owned := InitializePopulation();
      InitializedMeans(population.individuals, chromosomePrototype, rand.source, d0, false);
      InitializedGenomes(population.individuals, chromosomePrototype, rand.source, d0, false);
    }

    /** What `run()` does before its loop: `initializePopulation()`, the evaluation and
        `getBestIndividual()`, whose `getFitness()` throws on the empty population a
        non-positive populationSize gives.  The best is a member of the population, not a
        copy. */
    method Begin() returns (r: Result<Chromosome>, ghost owned: set<object>)
      requires chromosomePrototype.Valid() && Initializable(chromosomePrototype.kind)
      modifies this`population, rand
      ensures population != null && fresh(population) && fresh(owned)
      ensures |population.individuals| == Count(populationSize)
      ensures Fitnesses(population.individuals) == Scores(fitnessFunction, InitialGenomes(chromosomePrototype.kind, chromosomePrototype.length, rand.source, old(rand.drawn), Count(populationSize), false))
      ensures r.Failure? <==> populationSize <= 0
      ensures r.Failure? ==> r.error == NullPointer
      ensures r.Success? ==> r.value in population.individuals
      ensures r.Success? ==>
        Ready(population.individuals, chromosomePrototype.kind, chromosomePrototype.length, fitnessFunction, r.value, owned)
    {
      owned := Prepare();
      r := FirstBest(owned);
    }

    /** `initializePopulation()` and the evaluation: a fresh population of
        Count(populationSize) members, each scored by its initial genome. */
    method Prepare() returns (ghost owned: set<object>)
      requires chromosomePrototype.Valid() && Initializable(chromosomePrototype.kind)
      modifies this`population, rand
      ensures population != null && fresh(population) && fresh(owned)
      ensures |population.individuals| == Count(populationSize)
      ensures Held(population.individuals, chromosomePrototype.kind, chromosomePrototype.length, owned)
      ensures Scored(population.individuals, fitnessFunction)
      ensures Fitnesses(population.individuals) == Scores(fitnessFunction, InitialGenomes(chromosomePrototype.kind, chromosomePrototype.length, rand.source, old(rand.drawn), Count(populationSize), false))
    {
      owned := Populate();
      ghost var gs := InitialGenomes(chromosomePrototype.kind, chromosomePrototype.length, rand.source, old(rand.drawn), Count(populationSize), false);
      EvaluateInitial(gs, owned);
    }

    /** `evaluatePopulation(population)` on the initial population, whose genomes are gs:
        each member is scored by its genome, and no gene array changes. */
    method EvaluateInitial(ghost gs: seq<Genome>, ghost owned: set<object>)
      requires population != null && Held(population.individuals, chromosomePrototype.kind, chromosomePrototype.length, owned)
      requires |population.individuals| == |gs|
      requires forall j :: 0 <= j < |gs| ==> population.individuals[j].Value() == gs[j]
      modifies population.individuals`fitness
      ensures Held(population.individuals, chromosomePrototype.kind, chromosomePrototype.length, owned)
      ensures Scored(population.individuals, fitnessFunction)
      ensures Fitnesses(population.individuals) == Scores(fitnessFunction, gs)
    {
      EvaluatePopulation(population, fitnessFunction);
      ScoredBy(population.individuals, fitnessFunction, gs);
    }

    /** `population.getBestIndividual()` before the loop, with the `getFitness()` that
        throws when it is null. */
    method FirstBest(ghost owned: set<object>) returns (r: Result<Chromosome>)
      requires population != null
      requires Held(population.individuals, chromosomePrototype.kind, chromosomePrototype.length, owned)
      requires Scored(population.individuals, fitnessFunction)
      ensures r.Failure? <==> population.individuals == []
      ensures r.Failure? ==> r.error == NullPointer
      ensures r.Success? ==> r.value in population.individuals
      ensures r.Success? ==> population.individuals != [] && r.value.fitness == Largest(Fitnesses(population.individuals))
      ensures r.Success? ==>
        Ready(population.individuals, chromosomePrototype.kind, chromosomePrototype.length, fitnessFunction, r.value, owned)
    {
      var best := population.GetBestIndividual();
      if best.None? {
        return Failure(NullPointer);
      }
      ghost var k :| IsFirstBest(population.individuals, k) && population.individuals[k] == best.value;
      assert Largest(Fitnesses(population.individuals)) == best.value.fitness;
      r := Success(best.value);
    }

    /** `run()`: throws when a strategy is unset; otherwise initializes and evaluates the
        population, keeps its best and runs `generations` generations, recorded as
        KeepsBest describes.  The best returned is at least as fit as every member of the
        final population. */
    method Run() returns (r: Result<Chromosome>, ghost evaluated: seq<seq<real>>, ghost rescored: seq<real>,
                          ghost kept: seq<real>)
      requires chromosomePrototype.Valid() && Initializable(chromosomePrototype.kind)
      modifies this`population, rand
      ensures !Configured() ==> r == Failure(MissingComponent) && population == old(population) && rand.drawn == old(rand.drawn)
      ensures Configured() && populationSize <= 0 ==> r == Failure(NullPointer)
      ensures r.Success? ==> population != null && |evaluated| == Count(generations) + 1
      ensures r.Success? ==> Recorded(population.individuals, fitnessFunction, evaluated, rescored, kept, r.value)
      ensures r.Success? ==> evaluated[0] == Scores(fitnessFunction, InitialGenomes(chromosomePrototype.kind, chromosomePrototype.length, rand.source, old(rand.drawn), Count(populationSize), false))
      ensures r.Success? ==> forall j :: 0 <= j < |population.individuals| ==> population.individuals[j].fitness <= r.value.fitness
    {
      if !Configured() {
        return Failure(MissingComponent), [], [], [];
      }
      r, evaluated, rescored, kept := RunConfigured();
      if r.Success? {
        FittestKept(population.individuals, evaluated, rescored, kept, r.value);
      }
    }

    /** `run()` once every strategy is set. */
    method RunConfigured() returns (r: Result<Chromosome>, ghost evaluated: seq<seq<real>>, ghost rescored: seq<real>,
                                    ghost kept: seq<real>)
      requires Configured() && chromosomePrototype.Valid() && Initializable(chromosomePrototype.kind)
      modifies this`population, rand
      ensures populationSize <= 0 ==> r == Failure(NullPointer)
      ensures r.Success? ==> population != null && |evaluated| == Count(generations) + 1
      ensures r.Success? ==> Recorded(population.individuals, fitnessFunction, evaluated, rescored, kept, r.value)
      ensures r.Success? ==> evaluated[0] == Scores(fitnessFunction, InitialGenomes(chromosomePrototype.kind, chromosomePrototype.length, rand.source, old(rand.drawn), Count(populationSize), false))
    {
      var first;
      ghost var owned;
      first, owned := Begin();
      if first.Failure? {
        return Failure(first.error), [], [], [];
      }
      r, evaluated, rescored, kept := Evolve(first.value, owned);
    }

    /** `run()`'s loop, `gen` from 0 to generations - 1, from the initial population and
        its best. */
    method Evolve(best: Chromosome, ghost owned: set<object>)
      returns (r: Result<Chromosome>, ghost evaluated: seq<seq<real>>, ghost rescored: seq<real>, ghost kept: seq<real>)
      requires Configured() && population != null && this !in owned
      requires Ready(population.individuals, chromosomePrototype.kind, chromosomePrototype.length, fitnessFunction, best, owned)
      modifies this`population, rand, population, owned
      ensures r.Success? ==> population != null && |evaluated| == Count(generations) + 1
      ensures r.Success? ==> Recorded(population.individuals, fitnessFunction, evaluated, rescored, kept, r.value)
      ensures r.Success? ==> evaluated[0] == old(Fitnesses(population.individuals))
      ensures r.Success? ==> rescored[0] == old(best.fitness) && kept[0] == old(best.fitness)
    {
      var current := best;
      evaluated := [Fitnesses(population.individuals)];
      rescored := [best.fitness];
      kept := [best.fitness];
      ghost var fs0, m0 := evaluated[0], best.fitness;
      ghost var grown := owned;
      var gen := 0;
      while gen < generations
        invariant 0 <= gen <= Count(generations) && |evaluated| == gen + 1
        invariant population == old(population) && owned <= grown && fresh(grown - owned)
        invariant Held(population.individuals, chromosomePrototype.kind, chromosomePrototype.length, grown)
        invariant Recorded(population.individuals, fitnessFunction, evaluated, rescored, kept, current)
        invariant evaluated[0] == fs0 && rescored[0] == m0 && kept[0] == m0
      {
        var o;
        o, current, evaluated, rescored, kept, grown := Step(current, evaluated, rescored, kept, grown);
        if o.Fail? {
          return Failure(o.error), evaluated, rescored, kept;
        }
        gen := gen + 1;
      }
      return Success(current), evaluated, rescored, kept;
    }

    /** One pass of `run()`'s loop with its record: evaluated gains the fitness values of
        the new generation, rescored the fitness best has when compared with them (its
        fitness after the generation, which may have rescored it) and kept the fitness of
        the best kept, which is best or a member of the new generation. */
    method Step(best: Chromosome, ghost evaluated: seq<seq<real>>, ghost rescored: seq<real>, ghost kept: seq<real>,
                ghost owned: set<object>)
      returns (r: Outcome, next: Chromosome, ghost evaluated': seq<seq<real>>, ghost rescored': seq<real>,
               ghost kept': seq<real>, ghost owned': set<object>)
      requires Configured() && population != null && this !in owned
      requires Held(population.individuals, chromosomePrototype.kind, chromosomePrototype.length, owned)
      requires KeepsBest(evaluated, rescored, kept)
      modifies this`population, rand, population, owned
      ensures population == old(population) && owned <= owned' && fresh(owned' - owned)
      ensures r.Pass? ==> Held(population.individuals, chromosomePrototype.kind, chromosomePrototype.length, owned')
      ensures r.Pass? ==> evaluated' == evaluated + [Fitnesses(population.individuals)]
      ensures r.Pass? ==> rescored' == rescored + [best.fitness] && kept' == kept + [next.fitness]
      ensures r.Pass? ==> next == best || next in population.individuals
      ensures r.Pass? ==> Recorded(population.individuals, fitnessFunction, evaluated', rescored', kept', next)
    {
      r := Generation(chromosomePrototype.kind, chromosomePrototype.length, owned);
      if r.Fail? {
        return r, best, evaluated, rescored, kept, owned;
      }
      var t;
      ghost var k: nat;
      t, k := TrackBest(best);
      if t.Failure? {
        return Fail(t.error), best, evaluated, rescored, kept, owned;
      }
      next := t.value;
      Adopted(population.individuals, owned);
      owned' := owned + Members(population.individuals) + Buffers(population.individuals);
      ghost var fs := Fitnesses(population.individuals);
      NextKept(evaluated, rescored, kept, fs, k, best.fitness, next.fitness);
      evaluated' := evaluated + [fs];
      rescored' := rescored + [best.fitness];
      kept' := kept + [next.fitness];
    }

    /** `run()`'s loop body up to the tracking step: select, cross, mutate, repair the
        infeasible offspring, replace and re-evaluate.  The population keeps its class and
        length; its members are old ones, whose gene arrays are the old ones or new, or new
        chromosomes, all scored by the fitness function. */
    method Generation(ghost kind: Kind, ghost length: nat, ghost owned: set<object>) returns (r: Outcome)
      requires Configured()
      requires population != null && Held(population.individuals, kind, length, owned)
      modifies this`population, rand, population, population.individuals`genes, population.individuals`fitness,
        Buffers(population.individuals)
      ensures population == old(population)
      ensures r.Pass? ==> Homogeneous(population.individuals, kind, length)
      ensures r.Pass? ==> forall c :: c in population.individuals ==>
        (c in owned || fresh(c)) && (c.genes.Buffer() in owned || fresh(c.genes.Buffer()))
      ensures r.Pass? ==> Scored(population.individuals, fitnessFunction)
    {
      var offspring := Reproduce(kind, length, owned);
      if offspring.Failure? {
        return Fail(offspring.error);
      }
      var replaced := ReplaceAndEvaluate(offspring.value, kind, length);
      if replaced.Failure? {
        return Fail(replaced.error);
      }
      return Pass;
    }

    /** Selection, crossover, mutation and the repair pass: a new population of the new
        offspring for the replacement, while the population's members keep their class and
        length and their gene arrays are the old ones or new. */
    method Reproduce(ghost kind: Kind, ghost length: nat, ghost owned: set<object>) returns (r: Result<Population>)
      requires Configured()
      requires population != null && Homogeneous(population.individuals, kind, length)
      requires forall c :: c in population.individuals ==> c.genes.Buffer() in owned
      modifies rand, population.individuals`genes, Buffers(population.individuals)
      ensures population.individuals == old(population.individuals)
      ensures Homogeneous(population.individuals, kind, length)
      ensures forall c :: c in population.individuals ==> c.genes.Buffer() in owned || fresh(c.genes.Buffer())
      ensures r.Success? ==> fresh(r.value) && Homogeneous(r.value.individuals, kind, length)
      ensures r.Success? ==> forall j :: 0 <= j < |r.value.individuals| ==>
        fresh(r.value.individuals[j]) && fresh(r.value.individuals[j].genes.Buffer())
    {
      var bred := Breed(selectionMethod.value, crossoverMethod.value, mutationMethod.value, population,
                        crossoverRate, mutationRate, rand, kind, length);
      if bred.Failure? {
        return Failure(bred.error);
      }
      var offspring := bred.value;
      if infeasibilityHandler.Some? {
        RepairInfeasible(infeasibilityHandler.value, offspring, kind, length);
      }
      var offspringPopulation := new Population(|offspring|);
      offspringPopulation.SetIndividuals(offspring);
      return Success(offspringPopulation);
    }

    /** `population = replacementStrategy.replace(population, offspring)` and the
        re-evaluation: the members are old ones or new, all scored by the fitness function;
        no gene array of an old member changes. */
    method ReplaceAndEvaluate(offspringPopulation: Population, ghost kind: Kind, ghost length: nat)
      returns (r: Result<Population>)
      requires Configured() && population != null && offspringPopulation != population
      requires Homogeneous(population.individuals, kind, length)
      requires Homogeneous(offspringPopulation.individuals, kind, length)
      modifies this`population, rand, population, population.individuals`fitness
      ensures population == old(population)
      ensures forall c :: c in old(population.individuals) ==> c.genes == old(c.genes)
      ensures r.Success? ==> Homogeneous(population.individuals, kind, length)
      ensures r.Success? ==> forall c :: c in population.individuals ==>
        c in old(population.individuals) || (fresh(c) && fresh(c.genes.Buffer()))
      ensures r.Success? ==> Scored(population.individuals, fitnessFunction)
    {
      r := Replace(replacementStrategy.value, population, offspringPopulation, rand, kind, length);
      if r.Failure? {
        return;
      }
      population := r.value;
      EvaluatePopulation(population, fitnessFunction);
    }

    /** The tracking step at the end of each generation: `getBestIndividual()` is null on
        an empty population, so its `getFitness()` throws; a strictly fitter current best
        becomes best itself, with no copy.  No score changes. */
    method TrackBest(best: Chromosome) returns (r: Result<Chromosome>, ghost k: nat)
      requires population != null && Scored(population.individuals, fitnessFunction)
      ensures Scored(population.individuals, fitnessFunction)
      ensures r.Failure? <==> population.individuals == []
      ensures r.Failure? ==> r.error == NullPointer
      ensures r.Success? ==> IsFirstBest(population.individuals, k)
      ensures r.Success? ==>
        if population.individuals[k].fitness > best.fitness then r.value == population.individuals[k] else r.value == best
    {
      var currentBest := population.GetBestIndividual();
      if currentBest.None? {
        return Failure(NullPointer), 0;
      }
      k :| IsFirstBest(population.individuals, k) && population.individuals[k] == currentBest.value;
      if currentBest.value.fitness > best.fitness {
        return Success(currentBest.value), k;
      }
      return Success(best), k;
    }
  }

  /** A gene buffer is never a GeneticAlgorithm. */
  lemma BuffersAreNotAlgorithms(cs: seq<Chromosome>, e: GeneticAlgorithm)
    ensures e !in Buffers(cs)
  {
  }
}
