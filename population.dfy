/** The population: an ordered list of chromosomes with best and worst queries
    (GeneticAlgorithmLibrary/Population.java). */
module Populations {
  import opened Outcomes
  import opened Chromosomes

  /** k is the first index of cs whose fitness is maximal: no individual is fitter, and
      every earlier one is strictly less fit. */
  ghost predicate IsFirstBest(cs: seq<Chromosome>, k: int)
    reads cs`fitness
  {
    0 <= k < |cs|
    && (forall i :: 0 <= i < |cs| ==> cs[i].fitness <= cs[k].fitness)
    && (forall i :: 0 <= i < k ==> cs[i].fitness < cs[k].fitness)
  }

  /** The first best of cs holds the largest of its fitness values. */
  lemma FirstBestFitnesses(cs: seq<Chromosome>, k: int)
    requires IsFirstBest(cs, k)
    ensures 0 <= k < |Fitnesses(cs)| && forall j :: 0 <= j < |Fitnesses(cs)| ==> Fitnesses(cs)[j] <= Fitnesses(cs)[k]
  {
  }

  /** k is the first index of cs whose fitness is minimal. */
  ghost predicate IsFirstWorst(cs: seq<Chromosome>, k: int)
    reads cs`fitness
  {
    0 <= k < |cs|
    && (forall i :: 0 <= i < |cs| ==> cs[k].fitness <= cs[i].fitness)
    && (forall i :: 0 <= i < k ==> cs[k].fitness < cs[i].fitness)
  }

  /** The fitness of each chromosome of cs, in order. */
  function Fitnesses(cs: seq<Chromosome>): (fs: seq<real>)
    reads cs`fitness
    ensures |fs| == |cs|
    ensures forall i :: 0 <= i < |cs| ==> fs[i] == cs[i].fitness
  {
    if cs == [] then [] else Fitnesses(cs[..|cs| - 1]) + [cs[|cs| - 1].fitness]
  }

  class Population {
    /** The capacity passed to the constructor; the operations never consult it. */
    const size: int
    var individuals: seq<Chromosome>

    constructor (size: int)
      ensures this.size == size && individuals == []
    {
      this.size := size;
      individuals := [];
    }

    /** `add`: appends one chromosome at the end. */
    method Add(chromosome: Chromosome)
      modifies this`individuals
      ensures individuals == old(individuals) + [chromosome]
    {
      individuals := individuals + [chromosome];
    }

    /** `setIndividuals`: the population now holds the given list. */
    method SetIndividuals(newIndividuals: seq<Chromosome>)
      modifies this`individuals
      ensures individuals == newIndividuals
    {
      individuals := newIndividuals;
    }

    /** `replace`: clears the list and adds all of the given ones, in order. */
    method Replace(newIndividuals: seq<Chromosome>)
      modifies this`individuals
      ensures individuals == newIndividuals
    {
      individuals := [];
      for i := 0 to |newIndividuals|
        invariant individuals == newIndividuals[..i]
      {
        individuals := individuals + [newIndividuals[i]];
      }
    }

    /** `getSize`: the number of stored individuals (not the constructor's capacity). */
    function GetSize(): (n: nat)
      reads this
      ensures n == |individuals|
    {
      |individuals|
    }

    /** `getBestIndividual`: null (None) for an empty population, otherwise the first
        individual of maximal fitness. */
    method GetBestIndividual() returns (r: Option<Chromosome>)
      ensures r.None? <==> individuals == []
      ensures r.Some? ==> exists k :: IsFirstBest(individuals, k) && individuals[k] == r.value
    {
      if individuals == [] {
        return None;
      }
      var best := individuals[0];
      ghost var k := 0;
      for i := 0 to |individuals|
        invariant 0 <= k < |individuals| && best == individuals[k] && k <= i
        invariant forall j :: 0 <= j < i ==> individuals[j].fitness <= best.fitness
        invariant forall j :: 0 <= j < k ==> individuals[j].fitness < best.fitness
      {
        if individuals[i].fitness > best.fitness {
          best := individuals[i];
          k := i;
        }
      }
      return Some(best);
    }

    /** `getWorstIndividual`: null (None) for an empty population, otherwise the first
        individual of minimal fitness. */
    method GetWorstIndividual() returns (r: Option<Chromosome>)
      ensures r.None? <==> individuals == []
      ensures r.Some? ==> exists k :: IsFirstWorst(individuals, k) && individuals[k] == r.value
    {
      if individuals == [] {
        return None;
      }
      var worst := individuals[0];
      ghost var k := 0;
      for i := 0 to |individuals|
        invariant 0 <= k < |individuals| && worst == individuals[k] && k <= i
        invariant forall j :: 0 <= j < i ==> worst.fitness <= individuals[j].fitness
        invariant forall j :: 0 <= j < k ==> worst.fitness < individuals[j].fitness
      {
        if individuals[i].fitness < worst.fitness {
          worst := individuals[i];
          k := i;
        }
      }
      return Some(worst);
    }
  }

  /** A gene buffer is never a population: adding to one leaves every gene as it is. */
  lemma BuffersAreNotPopulations(cs: seq<Chromosome>, p: Population)
    ensures forall j :: 0 <= j < |cs| ==> cs[j].genes.Buffer() != p
    ensures p !in Buffers(cs)
  {
  }
}
