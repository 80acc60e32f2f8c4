/** Parent selection: random, tournament and roulette-wheel
    (GeneticAlgorithmLibrary/Selection/). */
module Selections {
  import opened Outcomes
  import opened RandomSource
  import opened Chromosomes
  import opened Populations

  /** How many parents `select(population)` asks for in the tournament and roulette
      strategies. */
  const DEFAULT_PARENTS: int := 2

  /** The population indices drawn by n successive `nextInt(size)` calls, starting at
      stream position `from`. */
  function DrawnIndices(source: nat -> real, from: nat, n: nat, size: nat): (ix: seq<int>)
    ensures |ix| == n
    ensures forall i :: 0 <= i < n ==> 0 <= ix[i] && (size > 0 ==> ix[i] < size)
  {
    if n == 0 then [] else DrawnIndices(source, from, n - 1, size) + [IndexDraw(source(from + n - 1), size)]
  }

  /** Entry i of the drawn indices is the draw at stream position from + i. */
  lemma {:induction false} DrawnIndexAt(source: nat -> real, from: nat, n: nat, size: nat, i: nat)
    requires i < n
    ensures DrawnIndices(source, from, n, size)[i] == IndexDraw(source(from + i), size)
  {
    if i < n - 1 {
      DrawnIndexAt(source, from, n - 1, size, i);
    }
  }

  /** The population indices computed by n successive `(int) (Math.random() * size)`
      draws, starting at stream position `from`. */
  function CastIndices(source: nat -> real, from: nat, n: nat, size: nat): (ix: seq<int>)
    ensures |ix| == n
    ensures forall i :: 0 <= i < n ==> ix[i] == CastDraw(source(from + i), size)
    ensures forall i :: 0 <= i < n ==> 0 <= ix[i] && (size > 0 ==> ix[i] < size)
  {
    if n == 0 then [] else CastIndices(source, from, n - 1, size) + [CastDraw(source(from + n - 1), size)]
  }

  /** Every chromosome of cs is valid. */
  ghost predicate AllValid(cs: seq<Chromosome>)
    reads cs`genes
  {
    forall i :: 0 <= i < |cs| ==> cs[i].Valid()
  }

  // ---------------------------------------------------------------- random selection

  /** RandomSelection: the stored parent count is a field that `select(pop, n)`
      overwrites. */
  class RandomSelection {
    var numParents: int

    constructor (numParents: int)
      ensures this.numParents == numParents
    {
      this.numParents := numParents;
    }

    /** `select(population)`: numParents entries, each the population member at index
        `(int) (Math.random() * size)`, by reference.  On an empty population the first
        draw leads to `get(0)`, which throws. */
    method Select(pop: Population, rng: Random) returns (r: Result<seq<Chromosome>>)
      modifies rng
      ensures pop.individuals == [] && numParents > 0 ==> r == Failure(IndexOutOfBounds) && rng.drawn == old(rng.drawn) + 1
      ensures pop.individuals != [] || numParents <= 0 ==> r.Success? && rng.drawn == old(rng.drawn) + Count(numParents)
      ensures r.Success? ==> |r.value| == Count(numParents)
      ensures r.Success? ==> forall i :: 0 <= i < |r.value| ==>
        r.value[i] == pop.individuals[CastIndices(rng.source, old(rng.drawn), Count(numParents), |pop.individuals|)[i]]
      ensures r.Success? ==> forall i :: 0 <= i < |r.value| ==> r.value[i] in pop.individuals
    {
      var individuals := pop.individuals;
      ghost var d0 := rng.drawn;
      ghost var ix := CastIndices(rng.source, d0, Count(numParents), |individuals|);
      var parents: seq<Chromosome> := [];
      var i := 0;
      while i < numParents
        invariant 0 <= i <= Count(numParents) && rng.drawn == d0 + i
        invariant individuals != [] || i == 0
        invariant |parents| == i && forall j :: 0 <= j < i ==> parents[j] == individuals[ix[j]]
      {
        var u := rng.NextDouble();
        var randomIndex := ScaleToIndex(u, |individuals|);
        if randomIndex >= |individuals| {
          return Failure(IndexOutOfBounds);
        }
        parents := parents + [individuals[randomIndex]];
        i := i + 1;
      }
      return Success(parents);
    }

    /** `select(population, n)`: stores n as the parent count, then selects. */
    method SelectN(pop: Population, n: int, rng: Random) returns (r: Result<seq<Chromosome>>)
      modifies this, rng
      ensures numParents == n
      ensures pop.individuals == [] && n > 0 ==> r == Failure(IndexOutOfBounds) && rng.drawn == old(rng.drawn) + 1
      ensures pop.individuals != [] || n <= 0 ==> r.Success? && rng.drawn == old(rng.drawn) + Count(n)
      ensures r.Success? ==> |r.value| == Count(n)
      ensures r.Success? ==> forall i :: 0 <= i < |r.value| ==>
        r.value[i] == pop.individuals[CastIndices(rng.source, old(rng.drawn), Count(n), |pop.individuals|)[i]]
    {
      numParents := n;
      r := Select(pop, rng);
    }
  }

  // ---------------------------------------------------------------- tournament selection

  /** A tournament size the TournamentSelection constructor accepts. */
  type TournamentSize = k: int | k >= 2 witness 2

  /** Every sampled index is a position of fs. */
  ghost predicate SampleIn(fs: seq<real>, sample: seq<int>) {
    forall j :: 0 <= j < |sample| ==> 0 <= sample[j] < |fs|
  }

  /** Among the first m sampled candidates, the one at position p is the first of maximal
      fitness, where fs holds the population's fitness values. */
  ghost predicate IsFirstBestSampled(fs: seq<real>, sample: seq<int>, m: nat, p: nat)
    requires m <= |sample| && SampleIn(fs, sample)
  {
    p < m
    && (forall j :: 0 <= j < m ==> fs[sample[j]] <= fs[sample[p]])
    && (forall j :: 0 <= j < p ==> fs[sample[j]] < fs[sample[p]])
  }

  /** The position of the winner among the first m sampled candidates, scanned left to
      right with a later candidate replacing the current one only when strictly fitter. */
  function Winner(fs: seq<real>, sample: seq<int>, m: nat): (p: nat)
    requires 0 < m <= |sample| && SampleIn(fs, sample)
    ensures p < m
  {
    if m == 1 then 0
    else
      var p := Winner(fs, sample, m - 1);
      if fs[sample[m - 1]] > fs[sample[p]] then m - 1 else p
  }

  /** The scan finds the first sampled candidate of maximal fitness. */
  lemma {:induction false} WinnerIsFirstBest(fs: seq<real>, sample: seq<int>, m: nat)
    requires 0 < m <= |sample| && SampleIn(fs, sample)
    ensures IsFirstBestSampled(fs, sample, m, Winner(fs, sample, m))
  {
    if m > 1 {
      WinnerIsFirstBest(fs, sample, m - 1);
    }
  }

  /** The population index that wins the tournament whose t candidates are drawn from
      stream position `from`. */
  function TournamentPick(fs: seq<real>, source: nat -> real, from: nat, t: TournamentSize): (k: int)
    requires |fs| > 0
    ensures 0 <= k < |fs|
  {
    var sample := DrawnIndices(source, from, t, |fs|);
    sample[Winner(fs, sample, t)]
  }

  /** The stream position at which tournament number i starts when the first starts at
      `from` and each draws t values. */
  function TournamentStart(from: nat, i: nat, t: TournamentSize): (p: nat)
    ensures p >= from
  {
    if i == 0 then from else TournamentStart(from, i - 1, t) + t
  }

  /** The winners of n successive tournaments of t draws each, the first drawing from
      stream position `from`. */
  function TournamentPicks(fs: seq<real>, source: nat -> real, from: nat, n: nat, t: TournamentSize): (w: seq<int>)
    requires |fs| > 0
    ensures |w| == n
    ensures forall i :: 0 <= i < n ==> 0 <= w[i] < |fs|
  {
    if n == 0 then []
    else TournamentPicks(fs, source, from, n - 1, t) + [TournamentPick(fs, source, TournamentStart(from, n - 1, t), t)]
  }

  /** The winner of a tournament is one of its candidates, no candidate is fitter, and
      every candidate drawn before it is strictly less fit. */
  lemma TournamentPickIsFirstBest(fs: seq<real>, source: nat -> real, from: nat, t: TournamentSize)
    requires |fs| > 0
    ensures exists p ::
      && 0 <= p < t
      && TournamentPick(fs, source, from, t) == DrawnIndices(source, from, t, |fs|)[p]
      && IsFirstBestSampled(fs, DrawnIndices(source, from, t, |fs|), t, p)
  {
    var sample := DrawnIndices(source, from, t, |fs|);
    WinnerIsFirstBest(fs, sample, t);
    var p := Winner(fs, sample, t);
    assert TournamentPick(fs, source, from, t) == sample[p];
  }

  /** `new TournamentSelection(tournamentSize)`: sizes below 2 are rejected. */
  function NewTournamentSelection(tournamentSize: int): (r: Result<SelectionMethod>)
    ensures tournamentSize < 2 ==> r == Failure(TournamentTooSmall)
    ensures tournamentSize >= 2 ==> r == Success(TournamentSelection(tournamentSize))
  {
    if tournamentSize < 2 then Failure(TournamentTooSmall) else Success(TournamentSelection(tournamentSize))
  }

  /** One tournament: t candidates drawn with `nextInt(size)`, the first fittest kept;
      fs holds the fitness of each chromosome of cs. */
  method RunTournament(cs: seq<Chromosome>, ghost fs: seq<real>, t: TournamentSize, rng: Random) returns (best: Chromosome)
    requires |cs| > 0 && |fs| == |cs| && forall i :: 0 <= i < |cs| ==> cs[i].fitness == fs[i]
    modifies rng
    ensures rng.drawn == old(rng.drawn) + t
    ensures best == cs[TournamentPick(fs, rng.source, old(rng.drawn), t)]
  {
    ghost var d0 := rng.drawn;
    ghost var sample := DrawnIndices(rng.source, d0, t, |cs|);
    ghost var p := 0;
    var current: Chromosome? := null;
    for j := 0 to t
      invariant rng.drawn == d0 + j
      invariant j == 0 ==> current == null
      invariant j > 0 ==> p == Winner(fs, sample, j) && current == cs[sample[p]]
    {
      var index := rng.NextInt(|cs|);
      DrawnIndexAt(rng.source, d0, t, |cs|, j);
      var candidate := cs[index];
      if current == null || candidate.fitness > current.fitness {
        current := candidate;
        p := j;
      }
    }
    best := current;
  }

  /** Clones each chromosome of src, in order.  The strategies that return clones take
      them after all their draws; cloning draws nothing and changes nothing, so the
      result is the one of cloning each pick as it is made. */
  method CloneEach(src: seq<Chromosome>) returns (out: seq<Chromosome>)
    requires AllValid(src)
    ensures |out| == |src| && AllValid(out) && Separate(out)
    ensures forall j :: 0 <= j < |out| ==> fresh(out[j]) && fresh(out[j].genes.Buffer())
    ensures forall j :: 0 <= j < |out| ==> IsCloneOf(out[j], src[j])
  {
    out := [];
    for i := 0 to |src|
      invariant |out| == i && AllValid(out) && Separate(out)
      invariant forall j :: 0 <= j < i ==> fresh(out[j]) && fresh(out[j].genes.Buffer())
      invariant forall j :: 0 <= j < i ==> IsCloneOf(out[j], src[j])
    {
      var copy := src[i].Clone();
      out := out + [copy];
    }
  }

  /** The outer loop of TournamentSelection's `select`: the winners of numParents
      tournaments, by reference, before they are cloned; fs holds the fitness of each
      chromosome of cs. */
  method TournamentWinners(cs: seq<Chromosome>, ghost fs: seq<real>, t: TournamentSize, numParents: int, rng: Random)
    returns (winners: seq<Chromosome>)
    requires |cs| > 0 && |fs| == |cs| && forall i :: 0 <= i < |cs| ==> cs[i].fitness == fs[i]
    modifies rng
    ensures |winners| == Count(numParents)
    ensures forall j :: 0 <= j < |winners| ==>
      winners[j] == cs[TournamentPicks(fs, rng.source, old(rng.drawn), Count(numParents), t)[j]]
  {
    ghost var d0 := rng.drawn;
    ghost var picks: seq<int> := [];
    winners := [];
    var i := 0;
    while i < numParents
      invariant 0 <= i <= Count(numParents) && |winners| == i
      invariant rng.drawn == TournamentStart(d0, i, t)
      invariant picks == TournamentPicks(fs, rng.source, d0, i, t)
      invariant forall j :: 0 <= j < i ==> winners[j] == cs[picks[j]]
      invariant forall j :: 0 <= j < |cs| ==> cs[j].fitness == fs[j]
    {
      picks := picks + [TournamentPick(fs, rng.source, rng.drawn, t)];
      var winner := RunTournament(cs, fs, t, rng);
      winners := winners + [winner];
      i := i + 1;
    }
  }

  /** `select(population, numParents)` of TournamentSelection: numParents fresh clones of
      tournament winners.  On an empty population the first `nextInt(0)` throws. */
  method TournamentSelect(t: TournamentSize, pop: Population, numParents: int, rng: Random) returns (r: Result<seq<Chromosome>>)
    requires AllValid(pop.individuals)
    modifies rng
    ensures pop.individuals == [] && numParents > 0 ==> r == Failure(NonPositiveBound)
    ensures pop.individuals != [] || numParents <= 0 ==> r.Success?
    ensures r.Success? ==> |r.value| == Count(numParents) && AllValid(r.value) && Separate(r.value)
    ensures r.Success? ==> forall i :: 0 <= i < |r.value| ==> fresh(r.value[i]) && fresh(r.value[i].genes.Buffer())
    ensures r.Success? && pop.individuals != [] ==>
      var picks := TournamentPicks(old(Fitnesses(pop.individuals)), rng.source, old(rng.drawn), |r.value|, t);
      forall i :: 0 <= i < |r.value| ==> IsCloneOf(r.value[i], pop.individuals[picks[i]])
  {
    var individuals := pop.individuals;
    if individuals == [] {
      if numParents > 0 {
        return Failure(NonPositiveBound);
      }
      return Success([]);
    }
    var winners := TournamentWinners(individuals, Fitnesses(individuals), t, numParents, rng);
    var selected := CloneEach(winners);
    return Success(selected);
  }

  // ---------------------------------------------------------------- roulette-wheel selection

  /** The first k fitness values added up. */
  function PrefixFitness(fs: seq<real>, k: nat): real
    requires k <= |fs|
  {
    if k == 0 then 0.0 else PrefixFitness(fs, k - 1) + fs[k - 1]
  }

  function TotalFitness(fs: seq<real>): real {
    PrefixFitness(fs, |fs|)
  }

  /** With no negative fitness, every prefix sum is non-negative. */
  lemma {:induction false} PrefixFitnessNonNegative(fs: seq<real>, k: nat)
    requires k <= |fs|
    requires forall i :: 0 <= i < |fs| ==> fs[i] >= 0.0
    ensures PrefixFitness(fs, k) >= 0.0
  {
    if k > 0 {
      PrefixFitnessNonNegative(fs, k - 1);
    }
  }

  /** None of the first k running sums reaches `point`. */
  ghost predicate RunningBelow(fs: seq<real>, point: real, k: nat)
    requires k <= |fs|
  {
    forall j :: 0 < j <= k ==> PrefixFitness(fs, j) < point
  }

  /** k is the first index whose running fitness sum reaches `point`. */
  ghost predicate ReachesFirst(fs: seq<real>, point: real, k: nat) {
    k < |fs| && PrefixFitness(fs, k + 1) >= point && RunningBelow(fs, point, k)
  }

  /** The wheel's pick for `point`, scanning from index k: the first index whose running
      sum reaches the point, or None when no running sum does. */
  function SpinFrom(fs: seq<real>, point: real, k: nat): (r: Option<nat>)
    requires k <= |fs|
    requires RunningBelow(fs, point, k)
    ensures r.Some? ==> ReachesFirst(fs, point, r.value)
    ensures r.None? ==> RunningBelow(fs, point, |fs|)
    decreases |fs| - k
  {
    if k == |fs| then None
    else if PrefixFitness(fs, k + 1) >= point then Some(k)
    else SpinFrom(fs, point, k + 1)
  }

  /** A point no greater than the total of a non-empty population always lands. */
  lemma SpinLands(fs: seq<real>, point: real)
    requires fs != [] && point <= TotalFitness(fs)
    ensures SpinFrom(fs, point, 0).Some?
  {
  }

  /** The wheel point of one spin: `nextDouble() * totalFitness`. */
  function SpinPoint(fs: seq<real>, x: real): real {
    Scale(TotalFitness(fs), UnitInterval(x))
  }

  /** The population indices picked by n spins drawn from stream position `from`; a spin
      whose point no running sum reaches adds nothing. */
  function RoulettePicks(fs: seq<real>, source: nat -> real, from: nat, n: nat): (w: seq<int>)
    ensures |w| <= n
    ensures forall i :: 0 <= i < |w| ==> 0 <= w[i] < |fs|
  {
    if n == 0 then []
    else
      var w := RoulettePicks(fs, source, from, n - 1);
      match SpinFrom(fs, SpinPoint(fs, source(from + n - 1)), 0)
      case Some(k) => w + [k]
      case None => w
  }

  /** With a positive total every spin lands, so n spins pick n individuals. */
  lemma {:induction false} RoulettePicksComplete(fs: seq<real>, source: nat -> real, from: nat, n: nat)
    requires TotalFitness(fs) > 0.0
    ensures |RoulettePicks(fs, source, from, n)| == n
  {
    if n > 0 {
      RoulettePicksComplete(fs, source, from, n - 1);
      FractionOfWidth(TotalFitness(fs), UnitInterval(source(from + n - 1)));
      SpinLands(fs, SpinPoint(fs, source(from + n - 1)));
    }
  }

  /** The `totalFitness` accumulation loop. */
  method SumFitness(cs: seq<Chromosome>) returns (total: real)
    ensures total == TotalFitness(Fitnesses(cs))
  {
    ghost var fs := Fitnesses(cs);
    total := 0.0;
    for k := 0 to |cs|
      invariant total == PrefixFitness(fs, k)
    {
      total := total + cs[k].fitness;
    }
  }

  /** One spin of the wheel: the running-sum loop that stops at the first individual whose
      running sum reaches the point; fs holds the fitness of each chromosome of cs. */
  method Spin(cs: seq<Chromosome>, ghost fs: seq<real>, point: real) returns (pick: Option<nat>)
    requires |fs| == |cs| && forall i :: 0 <= i < |cs| ==> cs[i].fitness == fs[i]
    ensures pick == SpinFrom(fs, point, 0)
    ensures pick.Some? ==> ReachesFirst(fs, point, pick.value)
  {
    var runningSum := 0.0;
    var k := 0;
    while k < |cs|
      invariant k <= |cs| && runningSum == PrefixFitness(fs, k)
      invariant RunningBelow(fs, point, k)
      invariant SpinFrom(fs, point, k) == SpinFrom(fs, point, 0)
    {
      runningSum := runningSum + cs[k].fitness;
      if runningSum >= point {
        return Some(k);
      }
      k := k + 1;
    }
    return None;
  }

  /** The all-zero branch of RouletteWheelSelection's `select`: the members at numParents
      `nextInt(size)` indices, by reference, before they are cloned. */
  method UniformPicks(cs: seq<Chromosome>, numParents: int, rng: Random) returns (picked: seq<Chromosome>)
    requires |cs| > 0 || numParents <= 0
    modifies rng
    ensures |picked| == Count(numParents)
    ensures forall j :: 0 <= j < |picked| ==>
      picked[j] == cs[DrawnIndices(rng.source, old(rng.drawn), Count(numParents), |cs|)[j]]
  {
    ghost var d0 := rng.drawn;
    ghost var ix := DrawnIndices(rng.source, d0, Count(numParents), |cs|);
    picked := [];
    var i := 0;
    while i < numParents
      invariant 0 <= i <= Count(numParents) && rng.drawn == d0 + i
      invariant |picked| == i && forall j :: 0 <= j < i ==> picked[j] == cs[ix[j]]
    {
      var index := rng.NextInt(|cs|);
      DrawnIndexAt(rng.source, d0, Count(numParents), |cs|, i);
      picked := picked + [cs[index]];
      i := i + 1;
    }
  }

  /** The spinning branch of RouletteWheelSelection's `select`: one spin per parent, each
      keeping its pick, if any, by reference, before they are cloned. */
  method SpinPicks(cs: seq<Chromosome>, ghost fs: seq<real>, totalFitness: real, numParents: int, rng: Random)
    returns (picked: seq<Chromosome>)
    requires |fs| == |cs| && forall i :: 0 <= i < |cs| ==> cs[i].fitness == fs[i]
    requires totalFitness == TotalFitness(fs)
    modifies rng
    ensures |picked| == |RoulettePicks(fs, rng.source, old(rng.drawn), Count(numParents))|
    ensures forall j :: 0 <= j < |picked| ==>
      picked[j] == cs[RoulettePicks(fs, rng.source, old(rng.drawn), Count(numParents))[j]]
  {
    ghost var d0 := rng.drawn;
    picked := [];
    var i := 0;
    while i < numParents
      invariant 0 <= i <= Count(numParents) && rng.drawn == d0 + i
      invariant forall j :: 0 <= j < |cs| ==> cs[j].fitness == fs[j]
      invariant |picked| == |RoulettePicks(fs, rng.source, d0, i)|
      invariant forall j :: 0 <= j < |picked| ==> picked[j] == cs[RoulettePicks(fs, rng.source, d0, i)[j]]
    {
      var u := rng.NextDouble();
      var point := Scale(totalFitness, u);
      var pick := Spin(cs, fs, point);
      if pick.Some? {
        picked := picked + [cs[pick.value]];
      }
      i := i + 1;
    }
  }

  /** `select(population, numParents)` of RouletteWheelSelection.  With a zero total the
      parents are clones at `nextInt(size)` indices (which throws on an empty population);
      otherwise each spin adds a clone of its pick, if it has one. */
  method RouletteSelect(pop: Population, numParents: int, rng: Random) returns (r: Result<seq<Chromosome>>)
    requires AllValid(pop.individuals)
    modifies rng
    ensures pop.individuals == [] && numParents > 0 ==> r == Failure(NonPositiveBound)
    ensures pop.individuals != [] || numParents <= 0 ==> r.Success?
    ensures r.Success? ==> |r.value| <= Count(numParents) && AllValid(r.value) && Separate(r.value)
    ensures r.Success? ==> forall i :: 0 <= i < |r.value| ==> fresh(r.value[i]) && fresh(r.value[i].genes.Buffer())
    ensures r.Success? && TotalFitness(old(Fitnesses(pop.individuals))) == 0.0 ==>
      && |r.value| == Count(numParents)
      && forall i :: 0 <= i < |r.value| ==>
           IsCloneOf(r.value[i], pop.individuals[DrawnIndices(rng.source, old(rng.drawn), Count(numParents), |pop.individuals|)[i]])
    ensures r.Success? && TotalFitness(old(Fitnesses(pop.individuals))) != 0.0 ==>
      var picks := RoulettePicks(old(Fitnesses(pop.individuals)), rng.source, old(rng.drawn), Count(numParents));
      |r.value| == |picks| && forall i :: 0 <= i < |r.value| ==> IsCloneOf(r.value[i], pop.individuals[picks[i]])
    ensures r.Success? && (forall i :: 0 <= i < |pop.individuals| ==> pop.individuals[i].fitness >= 0.0) ==>
      |r.value| == Count(numParents)
  {
    var individuals := pop.individuals;
    ghost var fs := Fitnesses(individuals);
    var totalFitness := SumFitness(individuals);
    var picked: seq<Chromosome>;
    if totalFitness == 0.0 {
      if individuals == [] && numParents > 0 {
        return Failure(NonPositiveBound);
      }
      picked := UniformPicks(individuals, numParents, rng);
    } else {
      if forall i :: 0 <= i < |individuals| ==> individuals[i].fitness >= 0.0 {
        PrefixFitnessNonNegative(fs, |fs|);
        RoulettePicksComplete(fs, rng.source, rng.drawn, Count(numParents));
      }
      picked := SpinPicks(individuals, fs, totalFitness, numParents, rng);
    }
    var selected := CloneEach(picked);
    return Success(selected);
  }

  // ---------------------------------------------------------------- the strategy interface

  /** SelectionMethod: the three strategies. */
  datatype SelectionMethod =
    | RandomSelectionOf(random: RandomSelection)
    | TournamentSelection(tournamentSize: TournamentSize)
    | RouletteWheelSelection

  /** Valid clones of members of a population of one class and length have that class
      and length. */
  lemma ClonesKeepShape(out: seq<Chromosome>, src: seq<Chromosome>, picks: seq<int>, kind: Kind, length: nat)
    requires Homogeneous(src, kind, length) && AllValid(out) && |out| == |picks|
    requires forall i :: 0 <= i < |out| ==> 0 <= picks[i] < |src| && IsCloneOf(out[i], src[picks[i]])
    ensures Homogeneous(out, kind, length)
  {
  }

  /** `select(population)`: the random strategy uses its stored count, the others ask for
      two parents, which roulette gets in full when no fitness is negative; only an empty
      population fails (for the random strategy, with a positive count).  The parents of a population of one class and length have that class
      and length; the tournament and roulette parents are fresh, separate clones, and the
      random ones are population members. */
  method Select(m: SelectionMethod, pop: Population, rng: Random, ghost kind: Kind, ghost length: nat)
    returns (r: Result<seq<Chromosome>>)
    requires Homogeneous(pop.individuals, kind, length)
    modifies rng
    ensures r.Success? ==> Homogeneous(r.value, kind, length)
    ensures r.Success? && !m.RandomSelectionOf? ==>
      && Separate(r.value)
      && forall i :: 0 <= i < |r.value| ==> fresh(r.value[i]) && fresh(r.value[i].genes.Buffer())
    ensures r.Success? && m.RandomSelectionOf? ==> forall i :: 0 <= i < |r.value| ==> r.value[i] in pop.individuals
    ensures m.RandomSelectionOf? ==> (r.Failure? <==> pop.individuals == [] && m.random.numParents > 0)
    ensures !m.RandomSelectionOf? ==> (r.Failure? <==> pop.individuals == [])
    ensures r.Success? && m.RandomSelectionOf? ==> |r.value| == Count(m.random.numParents)
    ensures r.Success? && m.TournamentSelection? ==> |r.value| == DEFAULT_PARENTS
    ensures r.Success? && m.RouletteWheelSelection? ==> |r.value| <= DEFAULT_PARENTS
    ensures r.Success? && m.RouletteWheelSelection? && (forall i :: 0 <= i < |pop.individuals| ==> pop.individuals[i].fitness >= 0.0) ==>
      |r.value| == DEFAULT_PARENTS
  {
    ghost var fs := Fitnesses(pop.individuals);
    ghost var d0 := rng.drawn;
    match m
    case RandomSelectionOf(random) =>
      r := random.Select(pop, rng);
    case TournamentSelection(t) =>
      r := TournamentSelect(t, pop, DEFAULT_PARENTS, rng);
      if r.Success? {
        ClonesKeepShape(r.value, pop.individuals, TournamentPicks(fs, rng.source, d0, |r.value|, t), kind, length);
      }
    case RouletteWheelSelection =>
      r := RouletteSelect(pop, DEFAULT_PARENTS, rng);
      if r.Success? && TotalFitness(fs) == 0.0 {
        ClonesKeepShape(r.value, pop.individuals, DrawnIndices(rng.source, d0, Count(DEFAULT_PARENTS), |pop.individuals|), kind, length);
      } else if r.Success? {
        ClonesKeepShape(r.value, pop.individuals, RoulettePicks(fs, rng.source, d0, Count(DEFAULT_PARENTS)), kind, length);
      }
  }
}
