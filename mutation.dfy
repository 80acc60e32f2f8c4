/** The mutation strategies (GeneticAlgorithmLibrary/Mutation/).  Each one walks the list,
    skips the chromosomes of the other classes, changes the genes of `getGenes()` in place
    one by one and hands the array back to `setGenes`, which stores a copy.  Every gene
    draws once against the mutation rate; a gene of IntegerNeighbor or FloatUniform that
    is mutated draws a second time for its change. */
module Mutations {
  import opened Outcomes
  import opened RandomSource
  import opened Chromosomes

  /** The strategy, with the noise scale FloatUniformMutation is constructed with. */
  datatype MutationMethod = BitFlip | IntegerNeighbor | FloatUniform(noiseScale: real)

  /** The noise scale of `new FloatUniformMutation()`. */
  const DefaultNoiseScale: real := 0.05

  /** The class of chromosome a strategy mutates. */
  predicate Applies(m: MutationMethod, k: Kind) {
    match m
    case BitFlip => k.Binary?
    case IntegerNeighbor => k.Integer?
    case FloatUniform(_) => k.Float?
  }

  /** The draw of raw value x is below the mutation rate. */
  predicate Hit(x: real, rate: real) {
    UnitInterval(x) < rate
  }

  // ---------------------------------------------------------------- BitFlipMutation

  /** BitFlip's decisions for n genes whose draws start at `from`: one draw per gene. */
  function FlipMask(source: nat -> real, from: nat, n: nat, rate: real): (m: seq<bool>)
    ensures |m| == n
  {
    seq(n, j requires 0 <= j => Hit(source(from + j), rate))
  }

  /** The bits, negated where the mask is set. */
  function Flip(bits: seq<bool>, mask: seq<bool>): (r: seq<bool>)
    requires |mask| == |bits|
    ensures |r| == |bits|
  {
    seq(|bits|, j requires 0 <= j < |bits| => if mask[j] then !bits[j] else bits[j])
  }

  /** Each gene is kept or negated, and it is negated exactly where the mask is set. */
  lemma FlipEachGene(bits: seq<bool>, mask: seq<bool>, i: nat)
    requires |mask| == |bits| && i < |bits|
    ensures Flip(bits, mask)[i] == bits[i] || Flip(bits, mask)[i] == !bits[i]
    ensures Flip(bits, mask)[i] != bits[i] <==> mask[i]
  {
  }

  /** Flipping twice under one mask restores the genes. */
  lemma FlipTwice(bits: seq<bool>, mask: seq<bool>)
    requires |mask| == |bits|
    ensures Flip(Flip(bits, mask), mask) == bits
  {
    assert forall j :: 0 <= j < |bits| ==> Flip(Flip(bits, mask), mask)[j] == bits[j];
  }

  /** A rate of at most 0 flips nothing; a rate of at least 1 flips every gene. */
  lemma FlipRates(bits: seq<bool>, source: nat -> real, from: nat, rate: real)
    ensures rate <= 0.0 ==> Flip(bits, FlipMask(source, from, |bits|, rate)) == bits
    ensures rate >= 1.0 ==> Flip(bits, FlipMask(source, from, |bits|, rate)) == seq(|bits|, j requires 0 <= j < |bits| => !bits[j])
  {
    var mask := FlipMask(source, from, |bits|, rate);
    var r := Flip(bits, mask);
    forall j | 0 <= j < |bits|
      ensures rate <= 0.0 ==> r[j] == bits[j]
      ensures rate >= 1.0 ==> r[j] == !bits[j]
    {
      assert mask[j] == (UnitInterval(source(from + j)) < rate);
    }
  }

  /** The gene loop of BitFlipMutation on the array `getGenes()` returned. */
  method FlipBits(a: array<bool>, rate: real, rng: Random)
    modifies a, rng
    ensures rng.drawn == old(rng.drawn) + a.Length
    ensures a[..] == Flip(old(a[..]), FlipMask(rng.source, old(rng.drawn), a.Length, rate))
  {
    ghost var d0, g0 := rng.drawn, a[..];
    ghost var mask := FlipMask(rng.source, d0, a.Length, rate);
    for i := 0 to a.Length
      invariant rng.drawn == d0 + i
      invariant forall j :: 0 <= j < i ==> a[j] == Flip(g0, mask)[j]
      invariant forall j :: i <= j < a.Length ==> a[j] == g0[j]
    {
      ghost var x := rng.Peek(0);
      var u := rng.NextDouble();
      assert x == rng.source(d0 + i) && mask[i] == Hit(x, rate);
      if u < rate {
        a[i] := !a[i];
      }
    }
    assert a[..] == Flip(g0, mask);
  }

  // ------------------------------------------- IntegerNeighbor and FloatUniform draws

  /** Where the draws of gene i start, for genes whose draws start at `from`: a gene whose
      first draw is below the rate draws twice, any other gene once. */
  function GeneDraw(source: nat -> real, from: nat, rate: real, i: nat): (p: nat)
    ensures p >= from + i
  {
    if i == 0 then from
    else
      var p := GeneDraw(source, from, rate, i - 1);
      p + (if Hit(source(p), rate) then 2 else 1)
  }

  /** n genes draw between n and 2n times: n with a rate of at most 0, 2n with a rate of at
      least 1. */
  lemma {:induction false} GeneDrawCount(source: nat -> real, from: nat, rate: real, n: nat)
    ensures from + n <= GeneDraw(source, from, rate, n) <= from + 2 * n
    ensures rate <= 0.0 ==> GeneDraw(source, from, rate, n) == from + n
    ensures rate >= 1.0 ==> GeneDraw(source, from, rate, n) == from + 2 * n
  {
    if n > 0 {
      GeneDrawCount(source, from, rate, n - 1);
    }
  }

  // ---------------------------------------------------------- IntegerNeighborMutation

  /** `Math.max(min, Math.min(max, x))` on unbounded integers. */
  function ClampInt(lo: int, hi: int, x: int): int {
    var m := if x <= hi then x else hi;
    if lo >= m then lo else m
  }

  /** A gene moved by `change` and clamped, on unbounded integers (the intended
      computation; see NeighborGeneAsWritten). */
  function NeighborGene(g: int32, lo: int32, hi: int32, change: int): (r: int32)
    ensures lo <= hi ==> lo <= r <= hi
  {
    ClampInt(lo as int, hi as int, g as int + change) as int32
  }

  /** The gene as the Java code computes it: `genes[i] + change` is an `int` sum, which
      wraps around past the 32-bit range before it is clamped. */
  function NeighborGeneAsWritten(g: int32, lo: int32, hi: int32, change: int): (r: int32)
    ensures lo <= hi ==> lo <= r <= hi
  {
    ClampInt(lo as int, hi as int, Wrap(g as int + change) as int) as int32
  }

  /** Within the 32-bit range the two agree: they differ only when the sum overflows. */
  lemma NeighborAsWrittenAgrees(g: int32, lo: int32, hi: int32, change: int)
    requires change == -1 || change == 1
    requires INT32_MIN <= g as int + change <= INT32_MAX
    ensures NeighborGeneAsWritten(g, lo, hi, change) == NeighborGene(g, lo, hi, change)
  {
  }

  /** The overflow: a gene at the upper bound Integer.MAX_VALUE that moves up wraps to
      Integer.MIN_VALUE and is clamped to the lower bound, a jump of 2^31 - 1 instead of
      staying where it is. */
  lemma NeighborOverflow()
    ensures NeighborGeneAsWritten(INT32_MAX as int32, 0, INT32_MAX as int32, 1) == 0
    ensures NeighborGene(INT32_MAX as int32, 0, INT32_MAX as int32, 1) == INT32_MAX as int32
  {
    assert Wrap(INT32_MAX + 1) as int == INT32_MIN;
  }

  /** `Math.random() < 0.5 ? -1 : 1` for raw value x. */
  function Change(x: real): (c: int)
    ensures c == -1 || c == 1
  {
    if UnitInterval(x) < 0.5 then -1 else 1
  }

  /** Gene i after IntegerNeighborMutation, for genes whose draws start at `from`. */
  function NeighborAt(g: seq<int32>, lo: int32, hi: int32, source: nat -> real, from: nat, rate: real, i: nat): int32
    requires i < |g|
  {
    var p := GeneDraw(source, from, rate, i);
    if Hit(source(p), rate) then NeighborGene(g[i], lo, hi, Change(source(p + 1))) else g[i]
  }

  /** All genes after IntegerNeighborMutation. */
  function Neighbor(g: seq<int32>, lo: int32, hi: int32, source: nat -> real, from: nat, rate: real): (r: seq<int32>)
    ensures |r| == |g|
  {
    seq(|g|, i requires 0 <= i < |g| => NeighborAt(g, lo, hi, source, from, rate, i))
  }

  /** Each gene moves by at most 1; a mutated gene lands in [min, max], so genes within
      the bounds stay within them; a gene whose draw is not below the rate is kept. */
  lemma NeighborMoves(g: seq<int32>, lo: int32, hi: int32, source: nat -> real, from: nat, rate: real, i: nat)
    requires lo <= hi && i < |g| && lo <= g[i] <= hi
    ensures var r := Neighbor(g, lo, hi, source, from, rate)[i];
      && lo <= r <= hi
      && -1 <= r as int - g[i] as int <= 1
      && (!Hit(source(GeneDraw(source, from, rate, i)), rate) ==> r == g[i])
  {
    var p := GeneDraw(source, from, rate, i);
    assert Neighbor(g, lo, hi, source, from, rate)[i] == NeighborAt(g, lo, hi, source, from, rate, i);
    if Hit(source(p), rate) {
      var c := Change(source(p + 1));
      assert NeighborAt(g, lo, hi, source, from, rate, i) == NeighborGene(g[i], lo, hi, c);
    }
  }

  /** Neighbor applies the corrected step; on every gene strictly between
      Integer.MIN_VALUE and Integer.MAX_VALUE that is also the Java step, wrapping sum
      and all, so the two differ only at those two values (NeighborOverflow). */
  lemma NeighborMatchesWritten(g: seq<int32>, lo: int32, hi: int32, source: nat -> real, from: nat, rate: real, i: nat)
    requires i < |g| && INT32_MIN < g[i] as int < INT32_MAX
    ensures var p := GeneDraw(source, from, rate, i);
      Neighbor(g, lo, hi, source, from, rate)[i] ==
        if Hit(source(p), rate) then NeighborGeneAsWritten(g[i], lo, hi, Change(source(p + 1))) else g[i]
  {
    var p := GeneDraw(source, from, rate, i);
    assert Neighbor(g, lo, hi, source, from, rate)[i] == NeighborAt(g, lo, hi, source, from, rate, i);
    NeighborAsWrittenAgrees(g[i], lo, hi, Change(source(p + 1)));
  }

  /** With a rate of at most 0 IntegerNeighborMutation leaves the genes as they are. */
  lemma NeighborAtRateZero(g: seq<int32>, lo: int32, hi: int32, source: nat -> real, from: nat, rate: real)
    requires rate <= 0.0
    ensures Neighbor(g, lo, hi, source, from, rate) == g
  {
    assert forall i :: 0 <= i < |g| ==> Neighbor(g, lo, hi, source, from, rate)[i] == g[i];
  }

  /** The gene loop of IntegerNeighborMutation on the array `getGenes()` returned. */
  method NeighborInts(a: array<int32>, lo: int32, hi: int32, rate: real, rng: Random)
    modifies a, rng
    ensures rng.drawn == GeneDraw(rng.source, old(rng.drawn), rate, a.Length)
    ensures a[..] == Neighbor(old(a[..]), lo, hi, rng.source, old(rng.drawn), rate)
  {
    ghost var d0, g0 := rng.drawn, a[..];
    for i := 0 to a.Length
      invariant rng.drawn == GeneDraw(rng.source, d0, rate, i)
      invariant forall j :: 0 <= j < i ==> a[j] == NeighborAt(g0, lo, hi, rng.source, d0, rate, j)
      invariant forall j :: i <= j < a.Length ==> a[j] == g0[j]
    {
      var u := rng.NextDouble();
      if u < rate {
        var v := rng.NextDouble();
        var change := if v < 0.5 then -1 else 1;
        a[i] := NeighborGene(a[i], lo, hi, change);
      }
    }
    assert a[..] == Neighbor(g0, lo, hi, rng.source, d0, rate);
  }

  // ------------------------------------------------------------- FloatUniformMutation

  function Abs(x: real): real {
    if x < 0.0 then -x else x
  }

  /** `Math.max(min, Math.min(max, x))` on reals. */
  function ClampReal(lo: real, hi: real, x: real): real {
    var m := if x <= hi then x else hi;
    if lo >= m then lo else m
  }

  /** `(max - min) * noiseScale`: the largest step. */
  function MaxStep(lo: real, hi: real, noiseScale: real): real {
    (hi - lo) * noiseScale
  }

  /** `(Math.random() * 2 - 1) * maxStep` for a draw u. */
  function Step(u: real, maxStep: real): real {
    (u * 2.0 - 1.0) * maxStep
  }

  /** A step is never longer than the largest step. */
  lemma StepBound(u: real, maxStep: real)
    requires 0.0 <= u < 1.0
    ensures Abs(Step(u, maxStep)) <= Abs(maxStep)
  {
    var f := u * 2.0 - 1.0;
    assert -1.0 <= f < 1.0;
    if maxStep >= 0.0 {
      ProductNonNegative(1.0 - f, maxStep);
      ProductNonNegative(f + 1.0, maxStep);
      assert (1.0 - f) * maxStep == maxStep - f * maxStep;
      assert (f + 1.0) * maxStep == f * maxStep + maxStep;
    } else {
      ProductNonNegative(1.0 - f, -maxStep);
      ProductNonNegative(f + 1.0, -maxStep);
      assert (1.0 - f) * -maxStep == f * maxStep - maxStep;
      assert (f + 1.0) * -maxStep == -(f * maxStep) - maxStep;
    }
  }

  /** With the default noise scale a step is at most a twentieth of the range. */
  lemma DefaultStepBound(lo: real, hi: real, u: real)
    requires lo < hi && 0.0 <= u < 1.0
    ensures Abs(Step(u, MaxStep(lo, hi, DefaultNoiseScale))) <= (hi - lo) / 20.0
  {
    StepBound(u, MaxStep(lo, hi, DefaultNoiseScale));
  }

  /** Gene i after FloatUniformMutation, for genes whose draws start at `from`. */
  function UniformAt(g: seq<real>, lo: real, hi: real, maxStep: real, source: nat -> real, from: nat, rate: real, i: nat): real
    requires i < |g|
  {
    var p := GeneDraw(source, from, rate, i);
    if Hit(source(p), rate) then ClampReal(lo, hi, g[i] + Step(UnitInterval(source(p + 1)), maxStep)) else g[i]
  }

  /** All genes after FloatUniformMutation. */
  function Uniform(g: seq<real>, lo: real, hi: real, maxStep: real, source: nat -> real, from: nat, rate: real): (r: seq<real>)
    ensures |r| == |g|
  {
    seq(|g|, i requires 0 <= i < |g| => UniformAt(g, lo, hi, maxStep, source, from, rate, i))
  }

  /** A mutated gene lands in [min, max], so genes within the bounds stay within them;
      each moves by at most the largest step; a gene whose draw is not below the rate is
      kept. */
  lemma UniformMoves(g: seq<real>, lo: real, hi: real, maxStep: real, source: nat -> real, from: nat, rate: real, i: nat)
    requires lo < hi && i < |g| && lo <= g[i] <= hi
    ensures var r := Uniform(g, lo, hi, maxStep, source, from, rate)[i];
      && lo <= r <= hi
      && Abs(r - g[i]) <= Abs(maxStep)
      && (!Hit(source(GeneDraw(source, from, rate, i)), rate) ==> r == g[i])
  {
    var p := GeneDraw(source, from, rate, i);
    assert Uniform(g, lo, hi, maxStep, source, from, rate)[i] == UniformAt(g, lo, hi, maxStep, source, from, rate, i);
    if Hit(source(p), rate) {
      StepBound(UnitInterval(source(p + 1)), maxStep);
    }
  }

  /** With a rate of at most 0 FloatUniformMutation leaves the genes as they are. */
  lemma UniformAtRateZero(g: seq<real>, lo: real, hi: real, maxStep: real, source: nat -> real, from: nat, rate: real)
    requires rate <= 0.0
    ensures Uniform(g, lo, hi, maxStep, source, from, rate) == g
  {
    assert forall i :: 0 <= i < |g| ==> Uniform(g, lo, hi, maxStep, source, from, rate)[i] == g[i];
  }

  /** The gene loop of FloatUniformMutation on the array `getGenes()` returned. */
  method UniformReals(a: array<real>, lo: real, hi: real, maxStep: real, rate: real, rng: Random)
    modifies a, rng
    ensures rng.drawn == GeneDraw(rng.source, old(rng.drawn), rate, a.Length)
    ensures a[..] == Uniform(old(a[..]), lo, hi, maxStep, rng.source, old(rng.drawn), rate)
  {
    ghost var d0, g0 := rng.drawn, a[..];
    for i := 0 to a.Length
      invariant rng.drawn == GeneDraw(rng.source, d0, rate, i)
      invariant forall j :: 0 <= j < i ==> a[j] == UniformAt(g0, lo, hi, maxStep, rng.source, d0, rate, j)
      invariant forall j :: i <= j < a.Length ==> a[j] == g0[j]
    {
      var u := rng.NextDouble();
      if u < rate {
        var v := rng.NextDouble();
        var step := Step(v, maxStep);
        a[i] := ClampReal(lo, hi, a[i] + step);
      }
    }
    assert a[..] == Uniform(g0, lo, hi, maxStep, rng.source, d0, rate);
  }

  // ------------------------------------------------------------------ one chromosome

  /** The genes of a chromosome of class k after strategy m, for draws starting at
      `from`; the genes of a chromosome of another class are kept. */
  function Mutated(m: MutationMethod, k: Kind, g: Genes, source: nat -> real, from: nat, rate: real): (r: Genes)
    ensures SameKind(r, g)
    ensures !Applies(m, k) ==> r == g
  {
    match g
    case Bits(b) =>
      if m.BitFlip? && k.Binary? then Bits(Flip(b, FlipMask(source, from, |b|, rate))) else g
    case Ints(s) =>
      if m.IntegerNeighbor? && k.Integer? then Ints(Neighbor(s, k.intMin, k.intMax, source, from, rate)) else g
    case Reals(s) =>
      if m.FloatUniform? && k.Float? then Reals(Uniform(s, k.floatMin, k.floatMax, MaxStep(k.floatMin, k.floatMax, m.noiseScale), source, from, rate)) else g
  }

  /** Two gene lists of one encoding and length. */
  predicate SameKind(g1: Genes, g2: Genes) {
    g1.Length() == g2.Length() && g1.Bits? == g2.Bits? && g1.Ints? == g2.Ints? && g1.Reals? == g2.Reals?
  }

  /** Where the draws after a chromosome of class k and length n start, when its draws
      start at `from`. */
  function DrawsAfter(m: MutationMethod, k: Kind, n: nat, source: nat -> real, from: nat, rate: real): (p: nat)
    ensures p >= from
  {
    if !Applies(m, k) then from
    else if m.BitFlip? then from + n
    else GeneDraw(source, from, rate, n)
  }

  /** Mutation keeps the genes within the bounds of the chromosome's class. */
  lemma MutatedInBounds(m: MutationMethod, k: Kind, g: Genes, source: nat -> real, from: nat, rate: real)
    requires k.BoundsOk() && WithinBounds(k, g)
    ensures WithinBounds(k, Mutated(m, k, g, source, from, rate))
  {
    var r := Mutated(m, k, g, source, from, rate);
    if Applies(m, k) {
      match k
      case Binary =>
      case Integer(lo, hi) =>
        forall i | 0 <= i < |r.ints| ensures lo <= r.ints[i] <= hi {
          NeighborMoves(g.ints, lo, hi, source, from, rate, i);
        }
      case Float(lo, hi) =>
        forall i | 0 <= i < |r.reals| ensures lo <= r.reals[i] <= hi {
          UniformMoves(g.reals, lo, hi, MaxStep(lo, hi, m.noiseScale), source, from, rate, i);
        }
    }
  }

  /** With a rate of at most 0 no strategy changes a gene, and each draws once per gene of
      the class it mutates. */
  lemma MutatedAtRateZero(m: MutationMethod, k: Kind, g: Genes, source: nat -> real, from: nat, rate: real)
    requires rate <= 0.0
    ensures Mutated(m, k, g, source, from, rate) == g
    ensures DrawsAfter(m, k, g.Length(), source, from, rate) == if Applies(m, k) then from + g.Length() else from
  {
    GeneDrawCount(source, from, rate, g.Length());
    match g
    case Bits(b) => FlipRates(b, source, from, rate);
    case Ints(s) =>
      if k.Integer? {
        NeighborAtRateZero(s, k.intMin, k.intMax, source, from, rate);
      }
    case Reals(s) =>
      if k.Float? && m.FloatUniform? {
        UniformAtRateZero(s, k.floatMin, k.floatMax, MaxStep(k.floatMin, k.floatMax, m.noiseScale), source, from, rate);
      }
  }

  /** `mutate` restricted to one chromosome: the loop body of each strategy. */
  method MutateChromosome(m: MutationMethod, c: Chromosome, rate: real, rng: Random)
    requires c.Valid()
    modifies c, c.genes.Buffer(), rng
    ensures c.Valid()
    ensures rng.drawn == DrawsAfter(m, c.kind, c.length, rng.source, old(rng.drawn), rate)
    ensures c.Contents() == Mutated(m, c.kind, old(c.Contents()), rng.source, old(rng.drawn), rate)
    ensures Applies(m, c.kind) ==> fresh(c.genes.Buffer())
    ensures !Applies(m, c.kind) ==> c.genes == old(c.genes)
    ensures c.seed == old(c.seed) && c.fitness == old(c.fitness)
  {
    if !Applies(m, c.kind) {
      return;
    }
    var genes := c.genes;
    match genes {
      case BoolArray(a) =>
        FlipBits(a, rate, rng);
      case IntArray(a) =>
        NeighborInts(a, c.kind.intMin, c.kind.intMax, rate, rng);
      case RealArray(a) =>
        var maxStep := MaxStep(c.kind.floatMin, c.kind.floatMax, m.noiseScale);
        UniformReals(a, c.kind.floatMin, c.kind.floatMax, maxStep, rate, rng);
    }
    var r := c.SetGenes(Some(genes));
  }

  // ----------------------------------------------------------------- the whole list

  /** Where the draws for chromosome j of cs start, when the draws of `mutate` start at
      `from`: each earlier chromosome of the strategy's class draws for its genes. */
  function ListDraw(m: MutationMethod, cs: seq<Chromosome>, source: nat -> real, from: nat, rate: real, j: nat): (p: nat)
    requires j <= |cs|
    ensures p >= from
  {
    if j == 0 then from
    else DrawsAfter(m, cs[j - 1].kind, cs[j - 1].length, source, ListDraw(m, cs, source, from, rate, j - 1), rate)
  }

  /** `mutate` has run over the first i chromosomes of cs, whose genes were gs: those
      hold their mutated genes, the others their own; all are valid and separate. */
  ghost predicate MutatedSoFar(m: MutationMethod, cs: seq<Chromosome>, gs: seq<Genes>, source: nat -> real, from: nat, rate: real, i: nat)
    reads cs, Buffers(cs)
  {
    i <= |cs| == |gs| && Separate(cs)
    && (forall j :: 0 <= j < |cs| ==> cs[j].Valid())
    && (forall j :: 0 <= j < i ==> cs[j].Contents() == Mutated(m, cs[j].kind, gs[j], source, ListDraw(m, cs, source, from, rate, j), rate))
    && (forall j :: i <= j < |cs| ==> cs[j].Contents() == gs[j])
  }

  /** One iteration of `mutate`'s loop over the list. */
  method MutateAt(m: MutationMethod, cs: seq<Chromosome>, ghost gs: seq<Genes>, i: nat, rate: real, rng: Random, ghost from: nat)
    requires i < |cs| && MutatedSoFar(m, cs, gs, rng.source, from, rate, i)
    requires rng.drawn == ListDraw(m, cs, rng.source, from, rate, i)
    modifies cs[i], cs[i].genes.Buffer(), rng
    ensures MutatedSoFar(m, cs, gs, rng.source, from, rate, i + 1)
    ensures rng.drawn == ListDraw(m, cs, rng.source, from, rate, i + 1)
    ensures forall j :: 0 <= j < |cs| && j != i ==> cs[j].genes == old(cs[j].genes)
    ensures cs[i].genes == old(cs[i].genes) || fresh(cs[i].genes.Buffer())
    ensures forall j :: 0 <= j < |cs| ==> cs[j].fitness == old(cs[j].fitness) && cs[j].seed == old(cs[j].seed)
  {
    var c := cs[i];
    BuffersAreNotRandom(cs, rng);
    MutateChromosome(m, c, rate, rng);
    forall j | 0 <= j < |cs| && j != i
      ensures cs[j].genes == old(cs[j].genes) && cs[j].Contents() == old(cs[j].Contents())
      ensures cs[j].genes.Buffer() != c.genes.Buffer()
    {
      assert cs[j] != c && cs[j].genes == old(cs[j].genes);
      var b := cs[j].genes;
      assert b.Buffer() != old(c.genes.Buffer()) && b.Buffer() != rng;
      assert b.Read() == old(b.Read());
    }
    assert c.Contents() == Mutated(m, c.kind, gs[i], rng.source, ListDraw(m, cs, rng.source, from, rate, i), rate);
    assert Separate(cs);
  }

  /** `mutate(chromosomes, mutationRate)`: every chromosome of the strategy's class gets
      the genes Mutated gives for its draws; every other one is left as it is. */
  method Mutate(m: MutationMethod, cs: seq<Chromosome>, rate: real, rng: Random)
    requires (forall j :: 0 <= j < |cs| ==> cs[j].Valid()) && Separate(cs)
    modifies rng, cs, Buffers(cs)
    ensures Separate(cs) && forall j :: 0 <= j < |cs| ==> cs[j].Valid()
    ensures rng.drawn == ListDraw(m, cs, rng.source, old(rng.drawn), rate, |cs|)
    ensures forall j :: 0 <= j < |cs| ==>
      cs[j].Contents() == Mutated(m, cs[j].kind, old(cs[j].Contents()), rng.source, ListDraw(m, cs, rng.source, old(rng.drawn), rate, j), rate)
    ensures forall j :: 0 <= j < |cs| ==> cs[j].genes == old(cs[j].genes) || fresh(cs[j].genes.Buffer())
    ensures forall j :: 0 <= j < |cs| ==> cs[j].fitness == old(cs[j].fitness) && cs[j].seed == old(cs[j].seed)
  {
    ghost var gs := seq(|cs|, j requires 0 <= j < |cs| reads cs, Buffers(cs) => cs[j].Contents());
    ghost var from := rng.drawn;
    for i := 0 to |cs|
      invariant MutatedSoFar(m, cs, gs, rng.source, from, rate, i)
      invariant rng.drawn == ListDraw(m, cs, rng.source, from, rate, i)
      invariant forall j :: 0 <= j < |cs| ==> cs[j].genes == old(cs[j].genes) || fresh(cs[j].genes.Buffer())
      invariant forall j :: 0 <= j < |cs| ==> cs[j].fitness == old(cs[j].fitness) && cs[j].seed == old(cs[j].seed)
    {
      MutateAt(m, cs, gs, i, rate, rng, from);
    }
  }
}
