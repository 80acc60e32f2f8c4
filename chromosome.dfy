/** The chromosome: a fixed-length gene array of one of three encodings, with a fitness.

    The Java library has three classes, BinaryChromosome, IntegerChromosome and
    FloatChromosome, over an abstract base whose code is not part of this model.  Here they
    are one class whose constant `kind` is the runtime class, and whose `genes` field is the
    typed Java array that `getGenes()` returns. */
module Chromosomes {
  import opened Outcomes
  import opened RandomSource

  /** Java's `int`. */
  newtype int32 = x: int | -0x8000_0000 <= x < 0x8000_0000

  const INT32_MIN: int := -0x8000_0000
  const INT32_MAX: int := 0x7fff_ffff

  /** Java's `int` arithmetic: the mathematical value wrapped into 32 bits. */
  function Wrap(x: int): (r: int32)
    ensures INT32_MIN <= x <= INT32_MAX ==> r as int == x
    ensures (r as int - x) % 0x1_0000_0000 == 0
  {
    ((x - INT32_MIN) % 0x1_0000_0000 + INT32_MIN) as int32
  }

  /** The runtime class of a chromosome, with the bounds the integer and float kinds carry. */
  datatype Kind =
    | Binary
    | Integer(intMin: int32, intMax: int32)
    | Float(floatMin: real, floatMax: real)
  {
    /** The bound check the constructors perform: inclusive range for integers, a
        non-empty interval for floats. */
    predicate BoundsOk() {
      match this
      case Binary => true
      case Integer(lo, hi) => lo <= hi
      case Float(lo, hi) => lo < hi
    }
  }

  /** One gene, of any encoding (what the base class's `getGene(i)` returns as an Object). */
  datatype Gene = Bit(b: bool) | Int(i: int32) | Real(r: real)

  /** The genes of a chromosome as a value. */
  datatype Genes = Bits(bits: seq<bool>) | Ints(ints: seq<int32>) | Reals(reals: seq<real>)
  {
    function Length(): nat {
      match this
      case Bits(s) => |s|
      case Ints(s) => |s|
      case Reals(s) => |s|
    }

    function At(i: nat): Gene
      requires i < Length()
    {
      match this
      case Bits(s) => Bit(s[i])
      case Ints(s) => Int(s[i])
      case Reals(s) => Real(s[i])
    }
  }

  /** g is a gene list of n genes in the encoding of k. */
  predicate Encodes(k: Kind, n: nat, g: Genes) {
    g.Length() == n
    && match k
       case Binary => g.Bits?
       case Integer(_, _) => g.Ints?
       case Float(_, _) => g.Reals?
  }

  /** Every gene of g has the encoding of k and lies within k's bounds. */
  ghost predicate WithinBounds(k: Kind, g: Genes) {
    match k
    case Binary => g.Bits?
    case Integer(lo, hi) => g.Ints? && forall i :: 0 <= i < |g.ints| ==> lo <= g.ints[i] <= hi
    case Float(lo, hi) => g.Reals? && forall i :: 0 <= i < |g.reals| ==> lo <= g.reals[i] <= hi
  }

  /** A typed Java gene array: `boolean[]`, `int[]` or `double[]`. */
  datatype GeneArray = BoolArray(bools: array<bool>) | IntArray(ints: array<int32>) | RealArray(reals: array<real>)
  {
    function Buffer(): object {
      match this
      case BoolArray(a) => a as object
      case IntArray(a) => a as object
      case RealArray(a) => a as object
    }

    function Length(): nat {
      match this
      case BoolArray(a) => a.Length
      case IntArray(a) => a.Length
      case RealArray(a) => a.Length
    }

    /** The `instanceof` test each chromosome class applies to its gene array. */
    predicate Fits(k: Kind) {
      match k
      case Binary => BoolArray?
      case Integer(_, _) => IntArray?
      case Float(_, _) => RealArray?
    }

    function Read(): (g: Genes)
      reads Buffer()
      ensures g.Length() == Length()
    {
      match this
      case BoolArray(a) => Bits(a[..])
      case IntArray(a) => Ints(a[..])
      case RealArray(a) => Reals(a[..])
    }
  }

  /** What a fitness function sees of a chromosome: its runtime class and its genes. */
  datatype Genome = Genome(kind: Kind, genes: Genes)

  /** FitnessFunction.evaluate: a pure map from a chromosome to its score. */
  type FitnessFunction = Genome -> real

  /** Copies the first n elements of src into dst (the base class's `copyArray`). */
  method CopyArray<T>(src: array<T>, dst: array<T>, n: nat)
    requires n <= src.Length && n <= dst.Length && src != dst
    modifies dst
    ensures dst[..n] == src[..n]
    ensures dst[n..] == old(dst[n..])
  {
    for i := 0 to n
      invariant dst[..i] == src[..i]
      invariant dst[n..] == old(dst[n..])
    {
      dst[i] := src[i];
    }
  }

  method FillArray<T>(a: array<T>, x: T)
    modifies a
    ensures a[..] == seq(a.Length, _ => x)
  {
    for i := 0 to a.Length
      invariant a[..i] == seq(i, _ => x)
    {
      a[i] := x;
    }
  }

  class Chromosome {
    const kind: Kind
    /** The gene count fixed at construction (the base class's `length`). */
    const length: nat
    var genes: GeneArray
    var seed: int32
    var fitness: real

    /** The encoding matches the class, the buffer has the declared length and the
        constructor's bound check held. */
    ghost predicate Valid()
      reads this`genes
    {
      kind.BoundsOk() && genes.Fits(kind) && genes.Length() == length
    }

    function Contents(): (g: Genes)
      reads this`genes, genes.Buffer()
      ensures g.Length() == genes.Length()
    {
      genes.Read()
    }

    function Value(): Genome
      reads this`genes, genes.Buffer()
    {
      Genome(kind, Contents())
    }

    ghost predicate InBounds()
      reads this`genes, genes.Buffer()
    {
      WithinBounds(kind, Contents())
    }

    /** `new BinaryChromosome(length, seed)`: every gene false. */
    constructor BinaryChromosome(length: nat, seed: int32)
      ensures Valid() && kind == Binary && this.length == length
      ensures fresh(genes.Buffer()) && Contents() == Bits(seq(length, _ => false))
      ensures this.seed == seed && fitness == 0.0
    {
      kind := Binary;
      this.length := length;
      this.seed := seed;
      fitness := 0.0;
      var a := new bool[length];
      FillArray(a, false);
      genes := BoolArray(a);
    }

    /** `new IntegerChromosome(length, minValue, maxValue, seed)` past its bound check:
        every gene equals minValue. */
    constructor IntegerChromosome(length: nat, minValue: int32, maxValue: int32, seed: int32)
      requires minValue <= maxValue
      ensures Valid() && kind == Integer(minValue, maxValue) && this.length == length
      ensures fresh(genes.Buffer()) && Contents() == Ints(seq(length, _ => minValue))
      ensures this.seed == seed && fitness == 0.0
    {
      kind := Integer(minValue, maxValue);
      this.length := length;
      this.seed := seed;
      fitness := 0.0;
      var a := new int32[length];
      FillArray(a, minValue);
      genes := IntArray(a);
    }

    /** `new FloatChromosome(length, minValue, maxValue, seed)` past its bound check:
        every gene equals minValue. */
    constructor FloatChromosome(length: nat, minValue: real, maxValue: real, seed: int32)
      requires minValue < maxValue
      ensures Valid() && kind == Float(minValue, maxValue) && this.length == length
      ensures fresh(genes.Buffer()) && Contents() == Reals(seq(length, _ => minValue))
      ensures this.seed == seed && fitness == 0.0
    {
      kind := Float(minValue, maxValue);
      this.length := length;
      this.seed := seed;
      fitness := 0.0;
      var a := new real[length];
      FillArray(a, minValue);
      genes := RealArray(a);
    }

    /** `setGenes(Object)`: rejects null, an array of the wrong element type and an array
        of the wrong length, in that order; otherwise stores a fresh copy of the argument. */
    method SetGenes(value: Option<GeneArray>) returns (r: Outcome)
      requires Valid()
      modifies this`genes
      ensures Valid()
      ensures value.None? ==> r == Fail(NullGenes)
      ensures value.Some? && !value.value.Fits(kind) ==> r == Fail(WrongGeneType)
      ensures value.Some? && value.value.Fits(kind) && value.value.Length() != length ==> r == Fail(LengthMismatch)
      ensures r.Pass? <==> value.Some? && value.value.Fits(kind) && value.value.Length() == length
      ensures r.Pass? ==> fresh(genes.Buffer()) && Contents() == value.value.Read()
      ensures r.Fail? ==> genes == old(genes)
    {
      if value.None? {
        return Fail(NullGenes);
      }
      if !value.value.Fits(kind) {
        return Fail(WrongGeneType);
      }
      if value.value.Length() != length {
        return Fail(LengthMismatch);
      }
      var arg := value.value;
      if arg.BoolArray? {
        var a := new bool[length];
        CopyArray(arg.bools, a, length);
        genes := BoolArray(a);
      } else if arg.IntArray? {
        var a := new int32[length];
        CopyArray(arg.ints, a, length);
        genes := IntArray(a);
      } else {
        var a := new real[length];
        CopyArray(arg.reals, a, length);
        genes := RealArray(a);
      }
      r := Pass;
    }

    /** `initialize()`: each gene from one draw of `nextRandom`, as BitDraws, IntDraws and
        RealDraws describe; a binary chromosome's seed becomes its last draw. */
    method Initialize(rng: Random)
      requires Valid()
      requires kind.Integer? ==> kind.intMax as int - kind.intMin as int + 1 <= INT32_MAX
      modifies this`seed, genes.Buffer(), rng
      ensures Valid() && InBounds()
      ensures rng.drawn == old(rng.drawn) + length
      ensures kind.Binary? ==> Contents() == Bits(BitDraws(rng.source, old(rng.drawn), length))
      ensures kind.Binary? && length > 0 ==> seed as int == IndexDraw(rng.source(old(rng.drawn) + length - 1), 2)
      ensures !kind.Binary? || length == 0 ==> seed == old(seed)
      ensures kind.Integer? ==> Contents() == Ints(IntDraws(rng.source, old(rng.drawn), length, kind.intMin, kind.intMax))
      ensures kind.Float? ==> Contents() == Reals(RealDraws(rng.source, old(rng.drawn), length, kind.floatMin, kind.floatMax))
    {
      if genes.BoolArray? {
        seed := DrawBits(genes.bools, rng, seed);
      } else if genes.IntArray? {
        DrawInts(genes.ints, rng, seed, kind.intMin, kind.intMax);
        IntDrawsInBounds(rng.source, old(rng.drawn), length, kind.intMin, kind.intMax);
      } else {
        DrawReals(genes.reals, rng, seed, kind.floatMin, kind.floatMax);
        RealDrawsInBounds(rng.source, old(rng.drawn), length, kind.floatMin, kind.floatMax);
      }
    }

    /** `clone()`: a new chromosome of the same class, bounds, seed, genes and fitness,
        with its own gene buffer. */
    method Clone() returns (copy: Chromosome)
      requires Valid()
      ensures fresh(copy) && fresh(copy.genes.Buffer())
      ensures copy.Valid() && IsCloneOf(copy, this)
    {
      if genes.BoolArray? {
        copy := new Chromosome.BinaryChromosome(length, seed);
        CopyArray(genes.bools, copy.genes.bools, length);
      } else if genes.IntArray? {
        copy := new Chromosome.IntegerChromosome(length, kind.intMin, kind.intMax, seed);
        CopyArray(genes.ints, copy.genes.ints, length);
      } else {
        copy := new Chromosome.FloatChromosome(length, kind.floatMin, kind.floatMax, seed);
        CopyArray(genes.reals, copy.genes.reals, length);
      }
      copy.fitness := fitness;
    }
  }

  /** The binary genes drawn from `source` starting at position `from`: gene j is whether
      the draw in [0, 2) was 1. */
  function BitDraws(source: nat -> real, from: nat, n: nat): (s: seq<bool>)
  {
    seq(n, j requires 0 <= j => IndexDraw(source(from + j), 2) == 1)
  }

  /** The integer genes drawn from `source`: `lo + rnd` with rnd in [0, hi - lo + 1). */
  function IntDraws(source: nat -> real, from: nat, n: nat, lo: int32, hi: int32): (s: seq<int32>)
    requires lo <= hi && hi as int - lo as int + 1 <= INT32_MAX
  {
    seq(n, j requires 0 <= j => (lo as int + IndexDraw(source(from + j), hi as int - lo as int + 1)) as int32)
  }

  /** The float genes drawn from `source`: `lo + (hi - lo) * (rnd / 1000.0)` with rnd in
      [0, 1000). */
  function RealDraws(source: nat -> real, from: nat, n: nat, lo: real, hi: real): (s: seq<real>)
  {
    seq(n, j requires 0 <= j => lo + Scale(hi - lo, IndexDraw(source(from + j), 1000) as real / 1000.0))
  }

  /** Every drawn integer gene lies in [lo, hi]. */
  lemma IntDrawsInBounds(source: nat -> real, from: nat, n: nat, lo: int32, hi: int32)
    requires lo <= hi && hi as int - lo as int + 1 <= INT32_MAX
    ensures |IntDraws(source, from, n, lo, hi)| == n
    ensures forall i :: 0 <= i < n ==> lo <= IntDraws(source, from, n, lo, hi)[i] <= hi
  {
    forall i | 0 <= i < n
      ensures lo <= IntDraws(source, from, n, lo, hi)[i] <= hi
    {
      var k := IndexDraw(source(from + i), hi as int - lo as int + 1);
      assert IntDraws(source, from, n, lo, hi)[i] as int == lo as int + k;
    }
  }

  /** Every drawn float gene lies in [lo, hi) when lo < hi. */
  lemma RealDrawsInBounds(source: nat -> real, from: nat, n: nat, lo: real, hi: real)
    requires lo < hi
    ensures |RealDraws(source, from, n, lo, hi)| == n
    ensures forall i :: 0 <= i < n ==> lo <= RealDraws(source, from, n, lo, hi)[i] < hi
  {
    forall i | 0 <= i < n
      ensures lo <= RealDraws(source, from, n, lo, hi)[i] < hi
    {
      var f := IndexDraw(source(from + i), 1000) as real / 1000.0;
      FractionOfWidth(hi - lo, f);
      assert RealDraws(source, from, n, lo, hi)[i] == lo + Scale(hi - lo, f);
    }
  }

  method DrawBits(a: array<bool>, rng: Random, seed0: int32) returns (seed: int32)
    modifies a, rng
    ensures rng.drawn == old(rng.drawn) + a.Length
    ensures a[..] == BitDraws(rng.source, old(rng.drawn), a.Length)
    ensures a.Length > 0 ==> seed as int == IndexDraw(rng.source(old(rng.drawn) + a.Length - 1), 2)
    ensures a.Length == 0 ==> seed == seed0
  {
    ghost var d0 := rng.drawn;
    seed := seed0;
    for i := 0 to a.Length
      invariant rng.drawn == d0 + i
      invariant a[..i] == BitDraws(rng.source, d0, i)
      invariant i > 0 ==> seed as int == IndexDraw(rng.source(d0 + i - 1), 2)
      invariant i == 0 ==> seed == seed0
    {
      var next := rng.NextRandom(seed as int, 2);
      seed := next as int32;
      a[i] := seed == 1;
    }
  }

  method DrawInts(a: array<int32>, rng: Random, seed: int32, lo: int32, hi: int32)
    requires lo <= hi && hi as int - lo as int + 1 <= INT32_MAX
    modifies a, rng
    ensures rng.drawn == old(rng.drawn) + a.Length
    ensures a[..] == IntDraws(rng.source, old(rng.drawn), a.Length, lo, hi)
  {
    ghost var d0 := rng.drawn;
    var range := hi as int - lo as int + 1;
    for i := 0 to a.Length
      invariant rng.drawn == d0 + i
      invariant a[..i] == IntDraws(rng.source, d0, i, lo, hi)
    {
      var rnd := rng.NextRandom(seed as int, range);
      a[i] := (lo as int + rnd) as int32;
    }
  }

  method DrawReals(a: array<real>, rng: Random, seed: int32, lo: real, hi: real)
    modifies a, rng
    ensures rng.drawn == old(rng.drawn) + a.Length
    ensures a[..] == RealDraws(rng.source, old(rng.drawn), a.Length, lo, hi)
  {
    ghost var d0 := rng.drawn;
    for i := 0 to a.Length
      invariant rng.drawn == d0 + i
      invariant a[..i] == RealDraws(rng.source, d0, i, lo, hi)
    {
      var rnd := rng.NextRandom(seed as int, 1000);
      a[i] := lo + Scale(hi - lo, rnd as real / 1000.0);
    }
  }

  /** The genes of a valid chromosome are `length` genes in the encoding of its class. */
  lemma ValidEncodes(c: Chromosome)
    requires c.Valid()
    ensures Encodes(c.kind, c.length, c.Contents())
  {
  }

  /** `clone()`'s promise: same class, bounds, length, genes, fitness and seed. */
  ghost predicate IsCloneOf(c: Chromosome, d: Chromosome)
    reads c, d, c.genes.Buffer(), d.genes.Buffer()
  {
    c.kind == d.kind && c.length == d.length && c.Contents() == d.Contents()
    && c.fitness == d.fitness && c.seed == d.seed
  }

  /** `new IntegerChromosome(...)` with its exceptions. */
  method NewIntegerChromosome(length: int, minValue: int32, maxValue: int32, seed: int32) returns (r: Result<Chromosome>)
    ensures minValue > maxValue ==> r == Failure(InvalidBounds)
    ensures minValue <= maxValue && length < 0 ==> r == Failure(NegativeArraySize)
    ensures r.Success? <==> minValue <= maxValue && length >= 0
    ensures r.Success? ==> fresh(r.value) && fresh(r.value.genes.Buffer()) && r.value.Valid()
    ensures r.Success? ==> r.value.kind == Integer(minValue, maxValue) && r.value.length == length
    ensures r.Success? ==> r.value.Contents() == Ints(seq(length, _ => minValue))
    ensures r.Success? ==> r.value.seed == seed && r.value.fitness == 0.0
  {
    if minValue > maxValue {
      return Failure(InvalidBounds);
    }
    if length < 0 {
      return Failure(NegativeArraySize);
    }
    var c := new Chromosome.IntegerChromosome(length, minValue, maxValue, seed);
    return Success(c);
  }

  /** `new FloatChromosome(...)` with its exceptions. */
  method NewFloatChromosome(length: int, minValue: real, maxValue: real, seed: int32) returns (r: Result<Chromosome>)
    ensures minValue >= maxValue ==> r == Failure(InvalidBounds)
    ensures minValue < maxValue && length < 0 ==> r == Failure(NegativeArraySize)
    ensures r.Success? <==> minValue < maxValue && length >= 0
    ensures r.Success? ==> fresh(r.value) && fresh(r.value.genes.Buffer()) && r.value.Valid()
    ensures r.Success? ==> r.value.kind == Float(minValue, maxValue) && r.value.length == length
    ensures r.Success? ==> r.value.Contents() == Reals(seq(length, _ => minValue))
    ensures r.Success? ==> r.value.seed == seed && r.value.fitness == 0.0
  {
    if minValue >= maxValue {
      return Failure(InvalidBounds);
    }
    if length < 0 {
      return Failure(NegativeArraySize);
    }
    var c := new Chromosome.FloatChromosome(length, minValue, maxValue, seed);
    return Success(c);
  }

  /** `new BinaryChromosome(...)` with its exception. */
  method NewBinaryChromosome(length: int, seed: int32) returns (r: Result<Chromosome>)
    ensures length < 0 ==> r == Failure(NegativeArraySize)
    ensures r.Success? <==> length >= 0
    ensures r.Success? ==> fresh(r.value) && fresh(r.value.genes.Buffer()) && r.value.Valid()
    ensures r.Success? ==> r.value.kind == Binary && r.value.length == length
    ensures r.Success? ==> r.value.Contents() == Bits(seq(length, _ => false))
    ensures r.Success? ==> r.value.seed == seed && r.value.fitness == 0.0
  {
    if length < 0 {
      return Failure(NegativeArraySize);
    }
    var c := new Chromosome.BinaryChromosome(length, seed);
    return Success(c);
  }

  /** Every chromosome of cs is valid, of kind k and of length n: a list cloned from one
      prototype. */
  ghost predicate Homogeneous(cs: seq<Chromosome>, k: Kind, n: nat)
    reads cs`genes
  {
    forall i :: 0 <= i < |cs| ==> cs[i].Valid() && cs[i].kind == k && cs[i].length == n
  }

  /** No chromosome occurs twice in cs and no two share a gene buffer. */
  ghost predicate Separate(cs: seq<Chromosome>)
    reads cs`genes
  {
    forall i, j :: 0 <= i < j < |cs| ==> cs[i] != cs[j] && cs[i].genes.Buffer() != cs[j].genes.Buffer()
  }

  /** A list drawn from the members of a homogeneous list is homogeneous. */
  lemma MembersOf(sub: seq<Chromosome>, cs: seq<Chromosome>, k: Kind, n: nat)
    requires forall j :: 0 <= j < |sub| ==> sub[j] in cs
    requires Homogeneous(cs, k, n)
    ensures Homogeneous(sub, k, n)
  {
    forall i | 0 <= i < |sub| ensures sub[i].Valid() && sub[i].kind == k && sub[i].length == n {
      var a :| 0 <= a < |cs| && cs[a] == sub[i];
    }
  }

  /** The chromosomes of cs, as objects. */
  ghost function Members(cs: seq<Chromosome>): set<object> {
    set c | c in cs :: c as object
  }

  /** The gene buffers of cs. */
  ghost function Buffers(cs: seq<Chromosome>): set<object>
    reads cs`genes
  {
    set c | c in cs :: c.genes.Buffer()
  }

  /** cs is a list of chromosomes of class k and length n whose members and gene buffers
      are in owned. */
  ghost predicate Held(cs: seq<Chromosome>, k: Kind, n: nat, owned: set<object>)
    reads cs`genes
  {
    Homogeneous(cs, k, n) && forall c :: c in cs ==> c in owned && c.genes.Buffer() in owned
  }

  /** Adding the members of cs and their gene buffers, each old and in owned or new, to
      owned adds only new objects. */
  twostate lemma Adopted(new cs: seq<Chromosome>, owned: set<object>)
    requires forall c :: c in cs ==> (c in owned || fresh(c)) && (c.genes.Buffer() in owned || fresh(c.genes.Buffer()))
    ensures fresh(owned + Members(cs) + Buffers(cs) - owned)
  {
  }

  /** Appending two new, separate chromosomes of class k and length n keeps a list
      homogeneous and separate. */
  lemma AppendSeparate(cs: seq<Chromosome>, c1: Chromosome, c2: Chromosome, k: Kind, n: nat)
    requires Homogeneous(cs, k, n) && Separate(cs)
    requires c1.Valid() && c1.kind == k && c1.length == n && c2.Valid() && c2.kind == k && c2.length == n
    requires c1 != c2 && c1.genes.Buffer() != c2.genes.Buffer()
    requires forall j :: 0 <= j < |cs| ==> cs[j] != c1 && cs[j] != c2
    requires forall j :: 0 <= j < |cs| ==> cs[j].genes.Buffer() != c1.genes.Buffer() && cs[j].genes.Buffer() != c2.genes.Buffer()
    ensures Homogeneous(cs + [c1, c2], k, n) && Separate(cs + [c1, c2])
  {
  }

  /** A gene buffer is never the random source: drawing leaves every gene as it is. */
  lemma BuffersAreNotRandom(cs: seq<Chromosome>, r: Random)
    ensures forall j :: 0 <= j < |cs| ==> cs[j].genes.Buffer() != r
    ensures r !in Buffers(cs)
  {
  }

  /** A gene buffer is an array, never a chromosome: rewriting buffers leaves every
      chromosome's fields as they are. */
  lemma BuffersAreArrays(cs: seq<Chromosome>)
    ensures forall c: Chromosome :: c !in Buffers(cs)
  {
  }
}
