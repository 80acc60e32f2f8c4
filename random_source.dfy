/** The single explicit random source of the model.

    The Java library draws from `Math.random()`, from `java.util.Random` objects held by
    some strategies, and from the chromosome base class's `nextRandom`, which is not part
    of this model.  Every one of those draws is modelled here as the next value of one
    arbitrary stream of reals, folded into [0, 1) and scaled as the Java code scales it.
    Since the stream is arbitrary, every sequence of in-range draws is possible, so a
    property proved for all streams holds whichever generator the library really uses. */
module RandomSource {

  /** Folds a raw draw into [0, 1), the range of `Math.random()` and `nextDouble()`. */
  function UnitInterval(x: real): (u: real)
    ensures 0.0 <= u < 1.0
  {
    if 0.0 <= x < 1.0 then x else 0.0
  }

  lemma ProductNonNegative(a: real, b: real)
    requires 0.0 <= a && 0.0 <= b
    ensures 0.0 <= a * b
  {
  }

  /** The product w * f, kept as one term so that bounds proved about it are used where
      the product occurs. */
  function Scale(w: real, f: real): real {
    w * f
  }

  /** A fraction in [0, 1) of a positive width w is in [0, w). */
  lemma FractionOfWidth(w: real, f: real)
    requires w > 0.0 && 0.0 <= f < 1.0
    ensures 0.0 <= Scale(w, f) < w
  {
    ProductNonNegative(w, f);
    PositiveProduct(w, 1.0 - f);
    assert w * (1.0 - f) == w - w * f;
  }

  lemma PositiveProduct(a: real, b: real)
    requires a > 0.0 && b > 0.0
    ensures a * b > 0.0
  {
  }

  /** Counting up from k, the first k' < n with y < k' + 1 (or n - 1 when there is none):
      the integer part of y when k <= y < n. */
  function FloorFrom(y: real, k: nat, n: nat): (r: nat)
    requires k < n
    ensures k <= r < n
    decreases n - k
  {
    if k + 1 == n || y < (k + 1) as real then k else FloorFrom(y, k + 1, n)
  }

  /** FloorFrom is Java's truncating cast `(int) y` on [k, n). */
  lemma {:induction false} FloorFromIsFloor(y: real, k: nat, n: nat)
    requires k < n && k as real <= y < n as real
    ensures FloorFrom(y, k, n) == y.Floor
    decreases n - k
  {
    if k + 1 == n || y < (k + 1) as real {
    } else {
      FloorFromIsFloor(y, k + 1, n);
    }
  }

  /** `(int) (u * n)` for u in [0, 1): an index in [0, n), or 0 when n == 0. */
  function ScaleToIndex(u: real, n: nat): (k: nat)
    requires 0.0 <= u < 1.0
    ensures n > 0 ==> k < n
    ensures n == 0 ==> k == 0
  {
    if n == 0 then 0 else FloorFrom(Scale(u, n as real), 0, n)
  }

  /** ScaleToIndex is the truncation of u * n. */
  lemma ScaleToIndexIsCast(u: real, n: nat)
    requires 0.0 <= u < 1.0 && n > 0
    ensures ScaleToIndex(u, n) == Scale(u, n as real).Floor
  {
    FractionOfWidth(n as real, u);
    assert Scale(u, n as real) == Scale(n as real, u);
    FloorFromIsFloor(Scale(u, n as real), 0, n);
  }

  /** The index that `nextInt(n)` returns for raw value x: the integer part of x, kept
      within [0, n), or 0 when n == 0.  The model does not fix java.util.Random's generator;
      this reading of the raw value reaches every index (IndexDrawReaches). */
  function IndexDraw(x: real, n: nat): (k: nat)
    ensures n > 0 ==> k < n
  {
    if n == 0 then 0 else FloorFrom(x, 0, n)
  }

  /** Every index below n is drawn by some raw value. */
  lemma IndexDrawReaches(k: nat, n: nat)
    requires k < n
    ensures IndexDraw(k as real, n) == k
  {
    FloorFromIsFloor(k as real, 0, n);
  }

  /** The index `(int) (Math.random() * n)` computes from raw value x. */
  function CastDraw(x: real, n: nat): (k: nat)
    ensures n > 0 ==> k < n
  {
    ScaleToIndex(UnitInterval(x), n)
  }

  class Random {
    /** The raw stream the draws come from. */
    const source: nat -> real
    /** How many values have been drawn so far. */
    var drawn: nat

    constructor (source: nat -> real)
      ensures this.source == source && drawn == 0
    {
      this.source := source;
      drawn := 0;
    }

    /** The raw value of the draw after the next k. */
    function Peek(k: nat): real
      reads this
    {
      source(drawn + k)
    }

    /** `Math.random()` / `Random.nextDouble()`: a value in [0, 1). */
    method NextDouble() returns (u: real)
      modifies this
      ensures 0.0 <= u < 1.0
      ensures u == UnitInterval(old(Peek(0)))
      ensures drawn == old(drawn) + 1
    {
      u := UnitInterval(source(drawn));
      drawn := drawn + 1;
    }

    /** `Random.nextInt(bound)` for a positive bound: a value in [0, bound). */
    method NextInt(bound: int) returns (r: nat)
      requires bound > 0
      modifies this
      ensures r < bound
      ensures r == IndexDraw(old(Peek(0)), bound)
      ensures drawn == old(drawn) + 1
    {
      r := IndexDraw(source(drawn), bound);
      drawn := drawn + 1;
    }

    /** `Random.nextInt()`: any 32-bit signed integer. */
    method NextInt32() returns (r: int)
      modifies this
      ensures -0x8000_0000 <= r < 0x8000_0000
      ensures r == IndexDraw(old(Peek(0)), 0x1_0000_0000) - 0x8000_0000
      ensures drawn == old(drawn) + 1
    {
      r := IndexDraw(source(drawn), 0x1_0000_0000) - 0x8000_0000;
      drawn := drawn + 1;
    }

    /** `Random.nextBoolean()`. */
    method NextBoolean() returns (b: bool)
      modifies this
      ensures b == (UnitInterval(old(Peek(0))) < 0.5)
      ensures drawn == old(drawn) + 1
    {
      b := UnitInterval(source(drawn)) < 0.5;
      drawn := drawn + 1;
    }

    /** The chromosome base class's `nextRandom(seed, bound)` (its code is not part of this
        model): a value in [0, bound).  No relation between the seed and the result is
        assumed. */
    method NextRandom(seed: int, bound: int) returns (r: nat)
      requires bound > 0
      modifies this
      ensures r < bound
      ensures r == IndexDraw(old(Peek(0)), bound)
      ensures drawn == old(drawn) + 1
    {
      r := IndexDraw(source(drawn), bound);
      drawn := drawn + 1;
    }
  }
}
