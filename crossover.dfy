/** The crossover strategies (GeneticAlgorithmLibrary/Crossover/): single-point crossover
    of the first two parents, two-point crossover of consecutive pairs with wrap-around and
    an in-place segment swap, and uniform crossover of consecutive pairs with one coin per
    gene. */
module Crossovers {
  import opened Outcomes
  import opened RandomSource
  import opened Chromosomes

  // ---------------------------------------------------------------- exchanging genes

  /** The genes of a child of parents a and b under a swap mask: position i comes from b
      where swap[i] holds and from a elsewhere.  The other child is Mix(b, a, swap). */
  function Mix<T>(a: seq<T>, b: seq<T>, swap: seq<bool>): (c: seq<T>)
    requires |a| == |b| == |swap|
    ensures |c| == |a|
  {
    seq(|a|, i requires 0 <= i < |a| => if swap[i] then b[i] else a[i])
  }

  /** The two children exchange genes position by position: at each position they hold
      the two parents' genes, kept or swapped. */
  lemma MixExchanges<T>(a: seq<T>, b: seq<T>, swap: seq<bool>)
    requires |a| == |b| == |swap|
    ensures forall i :: 0 <= i < |a| ==> multiset{Mix(a, b, swap)[i], Mix(b, a, swap)[i]} == multiset{a[i], b[i]}
  {
  }

  /** The child of the parents' whole gene lists is the child of their prefixes followed
      by the last gene. */
  lemma MixSnoc<T>(a: seq<T>, b: seq<T>, swap: seq<bool>)
    requires |a| == |b| == |swap| > 0
    ensures
      var n := |a| - 1;
      Mix(a, b, swap) == Mix(a[..n], b[..n], swap[..n]) + [if swap[n] then b[n] else a[n]]
  {
  }

  /** Adding one gene to each side of two equal pools, the same two genes on both
      sides, keeps them equal. */
  lemma PoolStep<T>(x: multiset<T>, y: multiset<T>, a: multiset<T>, b: multiset<T>, xn: T, yn: T, an: T, bn: T)
    requires x + y == a + b && multiset{xn, yn} == multiset{an, bn}
    ensures (x + multiset{xn}) + (y + multiset{yn}) == (a + multiset{an}) + (b + multiset{bn})
  {
    assert (x + multiset{xn}) + (y + multiset{yn}) == (x + y) + multiset{xn, yn};
    assert (a + multiset{an}) + (b + multiset{bn}) == (a + b) + multiset{an, bn};
  }

  /** Together the two children hold exactly the parents' genes: crossover neither loses
      nor invents a gene. */
  lemma {:induction false} MixKeepsGenes<T>(a: seq<T>, b: seq<T>, swap: seq<bool>)
    requires |a| == |b| == |swap|
    ensures multiset(Mix(a, b, swap)) + multiset(Mix(b, a, swap)) == multiset(a) + multiset(b)
  {
    if |a| > 0 {
      var n := |a| - 1;
      var a', b', s' := a[..n], b[..n], swap[..n];
      var x', y' := Mix(a', b', s'), Mix(b', a', s');
      var xn, yn := if swap[n] then b[n] else a[n], if swap[n] then a[n] else b[n];
      MixKeepsGenes(a', b', s');
      MixSnoc(a, b, swap);
      MixSnoc(b, a, swap);
      assert a == a' + [a[n]];
      assert b == b' + [b[n]];
      assert multiset(Mix(a, b, swap)) == multiset(x') + multiset{xn};
      assert multiset(Mix(b, a, swap)) == multiset(y') + multiset{yn};
      assert multiset(a) == multiset(a') + multiset{a[n]};
      assert multiset(b) == multiset(b') + multiset{b[n]};
      PoolStep(multiset(x'), multiset(y'), multiset(a'), multiset(b'), xn, yn, a[n], b[n]);
    }
  }

  /** Crossing the two children again under the same mask gives back the parents. */
  lemma MixUndo<T>(a: seq<T>, b: seq<T>, swap: seq<bool>)
    requires |a| == |b| == |swap|
    ensures Mix(Mix(a, b, swap), Mix(b, a, swap), swap) == a
  {
  }

  /** Crossing a parent with itself gives it back: aliased parents are left as they are. */
  lemma MixOfSame<T>(a: seq<T>, swap: seq<bool>)
    requires |a| == |swap|
    ensures Mix(a, a, swap) == a
  {
  }

  /** Single-point crossover's mask: the second parent's genes from the point on. */
  function CutMask(n: nat, point: nat): (m: seq<bool>)
    ensures |m| == n
  {
    seq(n, i => point <= i)
  }

  /** Under the cut mask, a child is the first parent's genes before the point followed by
      the second parent's genes from it. */
  lemma CutShape<T>(a: seq<T>, b: seq<T>, point: nat)
    requires |a| == |b| && point <= |a|
    ensures Mix(a, b, CutMask(|a|, point)) == a[..point] + b[point..]
  {
  }

  /** Two-point crossover's mask: the other parent's genes on [lo, hi). */
  function SegmentMask(n: nat, lo: nat, hi: nat): (m: seq<bool>)
    ensures |m| == n
  {
    seq(n, i => lo <= i < hi)
  }

  /** Under the segment mask, a child is the first parent with the segment [lo, hi) of the
      second, and unchanged outside it. */
  lemma SegmentShape<T>(a: seq<T>, b: seq<T>, lo: nat, hi: nat)
    requires |a| == |b| && lo <= hi <= |a|
    ensures Mix(a, b, SegmentMask(|a|, lo, hi)) == a[..lo] + b[lo..hi] + a[hi..]
  {
  }

  /** Uniform crossover's mask: one `nextBoolean()` per gene, starting at draw `from`. */
  function CoinMask(source: nat -> real, from: nat, n: nat): (m: seq<bool>)
    ensures |m| == n
  {
    seq(n, j requires 0 <= j => UnitInterval(source(from + j)) < 0.5)
  }

  /** Two gene lists of one encoding and length. */
  predicate SameShape(g1: Genes, g2: Genes) {
    g1.Length() == g2.Length()
    && match g1
       case Bits(_) => g2.Bits?
       case Ints(_) => g2.Ints?
       case Reals(_) => g2.Reals?
  }

  /** Mix on gene lists of one encoding. */
  function Cross(g1: Genes, g2: Genes, swap: seq<bool>): (g: Genes)
    requires SameShape(g1, g2) && |swap| == g1.Length()
    ensures SameShape(g, g1)
  {
    match g1
    case Bits(a) => Bits(Mix(a, g2.bits, swap))
    case Ints(a) => Ints(Mix(a, g2.ints, swap))
    case Reals(a) => Reals(Mix(a, g2.reals, swap))
  }

  /** Gene by gene, a crossed child holds the second parent's gene where the mask is set
      and the first parent's elsewhere. */
  lemma CrossAt(g1: Genes, g2: Genes, swap: seq<bool>, i: nat)
    requires SameShape(g1, g2) && |swap| == g1.Length() && i < g1.Length()
    ensures Cross(g1, g2, swap).At(i) == if swap[i] then g2.At(i) else g1.At(i)
  {
  }

  /** Crossing the two children again under the same mask gives back each parent. */
  lemma CrossUndo(g1: Genes, g2: Genes, swap: seq<bool>)
    requires SameShape(g1, g2) && |swap| == g1.Length()
    ensures Cross(Cross(g1, g2, swap), Cross(g2, g1, swap), swap) == g1
  {
    match g1
    case Bits(a) => MixUndo(a, g2.bits, swap);
    case Ints(a) => MixUndo(a, g2.ints, swap);
    case Reals(a) => MixUndo(a, g2.reals, swap);
  }

  /** Gene lists of one class and length have one shape. */
  lemma EncodesSameShape(k: Kind, n: nat, g1: Genes, g2: Genes)
    requires Encodes(k, n, g1) && Encodes(k, n, g2)
    ensures SameShape(g1, g2)
  {
  }

  // ---------------------------------------------------------------- single-point crossover

  /** The parents single-point crossover may rewrite: the first two. */
  function FirstTwo(parents: seq<Chromosome>): set<Chromosome> {
    if |parents| < 2 then {} else {parents[0], parents[1]}
  }

  /** Two clones, as each strategy adds them to its offspring. */
  method ClonePair(p1: Chromosome, p2: Chromosome) returns (c1: Chromosome, c2: Chromosome)
    requires p1.Valid() && p2.Valid()
    ensures fresh(c1) && fresh(c2) && fresh(c1.genes.Buffer()) && fresh(c2.genes.Buffer())
    ensures c1 != c2 && c1.genes.Buffer() != c2.genes.Buffer()
    ensures c1.Valid() && c2.Valid() && IsCloneOf(c1, p1) && IsCloneOf(c2, p2)
  {
    c1 := p1.Clone();
    c2 := p2.Clone();
  }

  /** The child arrays of the `int[]` branch: child 1 keeps a's genes before the point and
      takes b's from it, child 2 the other way round. */
  method SpliceInts(a: array<int32>, b: array<int32>, length: nat, point: nat)
    returns (child1: array<int32>, child2: array<int32>)
    requires a.Length == length && b.Length == length
    ensures fresh(child1) && fresh(child2) && child1 != child2
    ensures child1[..] == Mix(a[..], b[..], CutMask(length, point))
    ensures child2[..] == Mix(b[..], a[..], CutMask(length, point))
  {
    child1 := new int32[length];
    child2 := new int32[length];
    for i := 0 to length
      invariant forall k :: 0 <= k < i ==> child1[k] == if k < point then a[k] else b[k]
      invariant forall k :: 0 <= k < i ==> child2[k] == if k < point then b[k] else a[k]
    {
      if i < point {
        child1[i] := a[i];
        child2[i] := b[i];
      } else {
        child1[i] := b[i];
        child2[i] := a[i];
      }
    }
  }

  /** The crossed branch of SinglePointCrossover: a draw gives the point, and when both
      gene arrays are `int[]` the two parents receive the spliced children. */
  method SplicePair(p1: Chromosome, p2: Chromosome, rng: Random)
    requires p1.Valid() && p2.Valid() && p1.kind == p2.kind && p1.length == p2.length
    modifies rng, p1`genes, p2`genes
    ensures rng.drawn == old(rng.drawn) + 1
    ensures p1.Valid() && p2.Valid()
    ensures
      var mask := CutMask(p1.length, CastDraw(old(rng.Peek(0)), p1.length));
      && (p1.kind.Integer? ==>
            && p1.Contents() == Cross(old(p1.Contents()), old(p2.Contents()), mask)
            && p2.Contents() == Cross(old(p2.Contents()), old(p1.Contents()), mask)
            && fresh(p1.genes.Buffer()) && fresh(p2.genes.Buffer())
            && (p1 != p2 ==> p1.genes.Buffer() != p2.genes.Buffer()))
      && (!p1.kind.Integer? ==> p1.genes == old(p1.genes) && p2.genes == old(p2.genes))
  {
    var g1 := p1.genes;
    var g2 := p2.genes;
    var len := p1.length;
    var v := rng.NextDouble();
    var point := ScaleToIndex(v, len);
    if g1.IntArray? && g2.IntArray? {
      var child1, child2 := SpliceInts(g1.ints, g2.ints, len, point);
      var r1 := p1.SetGenes(Some(IntArray(child1)));
      var r2 := p2.SetGenes(Some(IntArray(child2)));
    }
  }

  /** SinglePointCrossover's `crossover`: fewer than two parents give no offspring.
      Otherwise one draw against the rate; when it is not above the rate, a second draw
      gives the point, and for integer genes the first two parents receive the spliced
      children.  The offspring are clones of the first two parents as they then are. */
  method SinglePointCrossover(parents: seq<Chromosome>, crossoverRate: real, rng: Random, ghost kind: Kind, ghost length: nat)
    returns (offspring: seq<Chromosome>)
    requires Homogeneous(parents, kind, length)
    modifies rng, FirstTwo(parents)`genes
    ensures |parents| < 2 ==> offspring == [] && rng.drawn == old(rng.drawn)
    ensures |parents| >= 2 ==>
      var crossed := UnitInterval(rng.source(old(rng.drawn))) <= crossoverRate;
      var mask := CutMask(length, CastDraw(rng.source(old(rng.drawn) + 1), length));
      && rng.drawn == old(rng.drawn) + (if crossed then 2 else 1)
      && parents[0].Valid() && parents[1].Valid()
      && (crossed && kind.Integer? ==>
            && parents[0].Contents() == Cross(old(parents[0].Contents()), old(parents[1].Contents()), mask)
            && parents[1].Contents() == Cross(old(parents[1].Contents()), old(parents[0].Contents()), mask)
            && fresh(parents[0].genes.Buffer()) && fresh(parents[1].genes.Buffer())
            && (parents[0] != parents[1] ==> parents[0].genes.Buffer() != parents[1].genes.Buffer()))
      && (!crossed || !kind.Integer? ==> parents[0].genes == old(parents[0].genes) && parents[1].genes == old(parents[1].genes))
    ensures |parents| >= 2 ==>
      && |offspring| == 2 && Homogeneous(offspring, kind, length) && Separate(offspring)
      && fresh(offspring[0]) && fresh(offspring[1]) && fresh(offspring[0].genes.Buffer()) && fresh(offspring[1].genes.Buffer())
      && IsCloneOf(offspring[0], parents[0]) && IsCloneOf(offspring[1], parents[1])
  {
    if |parents| < 2 {
      return [];
    }
    var p1 := parents[0];
    var p2 := parents[1];
    var u := rng.NextDouble();
    if u > crossoverRate {
      var c1, c2 := ClonePair(p1, p2);
      return [c1, c2];
    }
    SplicePair(p1, p2, rng);
    var c1, c2 := ClonePair(p1, p2);
    offspring := [c1, c2];
  }

  // ---------------------------------------------------------------- two-point crossover

  /** The cut points from two draws, `(int) (Math.random() * len)` each, in increasing
      order. */
  function CutPoints(x: real, y: real, len: nat): (pts: (nat, nat))
    ensures pts.0 <= pts.1 && (len > 0 ==> pts.1 < len)
    ensures || (pts.0 == CastDraw(x, len) && pts.1 == CastDraw(y, len))
            || (pts.0 == CastDraw(y, len) && pts.1 == CastDraw(x, len))
  {
    var pA := CastDraw(x, len);
    var pB := CastDraw(y, len);
    if pA > pB then (pB, pA) else (pA, pB)
  }

  /** The swap loop: exchanges a[j] and b[j] for every j in [lo, hi), in place.  When a and
      b are one array nothing changes. */
  method SwapSegment<T>(a: array<T>, b: array<T>, lo: nat, hi: nat)
    requires a.Length == b.Length && lo <= hi <= a.Length
    modifies a, b
    ensures a[..] == Mix(old(a[..]), old(b[..]), SegmentMask(a.Length, lo, hi))
    ensures b[..] == Mix(old(b[..]), old(a[..]), SegmentMask(a.Length, lo, hi))
  {
    for j := lo to hi
      invariant forall k :: 0 <= k < a.Length ==> a[k] == if lo <= k < j then old(b[k]) else old(a[k])
      invariant forall k :: 0 <= k < b.Length ==> b[k] == if lo <= k < j then old(a[k]) else old(b[k])
    {
      var tmp := a[j];
      a[j] := b[j];
      b[j] := tmp;
    }
  }

  /** The three swap loops: exchanges the genes of p1 and p2 on [lo, hi) in the parents'
      own arrays. */
  method SwapGenes(p1: Chromosome, p2: Chromosome, lo: nat, hi: nat)
    requires p1.Valid() && p2.Valid() && p1.kind == p2.kind && p1.length == p2.length
    requires lo <= hi <= p1.length
    modifies p1.genes.Buffer(), p2.genes.Buffer()
    ensures p1.Contents() == Cross(old(p1.Contents()), old(p2.Contents()), SegmentMask(p1.length, lo, hi))
    ensures p2.Contents() == Cross(old(p2.Contents()), old(p1.Contents()), SegmentMask(p1.length, lo, hi))
  {
    var g1 := p1.genes;
    var g2 := p2.genes;
    if g1.BoolArray? {
      SwapSegment(g1.bools, g2.bools, lo, hi);
    } else if g1.IntArray? {
      SwapSegment(g1.ints, g2.ints, lo, hi);
    } else {
      SwapSegment(g1.reals, g2.reals, lo, hi);
    }
  }

  /** `c = p.clone(); c.setGenes(g)` with g the genes array of p: a clone of p holding a
      fresh copy of p's array. */
  method CloneWithOwnGenes(p: Chromosome) returns (c: Chromosome)
    requires p.Valid()
    ensures fresh(c) && fresh(c.genes.Buffer())
    ensures c.Valid() && IsCloneOf(c, p)
  {
    c := p.Clone();
    var r := c.SetGenes(Some(p.genes));
  }

  /** The draws of the two cut points, `(int) (Math.random() * len)` each, put in
      increasing order. */
  method DrawCutPoints(len: nat, rng: Random) returns (lo: nat, hi: nat)
    modifies rng
    ensures (lo, hi) == CutPoints(old(rng.Peek(0)), old(rng.Peek(1)), len)
    ensures rng.drawn == old(rng.drawn) + 2
  {
    ghost var d0 := rng.drawn;
    var x := rng.NextDouble();
    lo := ScaleToIndex(x, len);
    var y := rng.NextDouble();
    hi := ScaleToIndex(y, len);
    if lo > hi {
      lo, hi := hi, lo;
    }
  }

  /** The crossed branch of TwoPointCrossover's loop once the cut points are drawn: the
      segment is swapped in the parents' own arrays, then each parent is cloned and the
      clone given a copy of the parent's array. */
  method SwapAndClone(p1: Chromosome, p2: Chromosome, lo: nat, hi: nat) returns (c1: Chromosome, c2: Chromosome)
    requires p1.Valid() && p2.Valid() && p1.kind == p2.kind && p1.length == p2.length
    requires lo <= hi <= p1.length
    modifies p1.genes.Buffer(), p2.genes.Buffer()
    ensures p1.Contents() == Cross(old(p1.Contents()), old(p2.Contents()), SegmentMask(p1.length, lo, hi))
    ensures p2.Contents() == Cross(old(p2.Contents()), old(p1.Contents()), SegmentMask(p1.length, lo, hi))
    ensures fresh(c1) && fresh(c2) && fresh(c1.genes.Buffer()) && fresh(c2.genes.Buffer())
    ensures c1 != c2 && c1.genes.Buffer() != c2.genes.Buffer()
    ensures c1.Valid() && c2.Valid() && IsCloneOf(c1, p1) && IsCloneOf(c2, p2)
  {
    SwapGenes(p1, p2, lo, hi);
    c1 := CloneWithOwnGenes(p1);
    c2 := CloneWithOwnGenes(p2);
  }

  /** One iteration of TwoPointCrossover's loop.  One draw against the rate; when it is not
      above the rate, two more give the cut points and the genes of the segment are swapped
      in the parents' own arrays.  The children are clones of the parents as they then are. */
  method TwoPointPair(p1: Chromosome, p2: Chromosome, crossoverRate: real, rng: Random)
    returns (c1: Chromosome, c2: Chromosome)
    requires p1.Valid() && p2.Valid() && p1.kind == p2.kind && p1.length == p2.length
    modifies rng, p1.genes.Buffer(), p2.genes.Buffer()
    ensures
      var crossed := UnitInterval(rng.source(old(rng.drawn))) <= crossoverRate;
      var cut := CutPoints(rng.source(old(rng.drawn) + 1), rng.source(old(rng.drawn) + 2), p1.length);
      var mask := SegmentMask(p1.length, cut.0, cut.1);
      && rng.drawn == old(rng.drawn) + (if crossed then 3 else 1)
      && (crossed ==>
            && p1.Contents() == Cross(old(p1.Contents()), old(p2.Contents()), mask)
            && p2.Contents() == Cross(old(p2.Contents()), old(p1.Contents()), mask))
      && (!crossed ==> p1.Contents() == old(p1.Contents()) && p2.Contents() == old(p2.Contents()))
    ensures fresh(c1) && fresh(c2) && fresh(c1.genes.Buffer()) && fresh(c2.genes.Buffer())
    ensures c1 != c2 && c1.genes.Buffer() != c2.genes.Buffer()
    ensures c1.Valid() && c2.Valid() && IsCloneOf(c1, p1) && IsCloneOf(c2, p2)
  {
    var u := rng.NextDouble();
    if u > crossoverRate {
      c1, c2 := ClonePair(p1, p2);
    } else {
      var lo, hi := DrawCutPoints(p1.length, rng);
      c1, c2 := SwapAndClone(p1, p2, lo, hi);
    }
  }

  /** The partner of parent i among n in TwoPointCrossover: the next one, wrapping around
      to the first. */
  function Partner(i: nat, n: nat): (j: nat)
    requires i < n
    ensures j < n
    ensures j == if i + 1 < n then i + 1 else 0
  {
    (i + 1) % n
  }

  /** One iteration of TwoPointCrossover's loop on the offspring list: the children of
      parents i and Partner(i, n) are appended to acc. */
  method TwoPointStep(parents: seq<Chromosome>, i: nat, acc: seq<Chromosome>, crossoverRate: real, rng: Random, ghost kind: Kind, ghost length: nat)
    returns (out: seq<Chromosome>)
    requires i < |parents| && Homogeneous(parents, kind, length)
    requires Homogeneous(acc, kind, length) && Separate(acc)
    modifies rng, Buffers(parents)
    ensures |out| == |acc| + 2 && out[..|acc|] == acc
    ensures fresh(out[|acc|]) && fresh(out[|acc| + 1]) && fresh(out[|acc|].genes.Buffer()) && fresh(out[|acc| + 1].genes.Buffer())
    ensures Homogeneous(out, kind, length) && Separate(out)
  {
    var p1 := parents[i];
    var p2 := parents[Partner(i, |parents|)];
    assert p1 in parents && p2 in parents;
    BuffersAreArrays(parents);
    var c1, c2 := TwoPointPair(p1, p2, crossoverRate, rng);
    AppendSeparate(acc, c1, c2, kind, length);
    out := acc + [c1, c2];
  }

  /** TwoPointCrossover's `crossover`: parents i and (i + 1) mod n for i = 0, 2, 4, ...,
      so an odd last parent is paired with the first; two offspring per pair. */
  method TwoPointCrossover(parents: seq<Chromosome>, crossoverRate: real, rng: Random, ghost kind: Kind, ghost length: nat)
    returns (offspring: seq<Chromosome>)
    requires Homogeneous(parents, kind, length)
    modifies rng, Buffers(parents)
    ensures |offspring| == 2 * ((|parents| + 1) / 2)
    ensures Homogeneous(offspring, kind, length) && Separate(offspring)
    ensures forall j :: 0 <= j < |offspring| ==> fresh(offspring[j]) && fresh(offspring[j].genes.Buffer())
  {
    BuffersAreArrays(parents);
    offspring := [];
    var i := 0;
    while i < |parents|
      invariant i % 2 == 0 && i <= |parents| + 1 && |offspring| == i
      invariant Homogeneous(offspring, kind, length) && Separate(offspring)
      invariant forall j :: 0 <= j < |offspring| ==> fresh(offspring[j]) && fresh(offspring[j].genes.Buffer())
    {
      offspring := TwoPointStep(parents, i, offspring, crossoverRate, rng, kind, length);
      i := i + 2;
    }
  }

  // ---------------------------------------------------------------- uniform crossover

  /** The coin loop of `performUniformCrossover`: x and y start as copies of a and b; where
      the coin comes up true, x takes b's gene and y takes a's. */
  method MixInto<T>(a: array<T>, b: array<T>, x: array<T>, y: array<T>, rng: Random)
    requires a.Length == b.Length == x.Length == y.Length
    requires x != y && x != a && x != b && y != a && y != b
    requires x[..] == a[..] && y[..] == b[..]
    modifies x, y, rng
    ensures rng.drawn == old(rng.drawn) + a.Length
    ensures x[..] == Mix(a[..], b[..], CoinMask(rng.source, old(rng.drawn), a.Length))
    ensures y[..] == Mix(b[..], a[..], CoinMask(rng.source, old(rng.drawn), a.Length))
  {
    ghost var d0 := rng.drawn;
    for i := 0 to a.Length
      invariant rng.drawn == d0 + i
      invariant forall k :: 0 <= k < a.Length ==>
        x[k] == if k < i && UnitInterval(rng.source(d0 + k)) < 0.5 then b[k] else a[k]
      invariant forall k :: 0 <= k < a.Length ==>
        y[k] == if k < i && UnitInterval(rng.source(d0 + k)) < 0.5 then a[k] else b[k]
    {
      var swap := rng.NextBoolean();
      if swap {
        x[i] := b[i];
        y[i] := a[i];
      }
    }
  }

  /** `performUniformCrossover`: the children start as copies of the parents and exchange
      the genes whose coin comes up true; the parents are not changed. */
  method UniformPair(p1: Chromosome, p2: Chromosome, rng: Random) returns (c1: Chromosome, c2: Chromosome)
    requires p1.Valid() && p2.Valid() && p1.kind == p2.kind && p1.length == p2.length
    modifies rng
    ensures rng.drawn == old(rng.drawn) + p1.length
    ensures fresh(c1) && fresh(c2) && fresh(c1.genes.Buffer()) && fresh(c2.genes.Buffer())
    ensures c1 != c2 && c1.genes.Buffer() != c2.genes.Buffer()
    ensures c1.Valid() && c1.kind == p1.kind && c1.length == p1.length && c1.fitness == p1.fitness && c1.seed == p1.seed
    ensures c2.Valid() && c2.kind == p2.kind && c2.length == p2.length && c2.fitness == p2.fitness && c2.seed == p2.seed
    ensures
      var mask := CoinMask(rng.source, old(rng.drawn), p1.length);
      && c1.Contents() == Cross(p1.Contents(), p2.Contents(), mask)
      && c2.Contents() == Cross(p2.Contents(), p1.Contents(), mask)
  {
    c1 := p1.Clone();
    c2 := p2.Clone();
    if p1.genes.BoolArray? {
      MixInto(p1.genes.bools, p2.genes.bools, c1.genes.bools, c2.genes.bools, rng);
    } else if p1.genes.IntArray? {
      MixInto(p1.genes.ints, p2.genes.ints, c1.genes.ints, c2.genes.ints, rng);
    } else {
      MixInto(p1.genes.reals, p2.genes.reals, c1.genes.reals, c2.genes.reals, rng);
    }
  }

  /** Where the draws of pair k of UniformCrossover start: each pair draws once against the
      rate, and a crossed pair then draws one coin per gene. */
  function UniformStart(source: nat -> real, from: nat, rate: real, len: nat, k: nat): (p: nat)
    ensures p >= from
  {
    if k == 0 then from
    else
      var s := UniformStart(source, from, rate, len, k - 1);
      s + (if UnitInterval(source(s)) < rate then 1 + len else 1)
  }

  /** The genes of one child of a pair whose draws start at s: crossed under the coins
      when the first draw is below the rate, a copy of its parent otherwise.  The first
      child descends from g1, the second from g2. */
  function UniformPairChild(g1: Genes, g2: Genes, source: nat -> real, s: nat, rate: real, second: bool): (g: Genes)
    requires SameShape(g1, g2)
    ensures SameShape(g, g1)
  {
    if UnitInterval(source(s)) < rate then
      var mask := CoinMask(source, s + 1, g1.Length());
      if second then Cross(g2, g1, mask) else Cross(g1, g2, mask)
    else if second then g2 else g1
  }

  /** The genes of the offspring of pair q of UniformCrossover (offspring 2q, or 2q + 1
      when `second`), for parents whose genes are gs: the pair's draws start where those
      of the earlier pairs end. */
  function UniformChild(gs: seq<Genes>, kind: Kind, len: nat, source: nat -> real, from: nat, rate: real, q: nat, second: bool): (g: Genes)
    requires 2 * q + 1 < |gs| && forall i :: 0 <= i < |gs| ==> Encodes(kind, len, gs[i])
    ensures Encodes(kind, len, g)
  {
    EncodesSameShape(kind, len, gs[2 * q], gs[2 * q + 1]);
    UniformPairChild(gs[2 * q], gs[2 * q + 1], source, UniformStart(source, from, rate, len, q), rate, second)
  }

  /** The two offspring of pair q exchange the genes of parents 2q and 2q + 1 position by
      position: at each position they hold the two parents' genes, kept or swapped. */
  lemma UniformPairExchange(gs: seq<Genes>, kind: Kind, len: nat, source: nat -> real, from: nat, rate: real, q: nat, i: nat)
    requires 2 * q + 1 < |gs| && (forall i :: 0 <= i < |gs| ==> Encodes(kind, len, gs[i])) && i < len
    ensures multiset{UniformChild(gs, kind, len, source, from, rate, q, false).At(i), UniformChild(gs, kind, len, source, from, rate, q, true).At(i)}
         == multiset{gs[2 * q].At(i), gs[2 * q + 1].At(i)}
  {
    var g1, g2 := gs[2 * q], gs[2 * q + 1];
    EncodesSameShape(kind, len, g1, g2);
    var s := UniformStart(source, from, rate, len, q);
    if UnitInterval(source(s)) < rate {
      var mask := CoinMask(source, s + 1, len);
      CrossAt(g1, g2, mask, i);
      CrossAt(g2, g1, mask, i);
    }
  }

  /** With a rate of at most 0 no pair is crossed: every offspring is a copy of its parent. */
  lemma UniformWithoutCrossover(gs: seq<Genes>, kind: Kind, len: nat, source: nat -> real, from: nat, rate: real, q: nat)
    requires 2 * q + 1 < |gs| && forall i :: 0 <= i < |gs| ==> Encodes(kind, len, gs[i])
    requires rate <= 0.0
    ensures UniformChild(gs, kind, len, source, from, rate, q, false) == gs[2 * q]
    ensures UniformChild(gs, kind, len, source, from, rate, q, true) == gs[2 * q + 1]
  {
  }

  /** With a rate of at least 1 every pair is crossed under its coins. */
  lemma UniformAlwaysCrosses(gs: seq<Genes>, kind: Kind, len: nat, source: nat -> real, from: nat, rate: real, q: nat)
    requires 2 * q + 1 < |gs| && forall i :: 0 <= i < |gs| ==> Encodes(kind, len, gs[i])
    requires rate >= 1.0
    ensures SameShape(gs[2 * q], gs[2 * q + 1])
    ensures
      var mask := CoinMask(source, UniformStart(source, from, rate, len, q) + 1, len);
      && UniformChild(gs, kind, len, source, from, rate, q, false) == Cross(gs[2 * q], gs[2 * q + 1], mask)
      && UniformChild(gs, kind, len, source, from, rate, q, true) == Cross(gs[2 * q + 1], gs[2 * q], mask)
  {
    EncodesSameShape(kind, len, gs[2 * q], gs[2 * q + 1]);
  }

  /** The number of draws of k pairs: one each with a rate of at most 0, and one plus one
      per gene each with a rate of at least 1. */
  lemma {:induction false} UniformStartCount(source: nat -> real, from: nat, rate: real, len: nat, k: nat)
    ensures rate <= 0.0 ==> UniformStart(source, from, rate, len, k) == from + k
    ensures rate >= 1.0 ==> UniformStart(source, from, rate, len, k) == from + k * (1 + len)
  {
    if k > 0 {
      UniformStartCount(source, from, rate, len, k - 1);
      assert k * (1 + len) == (k - 1) * (1 + len) + (1 + len);
    }
  }

  /** One iteration of UniformCrossover's loop: one draw against the rate; below it the
      pair is crossed under one coin per gene, otherwise the children are clones. */
  method UniformStep(p1: Chromosome, p2: Chromosome, crossoverRate: real, rng: Random) returns (c1: Chromosome, c2: Chromosome)
    requires p1.Valid() && p2.Valid() && p1.kind == p2.kind && p1.length == p2.length
    requires SameShape(p1.Contents(), p2.Contents())
    modifies rng
    ensures
      var s := old(rng.drawn);
      && rng.drawn == s + (if UnitInterval(rng.source(s)) < crossoverRate then 1 + p1.length else 1)
      && c1.Contents() == UniformPairChild(p1.Contents(), p2.Contents(), rng.source, s, crossoverRate, false)
      && c2.Contents() == UniformPairChild(p1.Contents(), p2.Contents(), rng.source, s, crossoverRate, true)
    ensures fresh(c1) && fresh(c2) && fresh(c1.genes.Buffer()) && fresh(c2.genes.Buffer())
    ensures c1 != c2 && c1.genes.Buffer() != c2.genes.Buffer()
    ensures c1.Valid() && c1.kind == p1.kind && c1.length == p1.length && c1.fitness == p1.fitness && c1.seed == p1.seed
    ensures c2.Valid() && c2.kind == p2.kind && c2.length == p2.length && c2.fitness == p2.fitness && c2.seed == p2.seed
  {
    var u := rng.NextDouble();
    if u < crossoverRate {
      c1, c2 := UniformPair(p1, p2, rng);
    } else {
      c1, c2 := ClonePair(p1, p2);
    }
  }

  /** What UniformCrossover is given: parents of class `kind` and length `length` whose
      genes are gs. */
  ghost predicate UniformInput(parents: seq<Chromosome>, gs: seq<Genes>, kind: Kind, length: nat)
    reads parents, Buffers(parents)
  {
    && Homogeneous(parents, kind, length)
    && |gs| == |parents|
    && (forall i :: 0 <= i < |parents| ==> parents[i].Contents() == gs[i])
    && (forall i :: 0 <= i < |gs| ==> Encodes(kind, length, gs[i]))
  }

  /** The offspring of the first k pairs of UniformCrossover: separate chromosomes of the
      parents' class and length, offspring j holding the genes UniformChild describes and
      keeping the fitness and seed of parent j. */
  ghost predicate UniformSoFar(offspring: seq<Chromosome>, parents: seq<Chromosome>, gs: seq<Genes>, kind: Kind, length: nat,
                               source: nat -> real, from: nat, rate: real, k: nat)
    reads offspring, parents, Buffers(offspring)
  {
    && |offspring| == 2 * k <= |gs| == |parents|
    && (forall i :: 0 <= i < |gs| ==> Encodes(kind, length, gs[i]))
    && Homogeneous(offspring, kind, length) && Separate(offspring)
    && (forall j :: 0 <= j < |offspring| ==> offspring[j].fitness == parents[j].fitness && offspring[j].seed == parents[j].seed)
    && (forall q :: 0 <= q < k ==>
          && offspring[2 * q].Contents() == UniformChild(gs, kind, length, source, from, rate, q, false)
          && offspring[2 * q + 1].Contents() == UniformChild(gs, kind, length, source, from, rate, q, true))
  }

  /** Appending the children of pair k extends UniformSoFar from k to k + 1 pairs. */
  lemma UniformSoFarAppend(acc: seq<Chromosome>, parents: seq<Chromosome>, gs: seq<Genes>, kind: Kind, length: nat,
                           source: nat -> real, from: nat, rate: real, k: nat, c1: Chromosome, c2: Chromosome)
    requires UniformSoFar(acc, parents, gs, kind, length, source, from, rate, k)
    requires 2 * k + 2 <= |gs|
    requires c1.Valid() && c1.kind == kind && c1.length == length && c2.Valid() && c2.kind == kind && c2.length == length
    requires c1 != c2 && c1.genes.Buffer() != c2.genes.Buffer()
    requires forall j :: 0 <= j < |acc| ==> acc[j] != c1 && acc[j] != c2
    requires forall j :: 0 <= j < |acc| ==> acc[j].genes.Buffer() != c1.genes.Buffer() && acc[j].genes.Buffer() != c2.genes.Buffer()
    requires c1.fitness == parents[2 * k].fitness && c1.seed == parents[2 * k].seed
    requires c2.fitness == parents[2 * k + 1].fitness && c2.seed == parents[2 * k + 1].seed
    requires c1.Contents() == UniformChild(gs, kind, length, source, from, rate, k, false)
    requires c2.Contents() == UniformChild(gs, kind, length, source, from, rate, k, true)
    ensures UniformSoFar(acc + [c1, c2], parents, gs, kind, length, source, from, rate, k + 1)
  {
    AppendSeparate(acc, c1, c2, kind, length);
  }

  /** The body of UniformCrossover's loop: the children of parents 2k and 2k + 1, which
      extend the offspring of the first k pairs. */
  method UniformAppend(parents: seq<Chromosome>, ghost gs: seq<Genes>, i: nat, ghost k: nat, acc: seq<Chromosome>,
                       crossoverRate: real, rng: Random, ghost kind: Kind, ghost length: nat, ghost d0: nat)
    returns (c1: Chromosome, c2: Chromosome)
    requires UniformInput(parents, gs, kind, length)
    requires i == 2 * k && i + 1 < |parents|
    requires rng.drawn == UniformStart(rng.source, d0, crossoverRate, length, k)
    requires UniformSoFar(acc, parents, gs, kind, length, rng.source, d0, crossoverRate, k)
    modifies rng
    ensures rng.drawn == UniformStart(rng.source, d0, crossoverRate, length, k + 1)
    ensures fresh(c1) && fresh(c2) && fresh(c1.genes.Buffer()) && fresh(c2.genes.Buffer())
    ensures UniformSoFar(acc + [c1, c2], parents, gs, kind, length, rng.source, d0, crossoverRate, k + 1)
  {
    var p1 := parents[i];
    var p2 := parents[i + 1];
    EncodesSameShape(kind, length, gs[i], gs[i + 1]);
    BuffersAreNotRandom(acc, rng);
    BuffersAreNotRandom(parents, rng);
    ghost var s := rng.drawn;
    c1, c2 := UniformStep(p1, p2, crossoverRate, rng);
    assert p1.Contents() == gs[i] && p2.Contents() == gs[i + 1];
    assert UniformSoFar(acc, parents, gs, kind, length, rng.source, d0, crossoverRate, k);
    UniformSoFarAppend(acc, parents, gs, kind, length, rng.source, d0, crossoverRate, k, c1, c2);
  }

  /** UniformCrossover's `crossover`: parents i and i + 1 for i = 0, 2, ... while
      i < n - 1, so an odd last parent is dropped.  A pair whose draw is below the rate is
      crossed; otherwise its offspring are copies.  Offspring j descends from parent j and
      keeps its class, length, fitness and seed. */
  method UniformCrossover(parents: seq<Chromosome>, ghost gs: seq<Genes>, crossoverRate: real, rng: Random, ghost kind: Kind, ghost length: nat)
    returns (offspring: seq<Chromosome>)
    requires UniformInput(parents, gs, kind, length)
    modifies rng
    ensures |offspring| == 2 * (|parents| / 2)
    ensures forall j :: 0 <= j < |offspring| ==> fresh(offspring[j]) && fresh(offspring[j].genes.Buffer())
    ensures rng.drawn == UniformStart(rng.source, old(rng.drawn), crossoverRate, length, |parents| / 2)
    ensures UniformSoFar(offspring, parents, gs, kind, length, rng.source, old(rng.drawn), crossoverRate, |parents| / 2)
  {
    ghost var d0 := rng.drawn;
    BuffersAreNotRandom(parents, rng);
    offspring := [];
    var i := 0;
    ghost var k := 0;
    while i < |parents| - 1
      invariant i == 2 * k && i <= |parents|
      invariant rng.drawn == UniformStart(rng.source, d0, crossoverRate, length, k)
      invariant forall j :: 0 <= j < |offspring| ==> fresh(offspring[j]) && fresh(offspring[j].genes.Buffer())
      invariant UniformSoFar(offspring, parents, gs, kind, length, rng.source, d0, crossoverRate, k)
    {
      var c1, c2 := UniformAppend(parents, gs, i, k, offspring, crossoverRate, rng, kind, length, d0);
      offspring := offspring + [c1, c2];
      i := i + 2;
      k := k + 1;
    }
    assert k == |parents| / 2;
  }

  // ---------------------------------------------------------------- the strategy interface

  /** CrossoverMethod: the three strategies. */
  datatype CrossoverMethod = SinglePoint | TwoPoint | Uniform

  /** The SinglePoint case of `crossover`, with what the engines need of the parents
      afterwards: still valid, of the same class and length, and any gene array of the
      first two that changed is a new one. */
  method SinglePointCase(parents: seq<Chromosome>, crossoverRate: real, rng: Random, ghost kind: Kind, ghost length: nat)
    returns (offspring: seq<Chromosome>)
    requires Homogeneous(parents, kind, length)
    modifies rng, FirstTwo(parents)`genes, Buffers(parents)
    ensures |offspring| == if |parents| < 2 then 0 else 2
    ensures Homogeneous(offspring, kind, length) && Separate(offspring)
    ensures forall j :: 0 <= j < |offspring| ==> fresh(offspring[j]) && fresh(offspring[j].genes.Buffer())
    ensures Homogeneous(parents, kind, length)
    ensures forall c :: c in FirstTwo(parents) ==> c.genes == old(c.genes) || fresh(c.genes.Buffer())
  {
    offspring := SinglePointCrossover(parents, crossoverRate, rng, kind, length);
  }

  /** The TwoPoint case of `crossover`: only gene contents of the parents change. */
  method TwoPointCase(parents: seq<Chromosome>, crossoverRate: real, rng: Random, ghost kind: Kind, ghost length: nat)
    returns (offspring: seq<Chromosome>)
    requires Homogeneous(parents, kind, length)
    modifies rng, FirstTwo(parents)`genes, Buffers(parents)
    ensures |offspring| == 2 * ((|parents| + 1) / 2)
    ensures Homogeneous(offspring, kind, length) && Separate(offspring)
    ensures forall j :: 0 <= j < |offspring| ==> fresh(offspring[j]) && fresh(offspring[j].genes.Buffer())
    ensures Homogeneous(parents, kind, length)
    ensures forall c :: c in FirstTwo(parents) ==> c.genes == old(c.genes) || fresh(c.genes.Buffer())
  {
    offspring := TwoPointCrossover(parents, crossoverRate, rng, kind, length);
  }

  /** The Uniform case of `crossover`: the parents are not touched. */
  method UniformCase(parents: seq<Chromosome>, crossoverRate: real, rng: Random, ghost kind: Kind, ghost length: nat)
    returns (offspring: seq<Chromosome>)
    requires Homogeneous(parents, kind, length)
    modifies rng, FirstTwo(parents)`genes, Buffers(parents)
    ensures |offspring| == 2 * (|parents| / 2)
    ensures Homogeneous(offspring, kind, length) && Separate(offspring)
    ensures forall j :: 0 <= j < |offspring| ==> fresh(offspring[j]) && fresh(offspring[j].genes.Buffer())
    ensures Homogeneous(parents, kind, length)
    ensures forall c :: c in FirstTwo(parents) ==> c.genes == old(c.genes) || fresh(c.genes.Buffer())
  {
    ghost var gs := seq(|parents|, i requires 0 <= i < |parents| reads parents, Buffers(parents) => parents[i].Contents());
    forall i | 0 <= i < |parents| {
      ValidEncodes(parents[i]);
    }
    assert UniformInput(parents, gs, kind, length);
    offspring := UniformCrossover(parents, gs, crossoverRate, rng, kind, length);
  }

  /** `crossover(parents, crossoverRate)` of the chosen strategy.  The offspring are fresh,
      separate chromosomes of the parents' class and length. */
  method Crossover(m: CrossoverMethod, parents: seq<Chromosome>, crossoverRate: real, rng: Random, ghost kind: Kind, ghost length: nat)
    returns (offspring: seq<Chromosome>)
    requires Homogeneous(parents, kind, length)
    modifies rng, FirstTwo(parents)`genes, Buffers(parents)
    ensures m.SinglePoint? ==> |offspring| == if |parents| < 2 then 0 else 2
    ensures m.TwoPoint? ==> |offspring| == 2 * ((|parents| + 1) / 2)
    ensures m.Uniform? ==> |offspring| == 2 * (|parents| / 2)
    ensures Homogeneous(offspring, kind, length) && Separate(offspring)
    ensures forall j :: 0 <= j < |offspring| ==> fresh(offspring[j]) && fresh(offspring[j].genes.Buffer())
    ensures Homogeneous(parents, kind, length)
    ensures forall c :: c in FirstTwo(parents) ==> c.genes == old(c.genes) || fresh(c.genes.Buffer())
  {
    match m
    case SinglePoint =>
      offspring := SinglePointCase(parents, crossoverRate, rng, kind, length);
    case TwoPoint =>
      offspring := TwoPointCase(parents, crossoverRate, rng, kind, length);
    case Uniform =>
      offspring := UniformCase(parents, crossoverRate, rng, kind, length);
  }
}
