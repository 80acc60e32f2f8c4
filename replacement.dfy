/** Survivor replacement: elitist and steady-state (GeneticAlgorithmLibrary/Replacement/).
    Both sort the old population's list by fitness with `List.sort`, which is stable;
    here that sort is the stable insertion sort SortByFitness. */
module Replacements {
  import opened Outcomes
  import opened RandomSource
  import opened Chromosomes
  import opened Populations
  import opened Selections

  // ------------------------------------------------------------------- stable sort

  /** s is ordered by ascending key. */
  predicate Ordered<T>(s: seq<T>, key: T -> real) {
    forall i, j :: 0 <= i < j < |s| ==> key(s[i]) <= key(s[j])
  }

  /** Inserts x in front of the first element whose key is not below its own. */
  function Insert<T>(x: T, s: seq<T>, key: T -> real): (r: seq<T>)
    ensures |r| == |s| + 1
  {
    if s == [] || key(x) <= key(s[0]) then [x] + s else [s[0]] + Insert(x, s[1..], key)
  }

  /** The stable insertion sort by ascending key. */
  function InsertionSort<T>(s: seq<T>, key: T -> real): (r: seq<T>)
    ensures |r| == |s|
  {
    if s == [] then [] else Insert(s[0], InsertionSort(s[1..], key), key)
  }

  /** Insert adds x to the elements. */
  lemma {:induction false} InsertPermutes<T>(x: T, s: seq<T>, key: T -> real)
    ensures multiset(Insert(x, s, key)) == multiset(s) + multiset{x}
  {
    if s != [] && key(s[0]) < key(x) {
      InsertPermutes(x, s[1..], key);
      assert s == [s[0]] + s[1..];
    }
  }

  /** Inserting into an ordered list gives an ordered list. */
  lemma {:induction false} InsertOrdered<T>(x: T, s: seq<T>, key: T -> real)
    requires Ordered(s, key)
    ensures Ordered(Insert(x, s, key), key)
  {
    if s != [] && key(s[0]) < key(x) {
      var t := Insert(x, s[1..], key);
      InsertOrdered(x, s[1..], key);
      InsertPermutes(x, s[1..], key);
      forall i | 0 <= i < |t|
        ensures key(s[0]) <= key(t[i])
      {
        assert t[i] in multiset(s[1..]) + multiset{x};
        if t[i] != x {
          var k :| 0 <= k < |s[1..]| && s[1..][k] == t[i];
          assert s[k + 1] == t[i];
        }
      }
      assert Insert(x, s, key) == [s[0]] + t;
    }
  }

  /** The insertion sort orders by key. */
  lemma {:induction false} SortOrders<T>(s: seq<T>, key: T -> real)
    ensures Ordered(InsertionSort(s, key), key)
  {
    if s != [] {
      SortOrders(s[1..], key);
      InsertOrdered(s[0], InsertionSort(s[1..], key), key);
    }
  }

  /** The insertion sort permutes the elements. */
  lemma {:induction false} SortPermutes<T>(s: seq<T>, key: T -> real)
    ensures multiset(InsertionSort(s, key)) == multiset(s)
  {
    if s != [] {
      SortPermutes(s[1..], key);
      InsertPermutes(s[0], InsertionSort(s[1..], key), key);
      assert s == [s[0]] + s[1..];
    }
  }

  /** The elements of s whose key is v, in their order in s. */
  function WithKey<T>(s: seq<T>, key: T -> real, v: real): (r: seq<T>)
    ensures |r| <= |s|
  {
    if s == [] then [] else (if key(s[0]) == v then [s[0]] else []) + WithKey(s[1..], key, v)
  }

  /** Insert passes over elements of smaller key only, so x lands in front of every
      element of the same key. */
  lemma {:induction false} InsertWithKey<T>(x: T, s: seq<T>, key: T -> real, v: real)
    ensures WithKey(Insert(x, s, key), key, v) == (if key(x) == v then [x] else []) + WithKey(s, key, v)
  {
    if s == [] || key(x) <= key(s[0]) {
      assert ([x] + s)[1..] == s;
    } else {
      InsertWithKey(x, s[1..], key, v);
      assert ([s[0]] + Insert(x, s[1..], key))[1..] == Insert(x, s[1..], key);
    }
  }

  /** The insertion sort is stable: the elements of any one key keep their input order. */
  lemma {:induction false} SortStable<T>(s: seq<T>, key: T -> real, v: real)
    ensures WithKey(InsertionSort(s, key), key, v) == WithKey(s, key, v)
  {
    if s != [] {
      SortStable(s[1..], key, v);
      InsertWithKey(s[0], InsertionSort(s[1..], key), key, v);
    }
  }

  /** The sort key of a chromosome: its fitness for an ascending sort, the negation for
      a descending one. */
  function Key(c: Chromosome, descending: bool): real
    reads c
  {
    if descending then -c.fitness else c.fitness
  }

  /** The sort keys of the chromosomes of cs, as a function on chromosomes. */
  function KeyOf(cs: seq<Chromosome>, descending: bool): (key: Chromosome -> real)
    reads cs
    ensures forall i :: 0 <= i < |cs| ==> key(cs[i]) == Key(cs[i], descending)
  {
    var m := map c | c in cs :: Key(c, descending);
    c => if c in m then m[c] else 0.0
  }

  /** `list.sort(Comparator.comparingDouble(Chromosome::getFitness))`, or with the
      comparator `.reversed()` when `descending`. */
  function SortByFitness(cs: seq<Chromosome>, descending: bool): (r: seq<Chromosome>)
    reads cs
    ensures |r| == |cs|
  {
    InsertionSort(cs, KeyOf(cs, descending))
  }

  /** SortByFitness is a permutation of its input, ordered by ascending or descending
      fitness. */
  lemma SortByFitnessSorts(cs: seq<Chromosome>, descending: bool)
    ensures multiset(SortByFitness(cs, descending)) == multiset(cs)
    ensures forall i, j :: 0 <= i < j < |cs| ==>
      Key(SortByFitness(cs, descending)[i], descending) <= Key(SortByFitness(cs, descending)[j], descending)
  {
    var key := KeyOf(cs, descending);
    var r := InsertionSort(cs, key);
    SortOrders(cs, key);
    SortPermutes(cs, key);
    forall i | 0 <= i < |r|
      ensures key(r[i]) == Key(r[i], descending)
    {
      assert r[i] in multiset(cs);
      var k :| 0 <= k < |cs| && cs[k] == r[i];
    }
  }

  /** SortByFitness is stable: the chromosomes of any one fitness keep their order in cs,
      which decides the elites kept among equally fit chromosomes. */
  lemma SortByFitnessStable(cs: seq<Chromosome>, descending: bool, v: real)
    ensures WithKey(SortByFitness(cs, descending), KeyOf(cs, descending), v) == WithKey(cs, KeyOf(cs, descending), v)
  {
    SortStable(cs, KeyOf(cs, descending), v);
  }

  /** Every member of the sorted list is a member of the input. */
  lemma SortMembers(cs: seq<Chromosome>, descending: bool)
    ensures forall j :: 0 <= j < |cs| ==> SortByFitness(cs, descending)[j] in cs
  {
    var r := SortByFitness(cs, descending);
    forall j | 0 <= j < |r| ensures r[j] in cs {
      SortByFitnessSorts(cs, descending);
      assert r[j] in multiset(cs);
    }
  }

  /** Sorting keeps every member valid. */
  lemma SortKeepsValid(cs: seq<Chromosome>, descending: bool)
    requires AllValid(cs)
    ensures AllValid(SortByFitness(cs, descending))
  {
    var r := SortByFitness(cs, descending);
    SortMembers(cs, descending);
    forall j | 0 <= j < |r| ensures r[j].Valid() {
      var k :| 0 <= k < |cs| && cs[k] == r[j];
    }
  }

  /** A member of cs outside the first k of the sorted list has a key at least that of
      each of the first k. */
  lemma SortedPrefix(cs: seq<Chromosome>, descending: bool, k: nat, c: Chromosome)
    requires k <= |cs| && c in SortByFitness(cs, descending)[k..]
    ensures forall i :: 0 <= i < k ==> Key(SortByFitness(cs, descending)[i], descending) <= Key(c, descending)
  {
    var r := SortByFitness(cs, descending);
    SortByFitnessSorts(cs, descending);
    var j :| k <= j < |r| && r[j] == c;
  }

  /** The first member of the sorted list has the least key of all members. */
  lemma SortedFirst(cs: seq<Chromosome>, descending: bool, c: Chromosome)
    requires c in cs
    ensures Key(SortByFitness(cs, descending)[0], descending) <= Key(c, descending)
  {
    var r := SortByFitness(cs, descending);
    SortByFitnessSorts(cs, descending);
    assert c in multiset(r);
    var j :| 0 <= j < |r| && r[j] == c;
  }

  // ----------------------------------------------------------- elitist replacement

  /** The number of elites `ElitistReplacement(numElites)` keeps of n individuals. */
  function EliteCount(numElites: int, n: nat): (e: nat)
    ensures e <= n
    ensures numElites >= 0 ==> e == Min(numElites, n)
  {
    Count(Min(numElites, n))
  }

  /** `list.sort(...)` on a population's live list: by ascending fitness, or descending
      when `descending`. */
  method SortPopulation(pop: Population, descending: bool)
    requires AllValid(pop.individuals)
    modifies pop
    ensures pop.individuals == old(SortByFitness(pop.individuals, descending))
    ensures AllValid(pop.individuals)
    ensures forall j :: 0 <= j < |pop.individuals| ==> pop.individuals[j] in old(pop.individuals)
  {
    SortKeepsValid(pop.individuals, descending);
    SortMembers(pop.individuals, descending);
    pop.individuals := SortByFitness(pop.individuals, descending);
  }

  /** The chromosomes ElitistReplacement's `replace` clones, in order: the first
      EliteCount members of the sorted old list, then offspring while the list is shorter
      than the old one. */
  function Survivors(numElites: int, sorted: seq<Chromosome>, offspring: seq<Chromosome>): (m: seq<Chromosome>)
    ensures var e := EliteCount(numElites, |sorted|);
      && |m| == e + Min(|sorted| - e, |offspring|)
      && (forall j :: 0 <= j < e ==> m[j] == sorted[j])
      && (forall j :: e <= j < |m| ==> m[j] == offspring[j - e])
  {
    var e := EliteCount(numElites, |sorted|);
    sorted[..e] + offspring[..Min(|sorted| - e, |offspring|)]
  }

  /** The two loops of ElitistReplacement's `replace`: a clone of every survivor. */
  method ElitistNext(numElites: int, sorted: seq<Chromosome>, offspring: seq<Chromosome>) returns (nextGen: seq<Chromosome>)
    requires AllValid(sorted) && AllValid(offspring)
    ensures var m := Survivors(numElites, sorted, offspring);
      |nextGen| == |m| && forall j :: 0 <= j < |m| ==> IsCloneOf(nextGen[j], m[j])
    ensures AllValid(nextGen) && Separate(nextGen)
    ensures forall j :: 0 <= j < |nextGen| ==> fresh(nextGen[j]) && fresh(nextGen[j].genes.Buffer())
  {
    nextGen := CloneEach(Survivors(numElites, sorted, offspring));
  }

  /** `setIndividuals(nextGen)` for a list of clones of m, which it stays. */
  method InstallClones(pop: Population, nextGen: seq<Chromosome>, ghost m: seq<Chromosome>)
    requires |nextGen| == |m| && forall j :: 0 <= j < |m| ==> IsCloneOf(nextGen[j], m[j])
    requires AllValid(nextGen) && Separate(nextGen)
    modifies pop
    ensures pop.individuals == nextGen
    ensures forall j :: 0 <= j < |m| ==> IsCloneOf(pop.individuals[j], m[j])
    ensures AllValid(pop.individuals) && Separate(pop.individuals)
  {
    pop.SetIndividuals(nextGen);
  }

  /** `ElitistReplacement.replace(oldPopulation, newPopulation)`: sorts the old list by
      descending fitness, keeps clones of its first EliteCount members, then clones the
      offspring in order until the list has the old size or the offspring run out, and
      stores the new list in the old population, which it returns. */
  method ElitistReplace(numElites: int, oldPop: Population, newPop: Population) returns (r: Population)
    requires AllValid(oldPop.individuals) && AllValid(newPop.individuals)
    modifies oldPop
    ensures r == oldPop
    ensures
      var sorted := old(SortByFitness(oldPop.individuals, true));
      var offspring := if newPop == oldPop then sorted else old(newPop.individuals);
      var m := Survivors(numElites, sorted, offspring);
      |r.individuals| == |m| && forall j :: 0 <= j < |m| ==> IsCloneOf(r.individuals[j], m[j])
    ensures AllValid(r.individuals) && Separate(r.individuals)
    ensures forall j :: 0 <= j < |r.individuals| ==> fresh(r.individuals[j]) && fresh(r.individuals[j].genes.Buffer())
  {
    SortPopulation(oldPop, true);
    var oldGen := oldPop.individuals;
    var newGen := newPop.individuals;
    var nextGen := ElitistNext(numElites, oldGen, newGen);
    InstallClones(oldPop, nextGen, Survivors(numElites, oldGen, newGen));
    return oldPop;
  }

  /** The elites are the best of the old population: none of the old individuals left
      out is fitter than any of them, and with at least one elite the first is a fittest
      individual. */
  lemma ElitesAreBest(s: seq<Chromosome>, numElites: int, c: Chromosome)
    requires c in s
    ensures var sorted := SortByFitness(s, true); var e := EliteCount(numElites, |s|);
      && (c in sorted[e..] ==> forall i :: 0 <= i < e ==> c.fitness <= sorted[i].fitness)
      && (e > 0 ==> c.fitness <= sorted[0].fitness)
  {
    var sorted := SortByFitness(s, true);
    var e := EliteCount(numElites, |s|);
    SortedFirst(s, true, c);
    if c in sorted[e..] {
      SortedPrefix(s, true, e, c);
    }
  }

  /** The new list has min(old size, elites + offspring) members: the old size whenever
      the offspring suffice, and never more. */
  lemma ElitistSize(numElites: int, sorted: seq<Chromosome>, offspring: seq<Chromosome>)
    ensures |Survivors(numElites, sorted, offspring)| == Min(|sorted|, EliteCount(numElites, |sorted|) + |offspring|)
    ensures |offspring| >= |sorted| ==> |Survivors(numElites, sorted, offspring)| == |sorted|
  {
  }

  // -------------------------------------------------------------- steady-state replacement

  /** The offspring index of the i-th draw from position `from`: `nextInt(n)`. */
  function Pick(source: nat -> real, from: nat, n: nat, i: nat): (k: nat)
    ensures n > 0 ==> k < n
  {
    IndexDraw(source(from + i), n)
  }

  /** `offspring.get(random.nextInt(offspring.size())).clone()`. */
  method DrawChild(offspring: seq<Chromosome>, rng: Random) returns (child: Chromosome)
    requires |offspring| > 0 && AllValid(offspring)
    modifies rng
    ensures rng.drawn == old(rng.drawn) + 1
    ensures child.Valid() && IsCloneOf(child, offspring[Pick(rng.source, old(rng.drawn), |offspring|, 0)])
    ensures fresh(child) && fresh(child.genes.Buffer())
  {
    var k := rng.NextInt(|offspring|);
    child := offspring[k].Clone();
  }

  /** `SteadyStateReplacement.replace(oldPopulation, newPopulation)`: sorts the old list
      by ascending fitness, then for each i below min(numToReplace, |offspring|) sets
      slot i to a clone of a randomly drawn offspring.  When that count exceeds the
      old size, the set at index |old| throws, after its draw and clone, leaving the
      slots before it replaced. */
  method SteadyStateReplace(numToReplace: int, oldPop: Population, newPop: Population, rng: Random)
    returns (r: Result<Population>)
    requires oldPop != newPop
    requires AllValid(oldPop.individuals) && AllValid(newPop.individuals)
    modifies oldPop, rng
    ensures
      var sorted := old(SortByFitness(oldPop.individuals, false));
      var offspring := old(newPop.individuals);
      var k := Count(Min(numToReplace, |offspring|));
      var done := Min(k, |sorted|);
      && |oldPop.individuals| == |sorted|
      && (forall j :: done <= j < |sorted| ==> oldPop.individuals[j] == sorted[j])
      && (forall j :: 0 <= j < done ==>
            IsCloneOf(oldPop.individuals[j], offspring[Pick(rng.source, old(rng.drawn), |offspring|, j)]))
      && (r.Success? <==> k <= |sorted|)
      && (r.Success? ==> r.value == oldPop && rng.drawn == old(rng.drawn) + k)
      && (r.Failure? ==> r.error == IndexOutOfBounds && rng.drawn == old(rng.drawn) + |sorted| + 1)
    ensures AllValid(oldPop.individuals)
    ensures forall j :: 0 <= j < |oldPop.individuals| ==>
      oldPop.individuals[j] in old(oldPop.individuals) || (fresh(oldPop.individuals[j]) && fresh(oldPop.individuals[j].genes.Buffer()))
  {
    SortPopulation(oldPop, false);
    var current := oldPop.individuals;
    var offspring := newPop.individuals;
    var fault;
    current, fault := ReplaceWeakest(current, offspring, Min(numToReplace, |offspring|), rng);
    oldPop.SetIndividuals(current);
    if fault {
      return Failure(IndexOutOfBounds);
    }
    return Success(oldPop);
  }

  /** One pass of SteadyStateReplacement's loop with i inside the list:
      `current.set(i, offspring.get(random.nextInt(offspring.size())).clone())`. */
  method ReplaceSlot(current: seq<Chromosome>, ghost sorted: seq<Chromosome>, offspring: seq<Chromosome>, i: nat, rng: Random, ghost d0: nat)
    returns (next: seq<Chromosome>)
    requires i < |current| == |sorted| && 0 < |offspring| && AllValid(current) && AllValid(offspring)
    requires rng.drawn == d0 + i
    requires forall j :: i <= j < |sorted| ==> current[j] == sorted[j]
    requires forall j :: 0 <= j < i ==> IsCloneOf(current[j], offspring[Pick(rng.source, d0, |offspring|, j)])
    modifies rng
    ensures |next| == |sorted| && rng.drawn == d0 + i + 1 && AllValid(next)
    ensures forall j :: i + 1 <= j < |sorted| ==> next[j] == sorted[j]
    ensures forall j :: 0 <= j < i + 1 ==> IsCloneOf(next[j], offspring[Pick(rng.source, d0, |offspring|, j)])
    ensures forall j :: 0 <= j < |next| && j != i ==> next[j] == current[j]
    ensures fresh(next[i]) && fresh(next[i].genes.Buffer())
  {
    BuffersAreNotRandom(current, rng);
    BuffersAreNotRandom(offspring, rng);
    var child := DrawChild(offspring, rng);
    next := current[i := child];
  }


  /** The loop of SteadyStateReplacement's `replace` on the sorted list: slot i becomes a
      clone of a drawn offspring, for i below k; `fault` is the set at index |sorted|. */
  method ReplaceWeakest(sorted: seq<Chromosome>, offspring: seq<Chromosome>, k: int, rng: Random)
    returns (current: seq<Chromosome>, fault: bool)
    requires k <= |offspring| && AllValid(sorted) && AllValid(offspring)
    modifies rng
    ensures var done := Min(Count(k), |sorted|);
      && |current| == |sorted|
      && (forall j :: done <= j < |sorted| ==> current[j] == sorted[j])
      && (forall j :: 0 <= j < done ==>
            IsCloneOf(current[j], offspring[Pick(rng.source, old(rng.drawn), |offspring|, j)]))
      && (fault <==> Count(k) > |sorted|)
      && rng.drawn == old(rng.drawn) + (if fault then |sorted| + 1 else Count(k))
      && (forall j :: 0 <= j < done ==> fresh(current[j]) && fresh(current[j].genes.Buffer()))
    ensures AllValid(current)
  {
    ghost var d0 := rng.drawn;
    current := sorted;
    var i := 0;
    while i < k
      invariant 0 <= i <= Count(k) && i <= |sorted|
      invariant |current| == |sorted| && rng.drawn == d0 + i && AllValid(current)
      invariant forall j :: i <= j < |sorted| ==> current[j] == sorted[j]
      invariant forall j :: 0 <= j < i ==>
        IsCloneOf(current[j], offspring[Pick(rng.source, d0, |offspring|, j)])
      invariant forall j :: 0 <= j < i ==> fresh(current[j]) && fresh(current[j].genes.Buffer())
    {
      if i >= |current| {
        // current.set(i, child) throws after the draw and the clone
        var _ := DrawChild(offspring, rng);
        return current, true;
      }
      current := ReplaceSlot(current, sorted, offspring, i, rng, d0);
      i := i + 1;
    }
    return current, false;
  }

  /** The overwritten slots hold the weakest old individuals: every one left in place is
      at least as fit as each of the first `done` of the ascending sort. */
  lemma ReplacedAreWeakest(s: seq<Chromosome>, done: nat, c: Chromosome)
    requires done <= |s| && c in SortByFitness(s, false)[done..]
    ensures forall i :: 0 <= i < done ==> SortByFitness(s, false)[i].fitness <= c.fitness
  {
    SortedPrefix(s, false, done, c);
  }

  // ------------------------------------------------------------------------ dispatch

  /** The replacement strategies, with their constructor arguments. */
  datatype ReplacementMethod = Elitist(numElites: int) | SteadyState(numToReplace: int)

  /** The list SteadyStateReplacement leaves, of the old members it kept and clones of
      offspring, has the one class and length of both lists. */
  lemma SteadyShape(out: seq<Chromosome>, sorted: seq<Chromosome>, offspring: seq<Chromosome>, done: nat,
                    source: nat -> real, from: nat, kind: Kind, length: nat)
    requires Homogeneous(sorted, kind, length) && Homogeneous(offspring, kind, length) && AllValid(out)
    requires |out| == |sorted| && done <= |sorted| && (done > 0 ==> |offspring| > 0)
    requires forall j :: done <= j < |sorted| ==> out[j] == sorted[j]
    requires forall j :: 0 <= j < done ==> IsCloneOf(out[j], offspring[Pick(source, from, |offspring|, j)])
    ensures Homogeneous(out, kind, length)
  {
  }

  /** ElitistReplacement keeps a population of one class and length one, of new
      chromosomes. */
  method ElitistCase(numElites: int, oldPop: Population, newPop: Population, ghost kind: Kind, ghost length: nat)
    returns (r: Result<Population>)
    requires Homogeneous(oldPop.individuals, kind, length) && Homogeneous(newPop.individuals, kind, length)
    modifies oldPop
    ensures r == Success(oldPop)
    ensures Homogeneous(oldPop.individuals, kind, length)
    ensures forall j :: 0 <= j < |oldPop.individuals| ==> fresh(oldPop.individuals[j]) && fresh(oldPop.individuals[j].genes.Buffer())
  {
    ghost var sorted := SortByFitness(oldPop.individuals, true);
    SortMembers(oldPop.individuals, true);
    MembersOf(sorted, oldPop.individuals, kind, length);
    ghost var offspring := if newPop == oldPop then sorted else newPop.individuals;
    ghost var survivors := Survivors(numElites, sorted, offspring);
    MembersOf(survivors, sorted + offspring, kind, length);
    var p := ElitistReplace(numElites, oldPop, newPop);
    ClonesKeepShape(p.individuals, survivors, seq(|survivors|, j => j), kind, length);
    r := Success(p);
  }

  /** SteadyStateReplacement keeps a population of one class and length one, of old
      members and new chromosomes, and of the old size. */
  method SteadyStateCase(numToReplace: int, oldPop: Population, newPop: Population, rng: Random, ghost kind: Kind, ghost length: nat)
    returns (r: Result<Population>)
    requires oldPop != newPop
    requires Homogeneous(oldPop.individuals, kind, length) && Homogeneous(newPop.individuals, kind, length)
    modifies oldPop, rng
    ensures r.Success? ==> r.value == oldPop
    ensures Homogeneous(oldPop.individuals, kind, length)
    ensures forall j :: 0 <= j < |oldPop.individuals| ==>
      oldPop.individuals[j] in old(oldPop.individuals) || (fresh(oldPop.individuals[j]) && fresh(oldPop.individuals[j].genes.Buffer()))
    ensures |oldPop.individuals| == old(|oldPop.individuals|)
  {
    ghost var d0 := rng.drawn;
    ghost var sorted := SortByFitness(oldPop.individuals, false);
    SortMembers(oldPop.individuals, false);
    MembersOf(sorted, oldPop.individuals, kind, length);
    ghost var offspring := newPop.individuals;
    r := SteadyStateReplace(numToReplace, oldPop, newPop, rng);
    SteadyShape(oldPop.individuals, sorted, offspring, Min(Count(Min(numToReplace, |offspring|)), |sorted|), rng.source, d0, kind, length);
  }

  /** `replacementMethod.replace(population, newPopulation)`.  A population of one class
      and length stays one, and its members are the old members or new chromosomes. */
  method Replace(m: ReplacementMethod, oldPop: Population, newPop: Population, rng: Random, ghost kind: Kind, ghost length: nat)
    returns (r: Result<Population>)
    requires m.SteadyState? ==> oldPop != newPop
    requires Homogeneous(oldPop.individuals, kind, length) && Homogeneous(newPop.individuals, kind, length)
    modifies oldPop, rng
    ensures r.Success? ==> r.value == oldPop
    ensures Homogeneous(oldPop.individuals, kind, length)
    ensures forall j :: 0 <= j < |oldPop.individuals| ==>
      oldPop.individuals[j] in old(oldPop.individuals) || (fresh(oldPop.individuals[j]) && fresh(oldPop.individuals[j].genes.Buffer()))
    ensures m.Elitist? ==> r.Success? && rng.drawn == old(rng.drawn)
    ensures m.SteadyState? ==> |oldPop.individuals| == old(|oldPop.individuals|)
  {
    match m {
      case Elitist(numElites) =>
        r := ElitistCase(numElites, oldPop, newPop, kind, length);
      case SteadyState(numToReplace) =>
        r := SteadyStateCase(numToReplace, oldPop, newPop, rng, kind, length);
    }
  }
}
