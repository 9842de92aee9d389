/** Selection of the parents of a new generation: the population sorted by
    non-increasing fitness, the elite and breeding-pool slices of it, the
    split of the new population into elite, offspring and random slots, the
    random choice of two parents, and the counts the controllers read off
    the population (birds alive, best score). */
module Selection {
  import opened Genome
  import opened Crossover
  import opened Birds

  /** Sorted by non-increasing fitness, the order the comparator
      `(a, b) => b.fitness - a.fitness` asks for. */
  predicate SortedByFitness(s: seq<Bird>)
    reads s
  {
    forall i, j :: 0 <= i < j < |s| ==> s[i].fitness >= s[j].fitness
  }

  /** Puts b in front of the first bird that is not fitter than it. */
  function Insert(b: Bird, s: seq<Bird>): (r: seq<Bird>)
    reads b, set x | x in s
    ensures |r| == |s| + 1
    ensures multiset(r) == multiset(s) + multiset{b}
  {
    if s == [] then [b]
    else if b.fitness >= s[0].fitness then [b] + s
    else
      assert s == [s[0]] + s[1..];
      [s[0]] + Insert(b, s[1..])
  }

  /** Inserting a bird no fitter than a bound into birds no fitter than
      it leaves every bird no fitter than it. */
  lemma {:induction false} InsertBelow(b: Bird, s: seq<Bird>, top: real)
    requires b.fitness <= top && forall k :: 0 <= k < |s| ==> s[k].fitness <= top
    ensures forall k :: 0 <= k < |Insert(b, s)| ==> Insert(b, s)[k].fitness <= top
  {
    if s != [] && b.fitness < s[0].fitness {
      InsertBelow(b, s[1..], top);
      assert Insert(b, s) == [s[0]] + Insert(b, s[1..]);
    }
  }

  /** Insertion keeps a population sorted. */
  lemma {:induction false} InsertSorted(b: Bird, s: seq<Bird>)
    requires SortedByFitness(s)
    ensures SortedByFitness(Insert(b, s))
  {
    if s != [] && b.fitness < s[0].fitness {
      var rest := Insert(b, s[1..]);
      InsertSorted(b, s[1..]);
      InsertBelow(b, s[1..], s[0].fitness);
      ConsSorted(s[0], rest);
      assert Insert(b, s) == [s[0]] + rest;
    }
  }

  /** A bird at least as fit as every bird of a sorted population can head
      it. */
  lemma ConsSorted(b: Bird, s: seq<Bird>)
    requires SortedByFitness(s) && forall k :: 0 <= k < |s| ==> s[k].fitness <= b.fitness
    ensures SortedByFitness([b] + s)
  {
    var r := [b] + s;
    forall i, j | 0 <= i < j < |r| ensures r[i].fitness >= r[j].fitness {
      assert r[j] == s[j - 1];
      if i > 0 {
        assert r[i] == s[i - 1];
      }
    }
  }

  /** The sorted copy of the population: an insertion sort that keeps
      birds of equal fitness in their original order, as the stable
      `Array.prototype.sort` does. */
  function SortByFitness(s: seq<Bird>): (r: seq<Bird>)
    reads s
    ensures |r| == |s|
    ensures multiset(r) == multiset(s)
  {
    if s == [] then []
    else
      assert s == [s[0]] + s[1..];
      var t := SortByFitness(s[1..]);
      SameMembers(t, s[1..]);
      Insert(s[0], t)
  }

  /** Sequences with the same multiset have the same members. */
  lemma SameMembers(t: seq<Bird>, u: seq<Bird>)
    requires multiset(t) == multiset(u)
    ensures forall x :: x in t ==> x in u
  {
    forall x | x in t ensures x in u {
      assert x in multiset(t);
    }
  }

  /** The sorted copy is sorted. */
  lemma {:induction false} SortByFitnessSorted(s: seq<Bird>)
    ensures SortedByFitness(SortByFitness(s))
  {
    if s != [] {
      SortByFitnessSorted(s[1..]);
      InsertSorted(s[0], SortByFitness(s[1..]));
    }
  }

  /** The sorted copy holds the same birds, so the same topology. */
  lemma SortKeepsShape(birds: seq<Bird>, hiddenLayerSize: nat)
    requires forall k :: 0 <= k < |birds| ==> birds[k].network.Shaped(hiddenLayerSize)
    ensures var sorted := SortByFitness(birds);
      forall k :: 0 <= k < |sorted| ==> sorted[k].network.Shaped(hiddenLayerSize)
  {
    var sorted := SortByFitness(birds);
    forall k | 0 <= k < |sorted| ensures sorted[k].network.Shaped(hiddenLayerSize) {
      assert sorted[k] in multiset(birds);
      var j :| 0 <= j < |birds| && birds[j] == sorted[k];
    }
  }

  /** The sorted copy holds no bird that is not in the population, and
      no bird twice when the population holds none twice. */
  lemma SortKeepsBirds(birds: seq<Bird>)
    ensures var sorted := SortByFitness(birds);
      && (forall x :: x in sorted ==> x in birds)
      && (Distinct(birds) ==> Distinct(sorted))
  {
    var sorted := SortByFitness(birds);
    SameMembers(sorted, birds);
  }

  /** The network arrays of a list of birds. */
  function Networks(birds: seq<Bird>): set<object>
    reads birds
  {
    (set b | b in birds :: b.network.weights as object) + (set b | b in birds :: b.network.biases as object)
  }

  /** `breedingPool.map(bird => this.extractChromosome(bird))`. */
  function Chromosomes(birds: seq<Bird>): (cs: seq<seq<real>>)
    reads birds, Networks(birds)
    ensures |cs| == |birds|
    ensures forall k :: 0 <= k < |birds| ==> cs[k] == ExtractChromosome(birds[k].network)
  {
    seq(|birds|, k requires 0 <= k < |birds| reads birds, Networks(birds) => ExtractChromosome(birds[k].network))
  }

  /** `ELITE_COUNT`. */
  const EliteSelection: nat := 2

  /** `Math.max(4, Math.floor(size * 0.5))`. */
  function PoolSize(size: nat): (n: nat)
    ensures n >= 4 && n * 2 <= size + 8
    ensures size >= 8 ==> n * 2 <= size < n * 2 + 2
  {
    if size / 2 > 4 then size / 2 else 4
  }

  /** The two results of `selectParents`. */
  datatype Parents = Parents(elites: seq<Bird>, breedingChromosomes: seq<seq<real>>)

  /** `selectParents` on the sorted copy: the first two birds, and the
      chromosomes of the first `PoolSize(size)` birds (fewer when the
      population is smaller), in sorted order. */
  function SelectParents(sorted: seq<Bird>, size: nat): (p: Parents)
    reads sorted, Networks(sorted)
    ensures |p.elites| == Min(EliteSelection, |sorted|)
    ensures |p.breedingChromosomes| == Min(PoolSize(size), |sorted|)
    ensures |p.elites| <= |p.breedingChromosomes|
    ensures p.elites == sorted[..|p.elites|]
    ensures forall k :: 0 <= k < |p.breedingChromosomes| ==> p.breedingChromosomes[k] == ExtractChromosome(sorted[k].network)
  {
    var pool := sorted[..Min(PoolSize(size), |sorted|)];
    assert Networks(pool) <= Networks(sorted) by {
      forall b | b in pool ensures b in sorted {
      }
    }
    Parents(sorted[..Min(EliteSelection, |sorted|)], Chromosomes(pool))
  }

  /** Any prefix of the sorted copy holds the fittest birds: every bird of
      the population is in the prefix or no fitter than any bird in it,
      and every bird of the prefix is a bird of the population. */
  lemma {:induction false} PrefixIsFittest(birds: seq<Bird>, m: nat)
    requires m <= |birds|
    ensures var sorted := SortByFitness(birds);
      && (forall b :: b in sorted[..m] ==> b in birds)
      && (forall b :: b in birds ==> b in sorted[..m] || forall i :: 0 <= i < m ==> sorted[i].fitness >= b.fitness)
  {
    var sorted := SortByFitness(birds);
    SortByFitnessSorted(birds);
    forall b | b in sorted[..m] ensures b in birds {
      assert b in multiset(sorted);
    }
    forall b | b in birds ensures b in sorted[..m] || forall i :: 0 <= i < m ==> sorted[i].fitness >= b.fitness {
      assert b in multiset(sorted);
      var j :| 0 <= j < |sorted| && sorted[j] == b;
      if j < m {
        assert sorted[..m][j] == b;
      }
    }
  }

  /** The elites are the (at most) two fittest birds: both are birds of
      the population, no bird outside the elites is fitter than either of
      them, and the first elite is at least as fit as every bird. */
  lemma ElitesAreFittest(birds: seq<Bird>, size: nat)
    ensures var p := SelectParents(SortByFitness(birds), size);
      && (forall e :: e in p.elites ==> e in birds)
      && (forall b :: b in birds ==> b in p.elites || forall i :: 0 <= i < |p.elites| ==> p.elites[i].fitness >= b.fitness)
      && (|birds| > 0 ==> forall b :: b in birds ==> p.elites[0].fitness >= b.fitness)
  {
    var sorted := SortByFitness(birds);
    var p := SelectParents(sorted, size);
    assert p.elites == sorted[..|p.elites|];
    PrefixIsFittest(birds, |p.elites|);
    if |birds| > 0 {
      FirstIsFittest(birds);
    }
  }

  /** The head of the sorted copy is at least as fit as every bird. */
  lemma FirstIsFittest(birds: seq<Bird>)
    requires |birds| > 0
    ensures forall b :: b in birds ==> SortByFitness(birds)[0].fitness >= b.fitness
  {
    var sorted := SortByFitness(birds);
    SortByFitnessSorted(birds);
    forall b | b in birds ensures sorted[0].fitness >= b.fitness {
      assert b in multiset(sorted);
      var j :| 0 <= j < |sorted| && sorted[j] == b;
    }
  }

  /** The breeding pool is taken from the fittest birds: every bird whose
      chromosome is left out is no fitter than any bird that supplied one,
      and the elites' chromosomes head the pool. */
  lemma PoolIsFittest(birds: seq<Bird>, size: nat)
    ensures var sorted := SortByFitness(birds);
      var p := SelectParents(sorted, size);
      var m := |p.breedingChromosomes|;
      && (forall b :: b in sorted[..m] ==> b in birds)
      && (forall b :: b in birds ==> b in sorted[..m] || forall i :: 0 <= i < m ==> sorted[i].fitness >= b.fitness)
      && (forall k :: 0 <= k < |p.elites| ==> p.breedingChromosomes[k] == ExtractChromosome(p.elites[k].network))
  {
    var sorted := SortByFitness(birds);
    PrefixIsFittest(birds, |SelectParents(sorted, size).breedingChromosomes|);
  }

  /** The sizes of the three parts of the new population. */
  datatype Counts = Counts(eliteCount: nat, offspringCount: nat, randomCount: nat)

  lemma FractionsFit(size: nat)
    ensures size * 2 / 100 + size * 5 / 100 <= size
  {
    assert size * 2 / 100 <= size * 2 / 100;
    assert (size * 2 / 100) * 100 <= size * 2;
    assert (size * 5 / 100) * 100 <= size * 5;
  }

  /** `calculatePopulationDistribution`: 2% elites and 5% random birds,
      rounded down, and offspring for the rest. */
  function Distribution(size: nat): (c: Counts)
    ensures c.eliteCount + c.offspringCount + c.randomCount == size
    ensures c.eliteCount * 100 <= size * 2 < (c.eliteCount + 1) * 100
    ensures c.randomCount * 100 <= size * 5 < (c.randomCount + 1) * 100
  {
    FractionsFit(size);
    var elite := size * 2 / 100;
    var random := size * 5 / 100;
    Counts(elite, size - elite - random, random)
  }

  /** The configured population of 100 splits into 2 elites, 93 offspring
      and 5 random birds. */
  lemma DefaultDistribution()
    ensures Distribution(100) == Counts(2, 93, 5)
  {
  }

  /** From 150 birds on, the 2% elite share asks for more elite slots than
      the two elites `selectParents` returns, so the elite loop reads an
      elite that does not exist. */
  lemma DistributionOverrunsElites(size: nat)
    requires size >= 150
    ensures Distribution(size).eliteCount > EliteSelection
  {
  }

  /** The distribution with the elite share capped at the number of
      selected elites; the slots given up go to offspring. */
  function CappedDistribution(size: nat): (c: Counts)
    ensures c.eliteCount + c.offspringCount + c.randomCount == size
    ensures c.eliteCount <= Min(EliteSelection, size)
    ensures c.randomCount == Distribution(size).randomCount
    ensures c.offspringCount >= Distribution(size).offspringCount
  {
    var d := Distribution(size);
    var elite := Min(d.eliteCount, EliteSelection);
    Counts(elite, size - elite - d.randomCount, d.randomCount)
  }

  /** Below 150 birds the cap changes nothing. */
  lemma CappedDistributionAgrees(size: nat)
    requires size < 150
    ensures CappedDistribution(size) == Distribution(size)
  {
  }

  /** Every elite slot of the capped distribution has an elite to copy,
      and a population with offspring slots has a non-empty pool. */
  lemma CappedDistributionFeasible(birds: seq<Bird>, size: nat)
    requires |birds| == size
    ensures var c := CappedDistribution(size);
      var p := SelectParents(SortByFitness(birds), size);
      && c.eliteCount <= |p.elites|
      && (c.offspringCount > 0 ==> |p.breedingChromosomes| > 0)
  {
  }

  /** All chromosomes of a pool have n genes. */
  predicate SameLength(pool: seq<seq<real>>, n: nat)
  {
    forall k :: 0 <= k < |pool| ==> |pool[k]| == n
  }

  /** `breedRandomParents`: two parents picked as `floor(r * length)`
      (possibly the same one) and crossed over. */
  function BreedRandomParents(pool: seq<seq<real>>, n: nat, breeding: BreedingMethod, pickA: real, pickB: real, cross: seq<real>): (child: seq<real>)
    requires |pool| > 0 && SameLength(pool, n)
    requires IsDraw(pickA) && IsDraw(pickB) && CrossDraws(cross, n)
    ensures |child| == n
    ensures var a := pool[FloorScaled(pickA, |pool|)];
      var b := pool[FloorScaled(pickB, |pool|)];
      forall g :: 0 <= g < n ==> child[g] == a[g] || child[g] == b[g]
  {
    CrossOver(pool[FloorScaled(pickA, |pool|)], pool[FloorScaled(pickB, |pool|)], breeding, cross)
  }

  /** A pool of one chromosome breeds clones of it. */
  lemma SingleParentClones(c: seq<real>, breeding: BreedingMethod, pickA: real, pickB: real, cross: seq<real>)
    requires IsDraw(pickA) && IsDraw(pickB) && CrossDraws(cross, |c|)
    ensures BreedRandomParents([c], |c|, breeding, pickA, pickB, cross) == c
  {
    CrossOverOfClones(c, breeding, cross);
  }

  /** How many flags are set. */
  function CountTrue(flags: seq<bool>): nat
  {
    if flags == [] then 0
    else CountTrue(flags[..|flags| - 1]) + (if flags[|flags| - 1] then 1 else 0)
  }

  lemma {:induction false} CountTrueBounds(flags: seq<bool>)
    ensures CountTrue(flags) <= |flags|
    ensures CountTrue(flags) == 0 <==> forall k :: 0 <= k < |flags| ==> !flags[k]
    ensures CountTrue(flags) == |flags| <==> forall k :: 0 <= k < |flags| ==> flags[k]
  {
    if flags != [] {
      var init := flags[..|flags| - 1];
      CountTrueBounds(init);
      assert forall k :: 0 <= k < |init| ==> init[k] == flags[k];
    }
  }

  /** Changing one flag changes the count by at most one, as the flag
      says. */
  lemma {:induction false} CountTrueUpdate(flags: seq<bool>, k: nat, v: bool)
    requires k < |flags|
    ensures CountTrue(flags[k := v]) == CountTrue(flags) - (if flags[k] then 1 else 0) + (if v then 1 else 0)
    decreases |flags|
  {
    var last := |flags| - 1;
    if k < last {
      CountTrueUpdate(flags[..last], k, v);
      assert flags[k := v][..last] == flags[..last][k := v];
    } else {
      assert flags[k := v][..last] == flags[..last];
    }
  }

  /** Which birds are alive. */
  function AliveFlags(birds: seq<Bird>): (flags: seq<bool>)
    reads birds
    ensures |flags| == |birds|
    ensures forall k :: 0 <= k < |birds| ==> flags[k] == birds[k].alive
  {
    seq(|birds|, k requires 0 <= k < |birds| reads birds => birds[k].alive)
  }

  function AliveCount(birds: seq<Bird>): nat
    reads birds
  {
    CountTrue(AliveFlags(birds))
  }

  /** When only bird k may have changed, the alive count moves by what bird
      k's flag did. */
  lemma AliveCountAfterOne(before: seq<bool>, birds: seq<Bird>, k: nat)
    requires |before| == |birds| && k < |birds|
    requires forall j :: 0 <= j < |birds| && j != k ==> birds[j].alive == before[j]
    ensures AliveCount(birds) == CountTrue(before) - (if before[k] then 1 else 0) + (if birds[k].alive then 1 else 0)
  {
    assert AliveFlags(birds) == before[k := birds[k].alive];
    CountTrueUpdate(before, k, birds[k].alive);
  }

  /** No bird is alive exactly when the alive count is zero; all are
      alive exactly when it is the population's size. */
  lemma AliveCountBounds(birds: seq<Bird>)
    ensures AliveCount(birds) <= |birds|
    ensures AliveCount(birds) == 0 <==> forall k :: 0 <= k < |birds| ==> !birds[k].alive
    ensures AliveCount(birds) == |birds| <==> forall k :: 0 <= k < |birds| ==> birds[k].alive
  {
    CountTrueBounds(AliveFlags(birds));
  }
}
