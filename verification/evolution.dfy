/** The generation controller of the current revision: it builds the first
    population, lets the birds fly until none is alive, and then rebuilds
    the population from the fittest birds of the last one (elite copies,
    bred and mutated offspring, and a few random newcomers). */
module Evolution {
  import opened Arena
  import opened Genome
  import opened Crossover
  import opened Birds
  import opened Selection

  /** The configured values. */
  const ConfigMutationChance: real := 0.02
  const ConfigSize: nat := 100
  const ConfigHiddenLayerSize: nat := 4
  const ConfigBreedingMethod: BreedingMethod := OnePoint

  /** The `Math.random()` draws spent on slot k of a new population: the
      new bird's own network (`init`), the two parent picks, the crossover
      draws, and the mutation draws of `setChromosome`. Slots that do not
      breed or mutate leave the later fields unused. */
  datatype SlotDraws = SlotDraws(init: seq<real>, pickA: real, pickB: real, cross: seq<real>, rolls: seq<real>, values: seq<real>)

  predicate SlotReady(d: SlotDraws, hiddenLayerSize: nat)
  {
    var n := GeneCount(hiddenLayerSize);
    && |d.init| >= n && AllDraws(d.init)
    && IsDraw(d.pickA) && IsDraw(d.pickB)
    && CrossDraws(d.cross, n)
    && |d.rolls| >= n && AllDraws(d.rolls)
    && |d.values| >= n && AllDraws(d.values)
  }

  predicate AllReady(slots: seq<SlotDraws>, hiddenLayerSize: nat, n: nat)
  {
    |slots| >= n && forall k :: 0 <= k < n ==> SlotReady(slots[k], hiddenLayerSize)
  }

  /** What the selection hands to the rebuild is enough to fill it: an
      elite chromosome for every elite slot, a parent for every offspring
      slot, and one chromosome length. */
  predicate Breedable(pool: seq<seq<real>>, counts: Counts, hiddenLayerSize: nat)
  {
    && counts.eliteCount <= |pool|
    && (counts.offspringCount > 0 ==> |pool| > 0)
    && SameLength(pool, GeneCount(hiddenLayerSize))
  }

  /** The chromosome slot k of the new population receives: the k-th
      fittest chromosome for an elite slot (`elites[k]` heads the pool), a
      bred and mutated child for an offspring slot, the new bird's own
      random genes for a random slot. */
  function NewChromosome(k: nat, pool: seq<seq<real>>, counts: Counts, d: SlotDraws, hiddenLayerSize: nat, breeding: BreedingMethod, chance: real): (c: seq<real>)
    requires Breedable(pool, counts, hiddenLayerSize) && SlotReady(d, hiddenLayerSize)
    requires k < counts.eliteCount + counts.offspringCount + counts.randomCount
    ensures |c| == GeneCount(hiddenLayerSize)
  {
    var n := GeneCount(hiddenLayerSize);
    if k < counts.eliteCount then
      pool[k]
    else if k < counts.eliteCount + counts.offspringCount then
      Injected(BreedRandomParents(pool, n, breeding, d.pickA, d.pickB, d.cross), d.rolls, d.values, chance)
    else
      Randomised(d.init[..n])
  }

  /** Every gene of a new chromosome is a parent's gene at the same
      position or a fresh value in [-1, 1); an elite slot holds an exact
      copy of a pool chromosome. */
  lemma NewChromosomeGenes(k: nat, pool: seq<seq<real>>, counts: Counts, d: SlotDraws, hiddenLayerSize: nat, breeding: BreedingMethod, chance: real)
    requires Breedable(pool, counts, hiddenLayerSize) && SlotReady(d, hiddenLayerSize)
    requires k < counts.eliteCount + counts.offspringCount + counts.randomCount
    ensures var c := NewChromosome(k, pool, counts, d, hiddenLayerSize, breeding, chance);
      && (k < counts.eliteCount ==> c == pool[k])
      && forall g :: 0 <= g < |c| ==> (exists i :: 0 <= i < |pool| && c[g] == pool[i][g]) || -1.0 <= c[g] < 1.0
  {
    var c := NewChromosome(k, pool, counts, d, hiddenLayerSize, breeding, chance);
    var n := GeneCount(hiddenLayerSize);
    if counts.eliteCount <= k < counts.eliteCount + counts.offspringCount {
      var child := BreedRandomParents(pool, n, breeding, d.pickA, d.pickB, d.cross);
      forall g | 0 <= g < n ensures (exists i :: 0 <= i < |pool| && c[g] == pool[i][g]) || -1.0 <= c[g] < 1.0 {
        InjectedGenes(child, d.rolls, d.values, chance, g);
        var ia, ib := FloorScaled(d.pickA, |pool|), FloorScaled(d.pickB, |pool|);
        if c[g] == pool[ia][g] {
        } else if c[g] == pool[ib][g] {
        }
      }
    } else if k < counts.eliteCount {
      forall g | 0 <= g < n ensures exists i :: 0 <= i < |pool| && c[g] == pool[i][g] {
        assert c[g] == pool[k][g];
      }
    }
  }

  /** The genes replaced in the offspring slots lo .. hi-1. */
  function MutationsBetween(slots: seq<SlotDraws>, lo: nat, hi: nat, hiddenLayerSize: nat, chance: real): nat
    requires AllReady(slots, hiddenLayerSize, hi)
    decreases hi
  {
    if hi <= lo then 0
    else MutationsBetween(slots, lo, hi - 1, hiddenLayerSize, chance)
         + MutationCount(slots[hi - 1].rolls[..GeneCount(hiddenLayerSize)], chance)
  }

  /** The genes replaced while the offspring slots of `counts` are bred. */
  function OffspringMutations(slots: seq<SlotDraws>, counts: Counts, hiddenLayerSize: nat, chance: real): nat
    requires AllReady(slots, hiddenLayerSize, counts.eliteCount + counts.offspringCount)
  {
    MutationsBetween(slots, counts.eliteCount, counts.eliteCount + counts.offspringCount, hiddenLayerSize, chance)
  }

  /** With mutation chance 0 no slot counts a replaced gene. */
  lemma {:induction false} NoMutationsWithoutChance(slots: seq<SlotDraws>, lo: nat, hi: nat, hiddenLayerSize: nat)
    requires AllReady(slots, hiddenLayerSize, hi)
    ensures MutationsBetween(slots, lo, hi, hiddenLayerSize, 0.0) == 0
    decreases hi
  {
    if hi > lo {
      NoMutationsWithoutChance(slots, lo, hi - 1, hiddenLayerSize);
      var rolls := slots[hi - 1].rolls[..GeneCount(hiddenLayerSize)];
      assert AllDraws(rolls) by {
        assert forall j :: 0 <= j < |rolls| ==> rolls[j] == slots[hi - 1].rolls[j];
      }
      MutationCountWithoutMutation(rolls);
    }
  }

  /** Writing back n genes with mutation chance 0 copies them and counts
      no mutation. */
  lemma EliteCopyIsExact(genes: seq<real>, rolls: seq<real>, values: seq<real>, n: nat)
    requires |genes| == n && |rolls| >= n && |values| >= n && AllDraws(rolls)
    ensures Injected(genes[..n], rolls, values, 0.0) == genes
    ensures MutationCount(rolls[..n], 0.0) == 0
  {
    assert genes[..n] == genes;
    InjectedWithoutMutation(genes, rolls, values);
    assert AllDraws(rolls[..n]) by {
      assert forall j :: 0 <= j < n ==> rolls[..n][j] == rolls[j];
    }
    MutationCountWithoutMutation(rolls[..n]);
  }

  /** What the selection hands on from a population of shaped networks is
      enough to rebuild it: the pool holds chromosomes of one length and
      covers the (capped) distribution, and its head is the elites'
      chromosomes. */
  lemma ParentsBreedable(birds: seq<Bird>, size: nat, hiddenLayerSize: nat)
    requires |birds| == size
    requires forall k :: 0 <= k < |birds| ==> birds[k].network.Shaped(hiddenLayerSize)
    ensures var parents := SelectParents(SortByFitness(birds), size);
      var counts := CappedDistribution(size);
      && Breedable(parents.breedingChromosomes, counts, hiddenLayerSize)
      && counts.eliteCount <= |parents.elites|
      && forall k :: 0 <= k < counts.eliteCount ==> ExtractChromosome(parents.elites[k].network) == parents.breedingChromosomes[k]
  {
    var sorted := SortByFitness(birds);
    SortKeepsShape(birds, hiddenLayerSize);
    var pool := SelectParents(sorted, size).breedingChromosomes;
    assert forall k :: 0 <= k < |pool| ==> |pool[k]| == |ExtractChromosome(sorted[k].network)|;
    CappedDistributionFeasible(birds, size);
  }

  class Generation {
    /** The renderer state shared with the birds. */
    const world: World
    const size: nat
    const mutationChance: real
    const hiddenLayerSize: nat
    const breedingMethod: BreedingMethod
    var birds: seq<Bird>
    var generation: int

    /** `size` distinct birds, each with a network of the configured
        topology. */
    predicate Valid()
      reads this, birds
    {
      && |birds| == size
      && Distinct(birds)
      && (forall k :: 0 <= k < |birds| ==> birds[k].network.Shaped(hiddenLayerSize))
    }

    /** The constructor and `initialize`: the first wall pair, then `size`
        new birds with random networks, at generation 1. */
    constructor (world: World, size: nat, mutationChance: real, hiddenLayerSize: nat, breedingMethod: BreedingMethod,
                 firstPair: WallPair, slots: seq<SlotDraws>)
      requires AllReady(slots, hiddenLayerSize, size)
      modifies world`walls
      ensures this.world == world && this.size == size && this.mutationChance == mutationChance
      ensures this.hiddenLayerSize == hiddenLayerSize && this.breedingMethod == breedingMethod
      ensures generation == 1
      ensures Valid()
      ensures world.walls == old(world.walls) + [firstPair]
      ensures forall k :: 0 <= k < size ==>
        && fresh(birds[k]) && birds[k].alive && birds[k].fitness == 0.0 && birds[k].score == 0
        && ExtractChromosome(birds[k].network) == Randomised(slots[k].init[..GeneCount(hiddenLayerSize)])
    {
      this.world := world;
      this.size := size;
      this.mutationChance := mutationChance;
      this.hiddenLayerSize := hiddenLayerSize;
      this.breedingMethod := breedingMethod;
      generation := 1;
      world.walls := world.walls + [firstPair];
      var flock: seq<Bird> := [];
      for i := 0 to size
        invariant world.walls == old(world.walls) + [firstPair]
        invariant |flock| == i
        invariant Distinct(flock)
        invariant forall j :: 0 <= j < i ==>
          && fresh(flock[j]) && flock[j].alive && flock[j].fitness == 0.0 && flock[j].score == 0
          && flock[j].network.Shaped(hiddenLayerSize)
          && ExtractChromosome(flock[j].network) == Randomised(slots[j].init[..GeneCount(hiddenLayerSize)])
      {
        var bird := new Bird(world, hiddenLayerSize, slots[i].init);
        DistinctPush(flock, bird);
        flock := flock + [bird];
      }
      birds := flock;
    }

    /** `terminate`: every bird dies (rewarded by its distance to the gap,
        and counted off `birdsAlive` even when already dead), the walls are
        cleared, `birdsAlive` is reset to the size and the list emptied. */
    method Terminate(distances: seq<real>, ghost elites: seq<Bird>, ghost pool: seq<seq<real>>, ghost count: nat)
      requires Valid()
      requires |distances| >= |birds| && forall k :: 0 <= k < |birds| ==> distances[k] != 0.0
      requires count <= |elites| && count <= |pool| && forall k :: 0 <= k < count ==> ExtractChromosome(elites[k].network) == pool[k]
      modifies this`birds, world`walls, world`birdsAlive, (set b | b in birds)`alive, (set b | b in birds)`fitness
      ensures birds == [] && world.walls == [] && world.birdsAlive == size
      ensures forall k :: 0 <= k < |old(birds)| ==>
        !old(birds)[k].alive && old(birds)[k].fitness == old(birds[k].fitness) + 1.0 / distances[k]
      ensures forall k :: 0 <= k < count ==> ExtractChromosome(elites[k].network) == pool[k]
    {
      ghost var flock := birds;
      for i := 0 to |birds|
        invariant birds == flock
        invariant forall k :: 0 <= k < i ==> !flock[k].alive && flock[k].fitness == old(flock[k].fitness) + 1.0 / distances[k]
        invariant forall k :: i <= k < |flock| ==> flock[k].fitness == old(flock[k].fitness)
        invariant forall k :: 0 <= k < count ==> ExtractChromosome(elites[k].network) == pool[k]
      {
        DistinctOthers(flock, i);
        birds[i].Die(world, distances[i]);
      }
      world.walls := [];
      world.birdsAlive := size;
      birds := [];
    }

    /** One pass of the elite loop: a new bird takes `elites[k]`'s
        chromosome with mutation chance 0, an exact copy. */
    method SpawnElite(k: nat, elite: Bird, pool: seq<seq<real>>, counts: Counts, slots: seq<SlotDraws>)
      returns (bird: Bird, replaced: nat)
      requires Breedable(pool, counts, hiddenLayerSize) && k < |slots| && SlotReady(slots[k], hiddenLayerSize)
      requires k < counts.eliteCount && ExtractChromosome(elite.network) == pool[k]
      ensures fresh(bird) && replaced == 0
      ensures Hatched(bird, hiddenLayerSize, NewChromosome(k, pool, counts, slots[k], hiddenLayerSize, breedingMethod, mutationChance))
    {
      var d := slots[k];
      var n := GeneCount(hiddenLayerSize);
      EliteCopyIsExact(pool[k], d.rolls, d.values, n);
      bird := new Bird(world, hiddenLayerSize, d.init);
      assert bird.network.weights.Length + bird.network.biases.Length == n;
      var eliteChromosome := new GeneList(ExtractChromosome(elite.network));
      assert eliteChromosome.items == pool[k];
      replaced := bird.SetChromosome(eliteChromosome, 0.0, d.rolls, d.values);
      assert ExtractChromosome(bird.network) == pool[k];
    }

    /** One pass of the offspring loop: a new bird takes a child of two
        random pool parents, mutated with the configured chance. */
    method SpawnOffspring(k: nat, pool: seq<seq<real>>, counts: Counts, slots: seq<SlotDraws>)
      returns (bird: Bird, replaced: nat)
      requires Breedable(pool, counts, hiddenLayerSize) && k < |slots| && SlotReady(slots[k], hiddenLayerSize)
      requires counts.eliteCount <= k < counts.eliteCount + counts.offspringCount
      ensures fresh(bird)
      ensures replaced == MutationCount(slots[k].rolls[..GeneCount(hiddenLayerSize)], mutationChance)
      ensures Hatched(bird, hiddenLayerSize, NewChromosome(k, pool, counts, slots[k], hiddenLayerSize, breedingMethod, mutationChance))
    {
      var d := slots[k];
      bird := new Bird(world, hiddenLayerSize, d.init);
      var n := GeneCount(hiddenLayerSize);
      var offspring := new GeneList(BreedRandomParents(pool, n, breedingMethod, d.pickA, d.pickB, d.cross));
      replaced := bird.SetChromosome(offspring, mutationChance, d.rolls, d.values);
    }

    /** One pass of the random loop: a new bird keeps its own random
        network. */
    method SpawnRandom(k: nat, pool: seq<seq<real>>, counts: Counts, slots: seq<SlotDraws>) returns (bird: Bird)
      requires Breedable(pool, counts, hiddenLayerSize) && k < |slots| && SlotReady(slots[k], hiddenLayerSize)
      requires counts.eliteCount + counts.offspringCount <= k < counts.eliteCount + counts.offspringCount + counts.randomCount
      ensures fresh(bird)
      ensures Hatched(bird, hiddenLayerSize, NewChromosome(k, pool, counts, slots[k], hiddenLayerSize, breedingMethod, mutationChance))
    {
      bird := new Bird(world, hiddenLayerSize, slots[k].init);
    }

    /** `targets` lists, slot by slot, the chromosome each slot of the new
        population receives. */
    predicate Planned(targets: seq<seq<real>>, pool: seq<seq<real>>, counts: Counts, slots: seq<SlotDraws>)
    {
      && Breedable(pool, counts, hiddenLayerSize)
      && AllReady(slots, hiddenLayerSize, counts.eliteCount + counts.offspringCount + counts.randomCount)
      && |targets| == counts.eliteCount + counts.offspringCount + counts.randomCount
      && forall k {:trigger NewChromosome(k, pool, counts, slots[k], hiddenLayerSize, breedingMethod, mutationChance)} ::
           0 <= k < |targets| ==> targets[k] == NewChromosome(k, pool, counts, slots[k], hiddenLayerSize, breedingMethod, mutationChance)
    }

    /** `createNewPopulation`: push the elite copies (mutation chance 0),
        then the bred children (the configured chance), then the random
        birds, each slot k using its own draws. */
    method CreateNewPopulation(elites: seq<Bird>, pool: seq<seq<real>>, counts: Counts, slots: seq<SlotDraws>)
      requires birds == []
      requires Breedable(pool, counts, hiddenLayerSize)
      requires counts.eliteCount <= |elites|
      requires forall k :: 0 <= k < counts.eliteCount ==> ExtractChromosome(elites[k].network) == pool[k]
      requires AllReady(slots, hiddenLayerSize, counts.eliteCount + counts.offspringCount + counts.randomCount)
      modifies this`birds, world`mutated
      ensures |birds| == counts.eliteCount + counts.offspringCount + counts.randomCount
      ensures Distinct(birds)
      ensures forall k :: 0 <= k < |birds| ==> fresh(birds[k])
      ensures forall k :: 0 <= k < |birds| ==>
        Hatched(birds[k], hiddenLayerSize, NewChromosome(k, pool, counts, slots[k], hiddenLayerSize, breedingMethod, mutationChance))
      ensures world.mutated == old(world.mutated)
        + OffspringMutations(slots, counts, hiddenLayerSize, mutationChance)
      ensures |birds| == size ==> Valid() && AliveCount(birds) == size
    {
      ghost var total := counts.eliteCount + counts.offspringCount + counts.randomCount;
      ghost var targets := seq(total, k requires 0 <= k < total =>
        NewChromosome(k, pool, counts, slots[k], hiddenLayerSize, breedingMethod, mutationChance));
      assert Planned(targets, pool, counts, slots);
      birds := Hatchery(elites, pool, counts, slots, targets);
    }

    /** The three loops of `createNewPopulation` one after the other: the
        new flock holds, slot by slot, a fresh bird hatched with the
        planned chromosome. */
    method Hatchery(elites: seq<Bird>, pool: seq<seq<real>>, counts: Counts, slots: seq<SlotDraws>, ghost targets: seq<seq<real>>)
      returns (flock: seq<Bird>)
      requires Planned(targets, pool, counts, slots)
      requires counts.eliteCount <= |elites|
      requires forall k :: 0 <= k < counts.eliteCount ==> ExtractChromosome(elites[k].network) == pool[k]
      modifies world`mutated
      ensures |flock| == |targets| && Distinct(flock)
      ensures forall k :: 0 <= k < |flock| ==> fresh(flock[k])
      ensures forall k :: 0 <= k < |flock| ==> Hatched(flock[k], hiddenLayerSize, targets[k])
      ensures world.mutated == old(world.mutated)
        + OffspringMutations(slots, counts, hiddenLayerSize, mutationChance)
      ensures |flock| == size ==>
        (forall k :: 0 <= k < |flock| ==> flock[k].network.Shaped(hiddenLayerSize)) && AliveCount(flock) == size
    {
      var eliteFlock := PushElites(elites, pool, counts, slots, targets);
      var bredFlock := PushOffspring(eliteFlock, pool, counts, slots, targets);
      flock := PushRandom(bredFlock, pool, counts, slots, targets);
      forall k | 0 <= k < |flock| ensures fresh(flock[k]) {
        var e, o := counts.eliteCount, counts.eliteCount + counts.offspringCount;
        if k < e {
          assert flock[k] == bredFlock[..o][k] == eliteFlock[k];
        } else if k < o {
          assert flock[k] == bredFlock[k];
        }
      }
      if |flock| == size {
        HatchedFlock(flock, targets);
      }
    }

    /** A flock of newly hatched birds is all alive and all shaped. */
    lemma HatchedFlock(flock: seq<Bird>, targets: seq<seq<real>>)
      requires |targets| == |flock|
      requires forall k :: 0 <= k < |flock| ==> Hatched(flock[k], hiddenLayerSize, targets[k])
      ensures forall k :: 0 <= k < |flock| ==> flock[k].network.Shaped(hiddenLayerSize)
      ensures AliveCount(flock) == |flock|
    {
      AliveCountBounds(flock);
    }

    /** The elite loop of `createNewPopulation`: one exact copy of
        `elites[k]` per elite slot. */
    method PushElites(elites: seq<Bird>, pool: seq<seq<real>>, counts: Counts, slots: seq<SlotDraws>, ghost targets: seq<seq<real>>)
      returns (more: seq<Bird>)
      requires Planned(targets, pool, counts, slots)
      requires counts.eliteCount <= |elites|
      requires forall k :: 0 <= k < counts.eliteCount ==> ExtractChromosome(elites[k].network) == pool[k]
      modifies world`mutated
      ensures |more| == counts.eliteCount && Distinct(more)
      ensures forall k :: 0 <= k < |more| ==> fresh(more[k])
      ensures forall k :: 0 <= k < |more| ==> Hatched(more[k], hiddenLayerSize, targets[k])
      ensures world.mutated == old(world.mutated)
    {
      more := [];
      for i := 0 to counts.eliteCount
        invariant |more| == i && Distinct(more)
        invariant forall j :: 0 <= j < i ==> fresh(more[j])
        invariant forall j :: 0 <= j < i ==> Hatched(more[j], hiddenLayerSize, targets[j])
        invariant world.mutated == old(world.mutated)
      {
        var bird, replaced := SpawnElite(i, elites[i], pool, counts, slots);
        world.mutated := world.mutated + replaced;
        DistinctPush(more, bird);
        more := more + [bird];
      }
    }

    /** The offspring loop of `createNewPopulation`: one bred child per
        offspring slot, pushed after the elites. */
    method PushOffspring(flock: seq<Bird>, pool: seq<seq<real>>, counts: Counts, slots: seq<SlotDraws>, ghost targets: seq<seq<real>>)
      returns (more: seq<Bird>)
      requires Planned(targets, pool, counts, slots)
      requires |flock| == counts.eliteCount && Distinct(flock)
      requires forall k :: 0 <= k < |flock| ==> Hatched(flock[k], hiddenLayerSize, targets[k])
      modifies world`mutated
      ensures |more| == counts.eliteCount + counts.offspringCount && Distinct(more)
      ensures more[..counts.eliteCount] == flock
      ensures forall k :: counts.eliteCount <= k < |more| ==> fresh(more[k])
      ensures forall k :: 0 <= k < |more| ==> Hatched(more[k], hiddenLayerSize, targets[k])
      ensures world.mutated == old(world.mutated)
        + OffspringMutations(slots, counts, hiddenLayerSize, mutationChance)
    {
      var e := counts.eliteCount;
      more := flock;
      for i := e to e + counts.offspringCount
        invariant |more| == i && Distinct(more)
        invariant more[..e] == flock
        invariant forall j :: e <= j < i ==> fresh(more[j])
        invariant forall j :: 0 <= j < i ==> Hatched(more[j], hiddenLayerSize, targets[j])
        invariant world.mutated == old(world.mutated) + MutationsBetween(slots, e, i, hiddenLayerSize, mutationChance)
      {
        more := BreedOne(more, i, pool, counts, slots, targets);
      }
    }

    /** One pass of the offspring loop. */
    method BreedOne(flock: seq<Bird>, i: nat, pool: seq<seq<real>>, counts: Counts, slots: seq<SlotDraws>, ghost targets: seq<seq<real>>)
      returns (more: seq<Bird>)
      requires Planned(targets, pool, counts, slots)
      requires counts.eliteCount <= i < counts.eliteCount + counts.offspringCount
      requires |flock| == i && Distinct(flock)
      requires forall k :: 0 <= k < i ==> Hatched(flock[k], hiddenLayerSize, targets[k])
      modifies world`mutated
      ensures |more| == i + 1 && more[..i] == flock && Distinct(more) && fresh(more[i])
      ensures forall k :: 0 <= k <= i ==> Hatched(more[k], hiddenLayerSize, targets[k])
      ensures world.mutated == old(world.mutated) + MutationCount(slots[i].rolls[..GeneCount(hiddenLayerSize)], mutationChance)
    {
      var bird, replaced := SpawnOffspring(i, pool, counts, slots);
      world.mutated := world.mutated + replaced;
      DistinctPush(flock, bird);
      more := flock + [bird];
    }

    /** The random loop of `createNewPopulation`: one new random bird per
        remaining slot. */
    method PushRandom(flock: seq<Bird>, pool: seq<seq<real>>, counts: Counts, slots: seq<SlotDraws>, ghost targets: seq<seq<real>>)
      returns (more: seq<Bird>)
      requires Planned(targets, pool, counts, slots)
      requires |flock| == counts.eliteCount + counts.offspringCount && Distinct(flock)
      requires forall k :: 0 <= k < |flock| ==> Hatched(flock[k], hiddenLayerSize, targets[k])
      ensures |more| == counts.eliteCount + counts.offspringCount + counts.randomCount && Distinct(more)
      ensures more[..counts.eliteCount + counts.offspringCount] == flock
      ensures forall k :: counts.eliteCount + counts.offspringCount <= k < |more| ==> fresh(more[k])
      ensures forall k :: 0 <= k < |more| ==> Hatched(more[k], hiddenLayerSize, targets[k])
    {
      var o := counts.eliteCount + counts.offspringCount;
      more := flock;
      for i := o to o + counts.randomCount
        invariant |more| == i && Distinct(more)
        invariant more[..o] == flock
        invariant forall j :: o <= j < i ==> fresh(more[j])
        invariant forall j :: 0 <= j < i ==> Hatched(more[j], hiddenLayerSize, targets[j])
      {
        var bird := SpawnRandom(i, pool, counts, slots);
        DistinctPush(more, bird);
        more := more + [bird];
      }
    }

    /** The first half of `nextGeneration`: the parents are selected from
        a sorted copy of the population, the population is terminated, and
        the generation counter moves one further. */
    method Retire(distances: seq<real>) returns (parents: Parents)
      requires Valid()
      requires |distances| >= size && forall k :: 0 <= k < size ==> distances[k] != 0.0
      modifies this`birds, this`generation, world`walls, world`birdsAlive
      modifies (set b | b in birds)`alive, (set b | b in birds)`fitness
      ensures generation == old(generation) + 1
      ensures parents == old(SelectParents(SortByFitness(birds), size))
      ensures var counts := CappedDistribution(size);
        && Breedable(parents.breedingChromosomes, counts, hiddenLayerSize)
        && counts.eliteCount <= |parents.elites|
        && forall k :: 0 <= k < counts.eliteCount ==> ExtractChromosome(parents.elites[k].network) == parents.breedingChromosomes[k]
      ensures birds == [] && world.walls == [] && world.birdsAlive == size
      ensures forall k :: 0 <= k < size ==>
        !old(birds)[k].alive && old(birds)[k].fitness == old(birds[k].fitness) + 1.0 / distances[k]
    {
      parents := SelectParents(SortByFitness(birds), size);
      ParentsBreedable(birds, size, hiddenLayerSize);
      Bury(distances, parents.elites, parents.breedingChromosomes, CappedDistribution(size).eliteCount);
    }

    /** The population terminated after the parents are selected, and the
        generation counter one further. */
    method Bury(distances: seq<real>, ghost elites: seq<Bird>, ghost pool: seq<seq<real>>, ghost count: nat)
      requires Valid()
      requires |distances| >= |birds| && forall k :: 0 <= k < |birds| ==> distances[k] != 0.0
      requires count <= |elites| && count <= |pool| && forall k :: 0 <= k < count ==> ExtractChromosome(elites[k].network) == pool[k]
      modifies this`birds, this`generation, world`walls, world`birdsAlive, (set b | b in birds)`alive, (set b | b in birds)`fitness
      ensures generation == old(generation) + 1
      ensures birds == [] && world.walls == [] && world.birdsAlive == size
      ensures forall k :: 0 <= k < |old(birds)| ==>
        !old(birds)[k].alive && old(birds)[k].fitness == old(birds[k].fitness) + 1.0 / distances[k]
      ensures forall k :: 0 <= k < count ==> ExtractChromosome(elites[k].network) == pool[k]
    {
      Terminate(distances, elites, pool, count);
      generation := generation + 1;
    }

    /** The second half of `nextGeneration`: the new population of the
        capped distribution, bred from the selected parents; the old birds
        keep their state. */
    method Repopulate(parents: Parents, slots: seq<SlotDraws>, counts: Counts, ghost herd: seq<Bird>, ghost fits: seq<real>)
      requires birds == [] && world.walls == [] && world.birdsAlive == size
      requires counts == CappedDistribution(size)
      requires Breedable(parents.breedingChromosomes, counts, hiddenLayerSize)
      requires counts.eliteCount <= |parents.elites|
      requires forall k :: 0 <= k < counts.eliteCount ==> ExtractChromosome(parents.elites[k].network) == parents.breedingChromosomes[k]
      requires AllReady(slots, hiddenLayerSize, size)
      requires |fits| == |herd| && forall k :: 0 <= k < |herd| ==> !herd[k].alive && herd[k].fitness == fits[k]
      modifies this`birds, world`mutated
      ensures Valid()
      ensures world.walls == [] && world.birdsAlive == size && world.birdsAlive == AliveCount(birds)
      ensures forall k :: 0 <= k < |birds| ==> fresh(birds[k])
      ensures forall k :: 0 <= k < |birds| ==>
        Hatched(birds[k], hiddenLayerSize, NewChromosome(k, parents.breedingChromosomes, counts, slots[k], hiddenLayerSize, breedingMethod, mutationChance))
      ensures world.mutated == old(world.mutated) + OffspringMutations(slots, counts, hiddenLayerSize, mutationChance)
      ensures forall k :: 0 <= k < |herd| ==> !herd[k].alive && herd[k].fitness == fits[k]
    {
      CreateNewPopulation(parents.elites, parents.breedingChromosomes, counts, slots);
    }

    /** `nextGeneration`: one generation further; the parents are selected
        from a sorted copy of the population before it is terminated, and
        the new population follows the (capped) distribution. Every old
        bird ends dead with its final fitness, every new bird is fresh,
        alive and holds the chromosome of its slot, and the mutation
        counter grows by the genes replaced in the offspring slots. */
    method NextGeneration(distances: seq<real>, slots: seq<SlotDraws>) returns (ghost pool: seq<seq<real>>)
      requires Valid()
      requires |distances| >= size && forall k :: 0 <= k < size ==> distances[k] != 0.0
      requires AllReady(slots, hiddenLayerSize, size)
      modifies this`birds, this`generation, world`walls, world`birdsAlive, world`mutated
      modifies (set b | b in birds)`alive, (set b | b in birds)`fitness
      ensures Valid()
      ensures generation == old(generation) + 1
      ensures world.walls == [] && world.birdsAlive == size && world.birdsAlive == AliveCount(birds)
      ensures pool == old(SelectParents(SortByFitness(birds), size)).breedingChromosomes
      ensures Breedable(pool, CappedDistribution(size), hiddenLayerSize)
      ensures forall k :: 0 <= k < |birds| ==> fresh(birds[k])
      ensures forall k :: 0 <= k < |birds| ==>
        Hatched(birds[k], hiddenLayerSize, NewChromosome(k, pool, CappedDistribution(size), slots[k], hiddenLayerSize, breedingMethod, mutationChance))
      ensures forall k :: 0 <= k < size ==>
        !old(birds)[k].alive && old(birds)[k].fitness == old(birds[k].fitness) + 1.0 / distances[k]
      ensures world.mutated == old(world.mutated) + OffspringMutations(slots, CappedDistribution(size), hiddenLayerSize, mutationChance)
    {
      ghost var herd := birds;
      ghost var fits := seq(|herd|, k requires 0 <= k < |herd| reads herd => herd[k].fitness + 1.0 / distances[k]);
      var parents := Retire(distances);
      pool := parents.breedingChromosomes;
      Repopulate(parents, slots, CappedDistribution(size), herd, fits);
    }

    /** One ticker frame for bird k: `update(delta)` with the network's
        decision and the renderer's distance to the gap. The alive counter
        keeps matching the birds that are alive. */
    method Tick(k: nat, delta: real, flap: bool, distance: real) returns (stopped: bool)
      requires Valid() && k < |birds| && distance != 0.0
      requires world.birdsAlive == AliveCount(birds)
      modifies birds[k], world`walls, world`pipesCount, world`birdsAlive
      ensures Valid()
      ensures world.birdsAlive == AliveCount(birds)
      ensures stopped <==> !birds[k].alive
    {
      var bird := birds[k];
      ghost var flags := AliveFlags(birds);
      DistinctOthers(birds, k);
      stopped := bird.Update(delta, world, flap, distance);
      AliveCountAfterOne(flags, birds, k);
    }

    /** `hasDiedOut`. */
    function HasDiedOut(): bool
      reads this, world
    {
      world.birdsAlive == 0
    }

    /** While the alive counter matches the birds, the population has died
        out exactly when no bird is alive. */
    lemma DiedOutMeansAllDead()
      requires world.birdsAlive == AliveCount(birds)
      ensures HasDiedOut() <==> forall k :: 0 <= k < |birds| ==> !birds[k].alive
    {
      AliveCountBounds(birds);
    }
  }
}
