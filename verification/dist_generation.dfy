/** The generation controller of the compiled revision: the population is
    sorted in place, its two fittest birds become the elites and the
    parents of every new bird, each new bird takes the crossed-over and
    mutated chromosome with chance 0.98 (otherwise it keeps its random
    network), and the last two new birds take over the elites' networks. */
module DistEvolution {
  import opened Arena
  import opened Genome
  import opened Crossover
  import opened Birds
  import opened Selection
  import opened OlderRules

  /** `Math.random() < 0.98`: the chance that a new bird takes the child
      chromosome. */
  const KeepChance: real := 0.98

  /** The chromosome new bird k holds before the elite overwrite: the
      mutated child of the two elites, or, when the keep gate fails, its
      own random genes. A method other than uniform or one-point breeds an
      empty child, whose `shift()` gives `undefined` for every gene. */
  function DistChild(a: seq<real>, b: seq<real>, d: BirdDraws, hiddenLayerSize: nat, breeding: BreedingMethod, chance: real): (c: seq<real>)
    requires |a| == |b| == GeneCount(hiddenLayerSize) && BirdReady(d, hiddenLayerSize)
    ensures |c| == GeneCount(hiddenLayerSize)
  {
    var n := GeneCount(hiddenLayerSize);
    if d.keep < KeepChance then
      Injected(Shifted(LegacyCrossOver(a, b, breeding, d.cross), n), d.rolls, d.values, chance)
    else
      Randomised(d.init[..n])
  }

  /** With uniform or one-point breeding every gene of a new bird is the
      gene of one of the two elites at the same position or a fresh value
      in [-1, 1), and without mutation a kept child is exactly the
      crossover of the elites. With any other method a kept child holds
      `undefined` wherever its gene was not mutated. */
  lemma DistChildGenes(a: seq<real>, b: seq<real>, d: BirdDraws, hiddenLayerSize: nat, breeding: BreedingMethod, chance: real)
    requires |a| == |b| == GeneCount(hiddenLayerSize) && BirdReady(d, hiddenLayerSize)
    ensures var c := DistChild(a, b, d, hiddenLayerSize, breeding, chance);
      Breeds(breeding) ==> forall g :: 0 <= g < |c| ==> c[g] == a[g] || c[g] == b[g] || -1.0 <= c[g] < 1.0
    ensures var c := DistChild(a, b, d, hiddenLayerSize, breeding, chance);
      !Breeds(breeding) && d.keep < KeepChance ==>
        forall g :: 0 <= g < |c| ==> (d.rolls[g] >= chance ==> c[g] == Undefined) && (d.rolls[g] < chance ==> -1.0 <= c[g] < 1.0)
    ensures Breeds(breeding) && d.keep < KeepChance ==>
      DistChild(a, b, d, hiddenLayerSize, breeding, 0.0) == LegacyCrossOver(a, b, breeding, d.cross)
  {
    var n := GeneCount(hiddenLayerSize);
    var c := DistChild(a, b, d, hiddenLayerSize, breeding, chance);
    if d.keep < KeepChance {
      var child := Shifted(LegacyCrossOver(a, b, breeding, d.cross), n);
      forall g | 0 <= g < |c|
        ensures Breeds(breeding) ==> c[g] == a[g] || c[g] == b[g] || -1.0 <= c[g] < 1.0
        ensures !Breeds(breeding) ==> (d.rolls[g] >= chance ==> c[g] == Undefined) && (d.rolls[g] < chance ==> -1.0 <= c[g] < 1.0)
      {
        InjectedGenes(child, d.rolls, d.values, chance, g);
      }
      InjectedWithoutMutation(child, d.rolls, d.values);
    }
  }

  /** The genes `setChromosome` replaces in one new bird: none when the
      keep gate fails. */
  function KeptMutations(d: BirdDraws, hiddenLayerSize: nat, chance: real): (m: nat)
    requires BirdReady(d, hiddenLayerSize)
    ensures m <= GeneCount(hiddenLayerSize)
    ensures d.keep >= KeepChance ==> m == 0
  {
    var n := GeneCount(hiddenLayerSize);
    MutationCountBounds(d.rolls[..n], chance);
    if d.keep < KeepChance then MutationCount(d.rolls[..n], chance) else 0
  }

  /** The genes replaced in new birds 0 .. hi-1. */
  function MutationsKept(draws: seq<BirdDraws>, hi: nat, hiddenLayerSize: nat, chance: real): nat
    requires AllBirdsReady(draws, hiddenLayerSize, hi)
  {
    if hi == 0 then 0
    else MutationsKept(draws, hi - 1, hiddenLayerSize, chance) + KeptMutations(draws[hi - 1], hiddenLayerSize, chance)
  }

  /** A new generation replaces at most one gene per gene of every new
      bird, and none at all with mutation chance 0. */
  lemma {:induction false} MutationsKeptBounds(draws: seq<BirdDraws>, hi: nat, hiddenLayerSize: nat, chance: real)
    requires AllBirdsReady(draws, hiddenLayerSize, hi)
    ensures MutationsKept(draws, hi, hiddenLayerSize, chance) <= hi * GeneCount(hiddenLayerSize)
    ensures chance == 0.0 ==> MutationsKept(draws, hi, hiddenLayerSize, chance) == 0
  {
    if hi > 0 {
      MutationsKeptBounds(draws, hi - 1, hiddenLayerSize, chance);
      var d := draws[hi - 1];
      var rolls := d.rolls[..GeneCount(hiddenLayerSize)];
      assert (hi - 1) * GeneCount(hiddenLayerSize) + GeneCount(hiddenLayerSize) == hi * GeneCount(hiddenLayerSize);
      if chance == 0.0 {
        assert AllDraws(rolls) by {
          assert forall j :: 0 <= j < |rolls| ==> rolls[j] == d.rolls[j];
        }
        MutationCountWithoutMutation(rolls);
      }
    }
  }

  class Generation {
    /** The renderer state shared with the birds. */
    const world: World
    const size: nat
    const mutationChance: real
    const hiddenLayerSize: nat
    const breedingMethod: BreedingMethod
    var birds: seq<Bird>
    var generation: int
    var elites: seq<Bird>
    var bestScore: int

    /** `size` distinct birds, each with a network of the configured
        topology. */
    predicate Valid()
      reads this, birds
    {
      && |birds| == size
      && Distinct(birds)
      && (forall k :: 0 <= k < |birds| ==> birds[k].network.Shaped(hiddenLayerSize))
    }

    /** The constructor and `initialize`: `size` birds counted alive, the
        first wall pair, `size` new birds with random networks, a best
        score of 0, at generation 1. */
    constructor (world: World, size: nat, mutationChance: real, hiddenLayerSize: nat, breedingMethod: BreedingMethod,
                 firstPair: WallPair, draws: seq<BirdDraws>)
      requires AllBirdsReady(draws, hiddenLayerSize, size)
      modifies world`walls, world`birdsAlive
      ensures this.world == world && this.size == size && this.mutationChance == mutationChance
      ensures this.hiddenLayerSize == hiddenLayerSize && this.breedingMethod == breedingMethod
      ensures generation == 1 && elites == [] && bestScore == 0
      ensures Valid()
      ensures world.birdsAlive == size && world.walls == old(world.walls) + [firstPair]
      ensures forall k :: 0 <= k < size ==>
        fresh(birds[k]) && Hatched(birds[k], hiddenLayerSize, Randomised(draws[k].init[..GeneCount(hiddenLayerSize)]))
    {
      this.world := world;
      this.size := size;
      this.mutationChance := mutationChance;
      this.hiddenLayerSize := hiddenLayerSize;
      this.breedingMethod := breedingMethod;
      generation := 1;
      elites := [];
      world.birdsAlive := size;
      world.walls := world.walls + [firstPair];
      var flock: seq<Bird> := [];
      for i := 0 to size
        invariant world.birdsAlive == size && world.walls == old(world.walls) + [firstPair]
        invariant |flock| == i && Distinct(flock)
        invariant forall j :: 0 <= j < i ==>
          fresh(flock[j]) && Hatched(flock[j], hiddenLayerSize, Randomised(draws[j].init[..GeneCount(hiddenLayerSize)]))
      {
        var bird := new Bird(world, hiddenLayerSize, draws[i].init);
        DistinctPush(flock, bird);
        flock := flock + [bird];
      }
      birds := flock;
      bestScore := 0;
    }

    /** `getBestChromosomes` and `setElites`: the population is sorted in
        place by non-increasing fitness, its first two birds become the
        elites, and their chromosomes are returned. */
    method GetBestChromosomes() returns (a: seq<real>, b: seq<real>)
      requires |birds| >= 2 && forall k :: 0 <= k < |birds| ==> birds[k].network.Shaped(hiddenLayerSize)
      modifies this`birds, this`elites
      ensures birds == old(SortByFitness(birds))
      ensures elites == birds[..2]
      ensures a == ExtractChromosome(elites[0].network) && b == ExtractChromosome(elites[1].network)
      ensures elites[0].network.Shaped(hiddenLayerSize) && elites[1].network.Shaped(hiddenLayerSize)
      ensures forall x :: x in birds ==> x in old(birds)
      ensures Distinct(old(birds)) ==> Distinct(birds)
    {
      HeadsShaped(birds, hiddenLayerSize);
      var sorted := SortByFitness(birds);
      birds := sorted;
      elites := [sorted[0], sorted[1]];
      a := ExtractChromosome(elites[0].network);
      b := ExtractChromosome(elites[1].network);
    }

    /** `killPopulation`: every bird dies (rewarded by its distance to the
        gap, and counted off `birdsAlive` even when already dead), the walls
        are cleared, `birdsAlive` is reset to the size and the list
        emptied. */
    method KillPopulation(distances: seq<real>, ghost herd: seq<Bird>, ghost pair: seq<Bird>, ghost genes: seq<seq<real>>)
      requires forall x :: x in birds ==> x in herd
      requires Distinct(birds)
      requires |distances| >= |birds| && forall k :: 0 <= k < |birds| ==> distances[k] != 0.0
      requires |pair| == |genes| == 2
      requires pair[0].network.Shaped(hiddenLayerSize) && ExtractChromosome(pair[0].network) == genes[0]
      requires pair[1].network.Shaped(hiddenLayerSize) && ExtractChromosome(pair[1].network) == genes[1]
      modifies this`birds, world`walls, world`birdsAlive, (set b | b in herd)`alive, (set b | b in herd)`fitness
      ensures birds == [] && world.walls == [] && world.birdsAlive == size
      ensures forall k :: 0 <= k < |old(birds)| ==>
        !old(birds)[k].alive && old(birds)[k].fitness == old(birds[k].fitness) + 1.0 / distances[k]
      ensures pair[0].network.Shaped(hiddenLayerSize) && ExtractChromosome(pair[0].network) == genes[0]
      ensures pair[1].network.Shaped(hiddenLayerSize) && ExtractChromosome(pair[1].network) == genes[1]
    {
      ghost var flock := birds;
      for i := 0 to |birds|
        invariant birds == flock
        invariant forall k :: 0 <= k < i ==> !flock[k].alive && flock[k].fitness == old(flock[k].fitness) + 1.0 / distances[k]
        invariant forall k :: i <= k < |flock| ==> flock[k].fitness == old(flock[k].fitness)
        invariant pair[0].network.Shaped(hiddenLayerSize) && ExtractChromosome(pair[0].network) == genes[0]
        invariant pair[1].network.Shaped(hiddenLayerSize) && ExtractChromosome(pair[1].network) == genes[1]
      {
        DistinctOthers(flock, i);
        birds[i].Die(world, distances[i]);
      }
      world.walls := [];
      world.birdsAlive := size;
      birds := [];
    }

    /** One pass of the rebuild loop: a new bird, the elites' child (empty
        for a method other than uniform or one-point), and the 0.98 gate on
        `setChromosome`, whose replaced genes are added to the renderer's
        `mutated` counter. */
    method Hatch(a: seq<real>, b: seq<real>, d: BirdDraws, ghost target: seq<real>) returns (bird: Bird, replaced: nat)
      requires |a| == |b| == GeneCount(hiddenLayerSize) && BirdReady(d, hiddenLayerSize)
      requires target == DistChild(a, b, d, hiddenLayerSize, breedingMethod, mutationChance)
      ensures fresh(bird)
      ensures Hatched(bird, hiddenLayerSize, target)
      ensures replaced == KeptMutations(d, hiddenLayerSize, mutationChance)
    {
      replaced := 0;
      bird := new Bird(world, hiddenLayerSize, d.init);
      var chromosome := LegacyCrossOver(a, b, breedingMethod, d.cross);
      if d.keep < KeepChance {
        var genes := new GeneList(chromosome);
        replaced := bird.SetChromosome(genes, mutationChance, d.rolls, d.values);
      }
    }

    /** The first half of `nextGeneration`: one generation further, no
        pipe counted, the elites picked from the sorted population, and
        the population killed. */
    method Retire(distances: seq<real>) returns (a: seq<real>, b: seq<real>)
      requires Valid() && size >= 2
      requires |distances| >= size && forall k :: 0 <= k < size ==> distances[k] != 0.0
      modifies this`birds, this`generation, this`elites, world`walls, world`birdsAlive, world`pipesCount
      modifies (set x | x in birds)`alive, (set x | x in birds)`fitness
      ensures generation == old(generation) + 1 && world.pipesCount == 0
      ensures elites == old(SortByFitness(birds))[..2]
      ensures elites[0].network.Shaped(hiddenLayerSize) && elites[1].network.Shaped(hiddenLayerSize)
      ensures a == ExtractChromosome(elites[0].network) && b == ExtractChromosome(elites[1].network)
      ensures birds == [] && world.walls == [] && world.birdsAlive == size
      ensures forall x :: x in old(birds) ==> !x.alive
    {
      a, b := GetBestChromosomes();
      Bury(distances, old(birds), a, b);
    }

    /** The population killed after the elites are picked, one generation
        further and no pipe counted. */
    method Bury(distances: seq<real>, ghost herd: seq<Bird>, ghost a: seq<real>, ghost b: seq<real>)
      requires forall x :: x in birds ==> x in herd
      requires Distinct(birds) && |elites| == 2
      requires |distances| >= |birds| && forall k :: 0 <= k < |birds| ==> distances[k] != 0.0
      requires elites[0].network.Shaped(hiddenLayerSize) && elites[1].network.Shaped(hiddenLayerSize)
      requires a == ExtractChromosome(elites[0].network) && b == ExtractChromosome(elites[1].network)
      modifies this`birds, this`generation, world`walls, world`birdsAlive, world`pipesCount
      modifies (set x | x in herd)`alive, (set x | x in herd)`fitness
      ensures generation == old(generation) + 1 && world.pipesCount == 0
      ensures elites[0].network.Shaped(hiddenLayerSize) && elites[1].network.Shaped(hiddenLayerSize)
      ensures a == ExtractChromosome(elites[0].network) && b == ExtractChromosome(elites[1].network)
      ensures birds == [] && world.walls == [] && world.birdsAlive == size
      ensures forall k :: 0 <= k < |old(birds)| ==>
        !old(birds)[k].alive && old(birds)[k].fitness == old(birds[k].fitness) + 1.0 / distances[k]
    {
      KillPopulation(distances, herd, elites, [a, b]);
      generation := generation + 1;
      world.pipesCount := 0;
    }

    /** `targets` lists the chromosome each new bird of the rebuild loop
        is hatched with. */
    ghost predicate Planned(targets: seq<seq<real>>, a: seq<real>, b: seq<real>, draws: seq<BirdDraws>)
      requires |a| == |b| == GeneCount(hiddenLayerSize)
      requires AllBirdsReady(draws, hiddenLayerSize, size)
    {
      && |targets| == size
      && forall k :: 0 <= k < size ==> targets[k] == DistChild(a, b, draws[k], hiddenLayerSize, breedingMethod, mutationChance)
    }

    /** The rebuild loop of `nextGeneration`: `size` new birds, each the
        elites' child (or left random by the keep gate), pushed in order;
        `replaced` counts the genes their `setChromosome` calls replaced. */
    method Brood(a: seq<real>, b: seq<real>, draws: seq<BirdDraws>, ghost targets: seq<seq<real>>)
      returns (flock: seq<Bird>, replaced: nat)
      requires |a| == |b| == GeneCount(hiddenLayerSize)
      requires AllBirdsReady(draws, hiddenLayerSize, size)
      requires Planned(targets, a, b, draws)
      ensures |flock| == size && Distinct(flock)
      ensures forall k :: 0 <= k < size ==> fresh(flock[k])
      ensures forall k :: 0 <= k < size ==> Hatched(flock[k], hiddenLayerSize, targets[k])
      ensures replaced == MutationsKept(draws, size, hiddenLayerSize, mutationChance)
    {
      flock, replaced := [], 0;
      for i := 0 to size
        invariant |flock| == i && Distinct(flock)
        invariant forall j :: 0 <= j < i ==> fresh(flock[j])
        invariant forall j :: 0 <= j < i ==> Hatched(flock[j], hiddenLayerSize, targets[j])
        invariant replaced == MutationsKept(draws, i, hiddenLayerSize, mutationChance)
      {
        assert MutationsKept(draws, i + 1, hiddenLayerSize, mutationChance)
          == MutationsKept(draws, i, hiddenLayerSize, mutationChance) + KeptMutations(draws[i], hiddenLayerSize, mutationChance);
        var more, count := BreedOne(flock, i, a, b, draws, targets);
        flock, replaced := more, replaced + count;
      }
    }

    /** One pass of the rebuild loop. */
    method BreedOne(flock: seq<Bird>, i: nat, a: seq<real>, b: seq<real>, draws: seq<BirdDraws>, ghost targets: seq<seq<real>>)
      returns (more: seq<Bird>, replaced: nat)
      requires |a| == |b| == GeneCount(hiddenLayerSize)
      requires AllBirdsReady(draws, hiddenLayerSize, size)
      requires Planned(targets, a, b, draws) && i < size
      requires |flock| == i && Distinct(flock)
      requires forall k :: 0 <= k < i ==> Hatched(flock[k], hiddenLayerSize, targets[k])
      ensures |more| == i + 1 && more[..i] == flock && Distinct(more) && fresh(more[i])
      ensures forall k :: 0 <= k <= i ==> Hatched(more[k], hiddenLayerSize, targets[k])
      ensures replaced == KeptMutations(draws[i], hiddenLayerSize, mutationChance)
    {
      var bird;
      bird, replaced := Hatch(a, b, draws[i], targets[i]);
      DistinctPush(flock, bird);
      more := flock + [bird];
    }

    /** One pass of the elite loop: new bird `size - 2 + i` takes over
        `elites[i]`'s network (the object itself, not a copy), so the
        chromosome it holds becomes the elite's. */
    method TakeOver(flock: seq<Bird>, i: nat, bird: Bird, ghost before: seq<seq<real>>, ghost after: seq<seq<real>>)
      requires i < 2 && |elites| == 2 && |flock| == size >= 2 && Distinct(flock)
      requires bird == flock[size - 2 + i] && elites[i].network.Shaped(hiddenLayerSize)
      requires |before| == size && after == before[size - 2 + i := ExtractChromosome(elites[i].network)]
      requires forall k :: 0 <= k < size ==> Hatched(flock[k], hiddenLayerSize, before[k])
      modifies bird`network
      ensures bird.network == elites[i].network
      ensures forall k :: 0 <= k < size && k != size - 2 + i ==> flock[k].network == old(flock[k].network)
      ensures forall k :: 0 <= k < size ==> Hatched(flock[k], hiddenLayerSize, after[k])
    {
      DistinctOthers(flock, size - 2 + i);
      bird.network := elites[i].network;
    }

    /** The second half of `nextGeneration`: the rebuild loop, then the
        last two birds take over the elites' networks; the replaced genes
        are shown and the counter reset, every bird counted alive, and a
        new wall pair. */
    method Repopulate(a: seq<real>, b: seq<real>, draws: seq<BirdDraws>, firstPair: WallPair) returns (shown: int)
      requires birds == [] && size >= 2 && |elites| == 2
      requires elites[0].network.Shaped(hiddenLayerSize) && elites[1].network.Shaped(hiddenLayerSize)
      requires a == ExtractChromosome(elites[0].network) && b == ExtractChromosome(elites[1].network)
      requires AllBirdsReady(draws, hiddenLayerSize, size)
      modifies this`birds, world`mutated, world`birdsAlive, world`walls
      ensures Valid()
      ensures shown == old(world.mutated) + MutationsKept(draws, size, hiddenLayerSize, mutationChance)
      ensures world.mutated == 0 && world.birdsAlive == size && world.walls == old(world.walls) + [firstPair]
      ensures forall k :: 0 <= k < size ==> fresh(birds[k])
      ensures forall k :: 0 <= k < size - 2 ==>
        Hatched(birds[k], hiddenLayerSize, DistChild(a, b, draws[k], hiddenLayerSize, breedingMethod, mutationChance))
      ensures Hatched(birds[size - 2], hiddenLayerSize, a) && Hatched(birds[size - 1], hiddenLayerSize, b)
      ensures birds[size - 2].network == elites[0].network && birds[size - 1].network == elites[1].network
    {
      var flock;
      flock, shown := Rebuild(a, b, draws, firstPair);
      birds := flock;
    }

    /** The new population of `nextGeneration`, before it is stored. */
    method Rebuild(a: seq<real>, b: seq<real>, draws: seq<BirdDraws>, firstPair: WallPair) returns (flock: seq<Bird>, shown: int)
      requires size >= 2 && |elites| == 2
      requires elites[0].network.Shaped(hiddenLayerSize) && elites[1].network.Shaped(hiddenLayerSize)
      requires a == ExtractChromosome(elites[0].network) && b == ExtractChromosome(elites[1].network)
      requires AllBirdsReady(draws, hiddenLayerSize, size)
      modifies world`mutated, world`birdsAlive, world`walls
      ensures |flock| == size && Distinct(flock)
      ensures forall k :: 0 <= k < size ==> flock[k].network.Shaped(hiddenLayerSize)
      ensures shown == old(world.mutated) + MutationsKept(draws, size, hiddenLayerSize, mutationChance)
      ensures world.mutated == 0 && world.birdsAlive == size && world.walls == old(world.walls) + [firstPair]
      ensures forall k :: 0 <= k < size ==> fresh(flock[k])
      ensures forall k :: 0 <= k < size - 2 ==>
        Hatched(flock[k], hiddenLayerSize, DistChild(a, b, draws[k], hiddenLayerSize, breedingMethod, mutationChance))
      ensures Hatched(flock[size - 2], hiddenLayerSize, a) && Hatched(flock[size - 1], hiddenLayerSize, b)
      ensures flock[size - 2].network == elites[0].network && flock[size - 1].network == elites[1].network
    {
      ghost var targets := seq(size, k requires 0 <= k < size =>
        DistChild(a, b, draws[k], hiddenLayerSize, breedingMethod, mutationChance));
      assert Planned(targets, a, b, draws);
      var replaced;
      flock, replaced := Brood(a, b, draws, targets);
      shown := Announce(replaced, firstPair);
      Conclude(flock, flock[size - 2], flock[size - 1], a, b, targets);
    }

    /** The elite loop at the end of `nextGeneration`: the last two new
        birds take over the elites' networks. */
    method Conclude(flock: seq<Bird>, first: Bird, second: Bird, ghost a: seq<real>, ghost b: seq<real>, ghost targets: seq<seq<real>>)
      requires |flock| == size >= 2 && |elites| == 2 && Distinct(flock) && |targets| == size
      requires first == flock[size - 2] && second == flock[size - 1]
      requires elites[0] !in flock && elites[1] !in flock
      requires elites[0].network.Shaped(hiddenLayerSize) && elites[1].network.Shaped(hiddenLayerSize)
      requires a == ExtractChromosome(elites[0].network) && b == ExtractChromosome(elites[1].network)
      requires forall k :: 0 <= k < size ==> Hatched(flock[k], hiddenLayerSize, targets[k])
      modifies first`network, second`network
      ensures forall k :: 0 <= k < size - 2 ==> Hatched(flock[k], hiddenLayerSize, targets[k])
      ensures Hatched(flock[size - 2], hiddenLayerSize, a) && Hatched(flock[size - 1], hiddenLayerSize, b)
      ensures flock[size - 2].network == elites[0].network && flock[size - 1].network == elites[1].network
      ensures forall k :: 0 <= k < size ==> flock[k].network.Shaped(hiddenLayerSize)
    {
      ghost var halfway := targets[size - 2 := ExtractChromosome(elites[0].network)];
      TakeOver(flock, 0, first, targets, halfway);
      ghost var crowned := halfway[size - 1 := ExtractChromosome(elites[1].network)];
      TakeOver(flock, 1, second, halfway, crowned);
      assert forall k :: 0 <= k < size ==> Hatched(flock[k], hiddenLayerSize, crowned[k]);
      assert forall k :: 0 <= k < size - 2 ==> crowned[k] == targets[k];
    }

    /** The end of `nextGeneration`: the genes replaced by the rebuild are
        added to the renderer's counter, which is shown and reset; every
        bird is counted alive, and a new wall pair spawned. */
    method Announce(replaced: nat, firstPair: WallPair) returns (shown: int)
      modifies world`mutated, world`birdsAlive, world`walls
      ensures shown == old(world.mutated) + replaced && world.mutated == 0
      ensures world.birdsAlive == size && world.walls == old(world.walls) + [firstPair]
    {
      world.mutated := world.mutated + replaced;
      shown := world.mutated;
      world.mutated := 0;
      world.birdsAlive := size;
      world.walls := world.walls + [firstPair];
    }

    /** `nextGeneration`: one generation further, the population sorted
        and killed, and `size` new birds bred from its two fittest birds,
        the last two of them flying with the elites' own networks. The
        mutations of the rebuild are shown, then the counter is reset. */
    method NextGeneration(distances: seq<real>, draws: seq<BirdDraws>, firstPair: WallPair) returns (shown: int)
      requires Valid() && size >= 2
      requires |distances| >= size && forall k :: 0 <= k < size ==> distances[k] != 0.0
      requires AllBirdsReady(draws, hiddenLayerSize, size)
      modifies this`birds, this`generation, this`elites
      modifies world`walls, world`birdsAlive, world`mutated, world`pipesCount
      modifies (set b | b in birds)`alive, (set b | b in birds)`fitness
      ensures Valid()
      ensures generation == old(generation) + 1
      ensures elites == old(SortByFitness(birds))[..2]
      ensures elites[0].network.Shaped(hiddenLayerSize) && elites[1].network.Shaped(hiddenLayerSize)
      ensures world.pipesCount == 0 && world.mutated == 0 && world.birdsAlive == size && world.walls == [firstPair]
      ensures shown == old(world.mutated) + MutationsKept(draws, size, hiddenLayerSize, mutationChance)
      ensures forall k :: 0 <= k < size ==> fresh(birds[k])
      ensures var a, b := ExtractChromosome(elites[0].network), ExtractChromosome(elites[1].network);
        && (forall k :: 0 <= k < size - 2 ==>
              Hatched(birds[k], hiddenLayerSize, DistChild(a, b, draws[k], hiddenLayerSize, breedingMethod, mutationChance)))
        && Hatched(birds[size - 2], hiddenLayerSize, a) && Hatched(birds[size - 1], hiddenLayerSize, b)
      ensures birds[size - 2].network == elites[0].network && birds[size - 1].network == elites[1].network
      ensures forall x :: x in old(birds) ==> !x.alive
    {
      var a, b := Retire(distances);
      shown := Repopulate(a, b, draws, firstPair);
    }

    /** The loop of `hasDiedOut`: one pass over the birds counting the
        dead and raising the running best score to every score at least as
        high. */
    method Census() returns (counter: nat, best: int)
      ensures counter == DeadCount(birds)
      ensures best == BestScore(bestScore, birds)
    {
      counter, best := 0, bestScore;
      for i := 0 to |birds|
        invariant counter == DeadCount(birds[..i])
        invariant best == BestScore(bestScore, birds[..i])
      {
        DiedOutStep(bestScore, birds, i);
        if !birds[i].alive {
          counter := counter + 1;
        }
        best := if birds[i].score >= best then birds[i].score else best;
      }
      assert birds[..|birds|] == birds;
    }

    /** `hasDiedOut`: the population has died out exactly when every one
        of its `size` birds is dead; the best score is kept up to date. */
    method HasDiedOut() returns (diedOut: bool)
      modifies this`bestScore
      ensures diedOut <==> old(DeadCount(birds)) == size
      ensures bestScore == old(BestScore(bestScore, birds))
    {
      var counter, best := Census();
      bestScore := best;
      diedOut := counter == size;
    }
  }
}
