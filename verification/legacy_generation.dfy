/** The generation controller of the older source revision: the same sort
    and elite choice as the compiled revision, but every new bird is the
    elites' child (no keep gate), takes one tick of `update()` before its
    genes are written, is mutated with chance 0.1 while the best score is
    below 2, and the FIRST two new birds take over the elites' networks.
    No alive counter and no mutation counter are kept. */
module LegacyEvolution {
  import opened Arena
  import opened Genome
  import opened Crossover
  import opened Birds
  import opened Selection
  import opened OlderRules

  /** The mutation chance of a rebuild while the best score is low. */
  const LowScoreChance: real := 0.1
  /** The best score from which the configured chance is used. */
  const LowScoreBound: int := 2

  /** What the renderer's `getDistance` answers while no wall pair is on
      screen, as during the first tick of every new bird. */
  const NoWallDistance: real := 1.0

  /** What one new bird's first `update()` depends on besides its state:
      the network's decision to flap. */
  datatype FirstTick = FirstTick(flap: bool)

  predicate TicksReady(ticks: seq<FirstTick>, n: nat)
  {
    |ticks| >= n
  }

  /** The chromosome `setDNA` leaves in new bird k: the genes shifted off
      the elites' crossover (undefined once it runs out), weights mutated
      with `chance`, biases with 0.05. */
  function LegacyChild(a: seq<real>, b: seq<real>, d: BirdDraws, hiddenLayerSize: nat, breeding: BreedingMethod, chance: real): (c: seq<real>)
    requires |a| == |b| == GeneCount(hiddenLayerSize) && BirdReady(d, hiddenLayerSize)
    ensures |c| == GeneCount(hiddenLayerSize)
  {
    var n := GeneCount(hiddenLayerSize);
    InjectedDna(Shifted(LegacyCrossOver(a, b, breeding, d.cross), n), d.rolls, d.values, chance, ConnectionCount(hiddenLayerSize))
  }

  /** With a method that breeds, every gene of a new bird is the gene of
      one of the two elites at the same position or a fresh value in
      [-1, 1), and without mutation of the weights its weights are exactly
      those of the elites' crossover. With any other method the crossover
      is empty: a gene is a fresh value in [-1, 1) when its draw is below
      its chance (the given one for weights, 0.05 for biases) and undefined
      otherwise. */
  lemma LegacyChildGenes(a: seq<real>, b: seq<real>, d: BirdDraws, hiddenLayerSize: nat, breeding: BreedingMethod, chance: real)
    requires |a| == |b| == GeneCount(hiddenLayerSize) && BirdReady(d, hiddenLayerSize)
    ensures var c := LegacyChild(a, b, d, hiddenLayerSize, breeding, chance);
      Breeds(breeding) ==> forall g :: 0 <= g < |c| ==> c[g] == a[g] || c[g] == b[g] || -1.0 <= c[g] < 1.0
    ensures var c := LegacyChild(a, b, d, hiddenLayerSize, breeding, chance);
      var nw := ConnectionCount(hiddenLayerSize);
      !Breeds(breeding) ==>
        forall g :: 0 <= g < |c| ==>
          var p := if g < nw then chance else LegacyBiasMutationChance;
          (d.rolls[g] >= p ==> c[g] == Undefined) && (d.rolls[g] < p ==> -1.0 <= c[g] < 1.0)
    ensures var nw := ConnectionCount(hiddenLayerSize);
      Breeds(breeding) ==>
        LegacyChild(a, b, d, hiddenLayerSize, breeding, 0.0)[..nw] == LegacyCrossOver(a, b, breeding, d.cross)[..nw]
  {
    var n := GeneCount(hiddenLayerSize);
    var child := Shifted(LegacyCrossOver(a, b, breeding, d.cross), n);
    var nw := ConnectionCount(hiddenLayerSize);
    var weights, biases := child[..nw], child[nw..];
    var c := LegacyChild(a, b, d, hiddenLayerSize, breeding, chance);
    assert c == Injected(weights, d.rolls, d.values, chance)
      + Injected(biases, d.rolls[nw..], d.values[nw..], LegacyBiasMutationChance);
    forall g | 0 <= g < |c|
      ensures Breeds(breeding) ==> c[g] == a[g] || c[g] == b[g] || -1.0 <= c[g] < 1.0
      ensures var p := if g < nw then chance else LegacyBiasMutationChance;
        !Breeds(breeding) ==> (d.rolls[g] >= p ==> c[g] == Undefined) && (d.rolls[g] < p ==> -1.0 <= c[g] < 1.0)
    {
      if g < nw {
        InjectedGenes(weights, d.rolls, d.values, chance, g);
        assert c[g] == Injected(weights, d.rolls, d.values, chance)[g];
        assert weights[g] == child[g];
      } else {
        var j := g - nw;
        assert AllDraws(d.values[nw..]) by {
          assert forall i :: 0 <= i < |d.values[nw..]| ==> d.values[nw..][i] == d.values[nw + i];
        }
        InjectedGenes(biases, d.rolls[nw..], d.values[nw..], LegacyBiasMutationChance, j);
        assert c[g] == Injected(biases, d.rolls[nw..], d.values[nw..], LegacyBiasMutationChance)[j];
        assert d.rolls[nw..][j] == d.rolls[g] && biases[j] == child[g];
      }
      if !Breeds(breeding) {
        assert child[g] == Undefined;
      }
    }
    DnaWithoutMutationKeepsWeights(child, d.rolls, d.values, nw);
  }

  /** The mutation chance `setDNA` is given by a rebuild: 0.1 while the
      best score is below 2, the configured chance from then on. */
  function RebuildChance(bestScore: int, mutationChance: real): real
  {
    if bestScore < LowScoreBound then LowScoreChance else mutationChance
  }

  /** The fitness after the first tick of a new bird: one tick's worth, or,
      when the bird spawns out of the view, that tick, the reward for its
      distance and the penalty for leaving the view. */
  function FirstTickFitness(dies: bool, distance: real): (f: real)
    requires distance != 0.0
    ensures !dies ==> f == FitnessPerTick
    ensures dies ==> f == FitnessPerTick + 1.0 / distance - OutOfBoundsPenalty
  {
    if dies then FitnessPerTick + 1.0 / distance - OutOfBoundsPenalty else FitnessPerTick
  }

  /** The velocity after the first tick of a bird at rest: gravity alone,
      or the jump impulse against it, clamped. */
  function FirstTickVelocity(flap: bool): (v: real)
    ensures !flap ==> v == LegacyGravity
    ensures flap ==> v == MinVelocity
  {
    Clamp(0.0 + 0.0 - (if flap then JumpImpulse else 0.0) + LegacyGravity)
  }

  /** One pass of the older `hasDiedOut` loop, whose running best score
      moves only to a strictly higher score: the same dead count and the
      same best score as the rule that also moves to an equal one. */
  lemma StrictDiedOutStep(best: int, birds: seq<Bird>, i: nat)
    requires i < |birds|
    ensures DeadCount(birds[..i + 1]) == DeadCount(birds[..i]) + (if birds[i].alive then 0 else 1)
    ensures var b := BestScore(best, birds[..i]);
      BestScore(best, birds[..i + 1]) == if birds[i].score > b then birds[i].score else b
  {
    DiedOutStep(best, birds, i);
  }

  class Generation {
    /** The renderer state shared with the birds. */
    const world: World
    const size: nat
    const mutationChance: real
    const hiddenLayerSize: nat
    const breedingMethod: BreedingMethod
    var birds: seq<Bird>
    var generation: int
    var elites: seq<Bird>
    var bestScore: int

    /** `size` distinct birds, each with a network of the configured
        topology. */
    predicate Valid()
      reads this, birds
    {
      && |birds| == size
      && Distinct(birds)
      && (forall k :: 0 <= k < |birds| ==> birds[k].network.Shaped(hiddenLayerSize))
    }

    /** Whether a bird placed by `createBird` is out of the view: every new
        bird then dies on its first tick. */
    predicate SpawnsOut()
    {
      OutOfBounds(world.viewHeight, world.screenHeight / 2.0 - 60.0)
    }

    /** A new bird of the rebuild after its first tick (with the flap of
        `tick`, among no walls) and `setDNA`: no score, alive unless it
        spawned out of the view, the fitness of that tick, no acceleration,
        the velocity of that tick, still at the spawn height (it started at
        rest), and a network of the configured topology holding the given
        chromosome. */
    predicate Fledged(bird: Bird, chromosome: seq<real>, tick: FirstTick)
      reads bird, bird.network.weights, bird.network.biases
    {
      && bird.score == 0 && bird.alive == !SpawnsOut()
      && bird.fitness == FirstTickFitness(SpawnsOut(), NoWallDistance)
      && bird.acceleration == 0.0 && bird.velocity == FirstTickVelocity(tick.flap)
      && bird.y == world.screenHeight / 2.0 - 60.0
      && bird.network.Shaped(hiddenLayerSize)
      && ExtractChromosome(bird.network) == chromosome
    }

    /** The constructor and `initialize`: the first wall pair, `size` new
        birds with random networks, a best score of 0, at generation 1. */
    constructor (world: World, size: nat, mutationChance: real, hiddenLayerSize: nat, breedingMethod: BreedingMethod,
                 firstPair: WallPair, draws: seq<BirdDraws>)
      requires AllBirdsReady(draws, hiddenLayerSize, size)
      modifies world`walls
      ensures this.world == world && this.size == size && this.mutationChance == mutationChance
      ensures this.hiddenLayerSize == hiddenLayerSize && this.breedingMethod == breedingMethod
      ensures generation == 1 && elites == [] && bestScore == 0
      ensures Valid()
      ensures world.walls == old(world.walls) + [firstPair]
      ensures forall k :: 0 <= k < size ==>
        fresh(birds[k]) && Hatched(birds[k], hiddenLayerSize, Randomised(draws[k].init[..GeneCount(hiddenLayerSize)]))
    {
      this.world := world;
      this.size := size;
      this.mutationChance := mutationChance;
      this.hiddenLayerSize := hiddenLayerSize;
      this.breedingMethod := breedingMethod;
      generation := 1;
      elites := [];
      world.walls := world.walls + [firstPair];
      var flock: seq<Bird> := [];
      for i := 0 to size
        invariant world.walls == old(world.walls) + [firstPair]
        invariant |flock| == i && Distinct(flock)
        invariant forall j :: 0 <= j < i ==>
          fresh(flock[j]) && Hatched(flock[j], hiddenLayerSize, Randomised(draws[j].init[..GeneCount(hiddenLayerSize)]))
      {
        var bird := new Bird.Legacy(world, hiddenLayerSize, draws[i].init);
        DistinctPush(flock, bird);
        flock := flock + [bird];
      }
      birds := flock;
      bestScore := 0;
    }

    /** `getBestChromosomes` and `setElites`: the population is sorted in
        place by non-increasing fitness, its first two birds become the
        elites, and their chromosomes are returned. */
    method GetBestChromosomes() returns (a: seq<real>, b: seq<real>)
      requires |birds| >= 2 && forall k :: 0 <= k < |birds| ==> birds[k].network.Shaped(hiddenLayerSize)
      modifies this`birds, this`elites
      ensures birds == old(SortByFitness(birds))
      ensures elites == birds[..2]
      ensures a == ExtractChromosome(elites[0].network) && b == ExtractChromosome(elites[1].network)
      ensures elites[0].network.Shaped(hiddenLayerSize) && elites[1].network.Shaped(hiddenLayerSize)
      ensures forall x :: x in birds ==> x in old(birds)
      ensures Distinct(old(birds)) ==> Distinct(birds)
    {
      HeadsShaped(birds, hiddenLayerSize);
      var sorted := SortByFitness(birds);
      birds := sorted;
      elites := [sorted[0], sorted[1]];
      a := ExtractChromosome(elites[0].network);
      b := ExtractChromosome(elites[1].network);
    }

    /** `killPopulation`: every bird dies (rewarded by its distance to the
        gap), the walls are cleared and the list emptied. */
    method KillPopulation(distances: seq<real>, ghost herd: seq<Bird>, ghost pair: seq<Bird>, ghost genes: seq<seq<real>>)
      requires forall x :: x in birds ==> x in herd
      requires Distinct(birds)
      requires |distances| >= |birds| && forall k :: 0 <= k < |birds| ==> distances[k] != 0.0
      requires |pair| == |genes| == 2
      requires pair[0].network.Shaped(hiddenLayerSize) && ExtractChromosome(pair[0].network) == genes[0]
      requires pair[1].network.Shaped(hiddenLayerSize) && ExtractChromosome(pair[1].network) == genes[1]
      modifies this`birds, world`walls, (set b | b in herd)`alive, (set b | b in herd)`fitness
      ensures birds == [] && world.walls == []
      ensures forall k :: 0 <= k < |old(birds)| ==>
        !old(birds)[k].alive && old(birds)[k].fitness == old(birds[k].fitness) + 1.0 / distances[k]
      ensures pair[0].network.Shaped(hiddenLayerSize) && ExtractChromosome(pair[0].network) == genes[0]
      ensures pair[1].network.Shaped(hiddenLayerSize) && ExtractChromosome(pair[1].network) == genes[1]
    {
      ghost var flock := birds;
      for i := 0 to |birds|
        invariant birds == flock
        invariant forall k :: 0 <= k < i ==> !flock[k].alive && flock[k].fitness == old(flock[k].fitness) + 1.0 / distances[k]
        invariant forall k :: i <= k < |flock| ==> flock[k].fitness == old(flock[k].fitness)
        invariant pair[0].network.Shaped(hiddenLayerSize) && ExtractChromosome(pair[0].network) == genes[0]
        invariant pair[1].network.Shaped(hiddenLayerSize) && ExtractChromosome(pair[1].network) == genes[1]
      {
        DistinctOthers(flock, i);
        birds[i].LegacyDie(distances[i]);
      }
      world.walls := [];
      birds := [];
    }

    /** The first half of `nextGeneration`: one generation further, no
        pipe counted, the elites picked from the sorted population, and
        the population killed. */
    method Retire(distances: seq<real>) returns (a: seq<real>, b: seq<real>)
      requires Valid() && size >= 2
      requires |distances| >= size && forall k :: 0 <= k < size ==> distances[k] != 0.0
      modifies this`birds, this`generation, this`elites, world`walls, world`pipesCount
      modifies (set x | x in birds)`alive, (set x | x in birds)`fitness
      ensures generation == old(generation) + 1 && world.pipesCount == 0
      ensures elites == old(SortByFitness(birds))[..2]
      ensures elites[0].network.Shaped(hiddenLayerSize) && elites[1].network.Shaped(hiddenLayerSize)
      ensures a == ExtractChromosome(elites[0].network) && b == ExtractChromosome(elites[1].network)
      ensures birds == [] && world.walls == []
      ensures forall x :: x in old(birds) ==> !x.alive
    {
      a, b := GetBestChromosomes();
      Bury(distances, old(birds), a, b);
    }

    /** The population killed after the elites are picked, one generation
        further and no pipe counted. */
    method Bury(distances: seq<real>, ghost herd: seq<Bird>, ghost a: seq<real>, ghost b: seq<real>)
      requires forall x :: x in birds ==> x in herd
      requires Distinct(birds) && |elites| == 2
      requires |distances| >= |birds| && forall k :: 0 <= k < |birds| ==> distances[k] != 0.0
      requires elites[0].network.Shaped(hiddenLayerSize) && elites[1].network.Shaped(hiddenLayerSize)
      requires a == ExtractChromosome(elites[0].network) && b == ExtractChromosome(elites[1].network)
      modifies this`birds, this`generation, world`walls, world`pipesCount
      modifies (set x | x in herd)`alive, (set x | x in herd)`fitness
      ensures generation == old(generation) + 1 && world.pipesCount == 0
      ensures elites[0].network.Shaped(hiddenLayerSize) && elites[1].network.Shaped(hiddenLayerSize)
      ensures a == ExtractChromosome(elites[0].network) && b == ExtractChromosome(elites[1].network)
      ensures birds == [] && world.walls == []
      ensures forall k :: 0 <= k < |old(birds)| ==>
        !old(birds)[k].alive && old(birds)[k].fitness == old(birds[k].fitness) + 1.0 / distances[k]
    {
      KillPopulation(distances, herd, elites, [a, b]);
      generation := generation + 1;
      world.pipesCount := 0;
    }

    /** One pass of the rebuild loop: a new bird, the elites' crossover,
        the bird's first tick among no walls (so at distance 1), then
        `setDNA`, which shifts its genes off the crossover. */
    method Hatch(a: seq<real>, b: seq<real>, d: BirdDraws, tick: FirstTick, chance: real, ghost target: seq<real>)
      returns (bird: Bird)
      requires |a| == |b| == GeneCount(hiddenLayerSize) && BirdReady(d, hiddenLayerSize)
      requires world.walls == []
      requires target == LegacyChild(a, b, d, hiddenLayerSize, breedingMethod, chance)
      modifies world`walls, world`pipesCount
      ensures fresh(bird)
      ensures Fledged(bird, target, tick)
      ensures world.walls == [] && world.pipesCount == old(world.pipesCount)
    {
      bird := new Bird.Legacy(world, hiddenLayerSize, d.init);
      var dna := LegacyCrossOver(a, b, breedingMethod, d.cross);
      var _ := bird.LegacyUpdate(world, tick.flap, NoWallDistance);
      var genes := new GeneList(dna);
      bird.SetDna(genes, chance, d.rolls, d.values);
    }

    /** `targets` lists the chromosome each new bird of the rebuild loop
        is given, with `chance` as its mutation chance. */
    ghost predicate Planned(targets: seq<seq<real>>, a: seq<real>, b: seq<real>, draws: seq<BirdDraws>, chance: real)
      requires |a| == |b| == GeneCount(hiddenLayerSize)
      requires AllBirdsReady(draws, hiddenLayerSize, size)
    {
      && |targets| == size
      && forall k :: 0 <= k < size ==> targets[k] == LegacyChild(a, b, draws[k], hiddenLayerSize, breedingMethod, chance)
    }

    /** One pass of the rebuild loop, pushed onto the new population. */
    method BreedOne(flock: seq<Bird>, i: nat, a: seq<real>, b: seq<real>, draws: seq<BirdDraws>, ticks: seq<FirstTick>,
                    chance: real, ghost targets: seq<seq<real>>)
      returns (more: seq<Bird>)
      requires |a| == |b| == GeneCount(hiddenLayerSize)
      requires AllBirdsReady(draws, hiddenLayerSize, size) && TicksReady(ticks, size)
      requires Planned(targets, a, b, draws, chance) && i < size && world.walls == []
      requires |flock| == i && Distinct(flock)
      requires forall k :: 0 <= k < i ==> Fledged(flock[k], targets[k], ticks[k])
      modifies world`walls, world`pipesCount
      ensures |more| == i + 1 && more[..i] == flock && Distinct(more) && fresh(more[i])
      ensures forall k :: 0 <= k <= i ==> Fledged(more[k], targets[k], ticks[k])
      ensures world.walls == [] && world.pipesCount == old(world.pipesCount)
    {
      var bird := Hatch(a, b, draws[i], ticks[i], chance, targets[i]);
      DistinctPush(flock, bird);
      more := flock + [bird];
    }

    /** The rebuild loop of `nextGeneration`: `size` new birds, each the
        elites' mutated child after one tick, pushed in order. */
    method Brood(a: seq<real>, b: seq<real>, draws: seq<BirdDraws>, ticks: seq<FirstTick>, chance: real,
                 ghost targets: seq<seq<real>>)
      returns (flock: seq<Bird>)
      requires |a| == |b| == GeneCount(hiddenLayerSize)
      requires AllBirdsReady(draws, hiddenLayerSize, size) && TicksReady(ticks, size)
      requires Planned(targets, a, b, draws, chance) && world.walls == []
      modifies world`walls, world`pipesCount
      ensures |flock| == size && Distinct(flock)
      ensures forall k :: 0 <= k < size ==> fresh(flock[k])
      ensures forall k :: 0 <= k < size ==> Fledged(flock[k], targets[k], ticks[k])
      ensures world.walls == [] && world.pipesCount == old(world.pipesCount)
    {
      flock := [];
      for i := 0 to size
        invariant |flock| == i && Distinct(flock)
        invariant forall j :: 0 <= j < i ==> fresh(flock[j])
        invariant forall j :: 0 <= j < i ==> Fledged(flock[j], targets[j], ticks[j])
        invariant world.walls == [] && world.pipesCount == old(world.pipesCount)
      {
        flock := BreedOne(flock, i, a, b, draws, ticks, chance, targets);
      }
    }

    /** One pass of the elite loop: new bird `i` takes over `elites[i]`'s
        network (the object itself, not a copy), so the chromosome it holds
        becomes the elite's. */
    method TakeOver(i: nat, bird: Bird, ghost before: seq<seq<real>>, ghost after: seq<seq<real>>, ghost ticks: seq<FirstTick>)
      requires TicksReady(ticks, size)
      requires i < 2 && |elites| == 2 && |birds| == size >= 2 && Distinct(birds)
      requires bird == birds[i] && elites[i].network.Shaped(hiddenLayerSize)
      requires |before| == size && after == before[i := ExtractChromosome(elites[i].network)]
      requires forall k :: 0 <= k < size ==> Fledged(birds[k], before[k], ticks[k])
      modifies bird`network
      ensures bird.network == elites[i].network
      ensures forall k :: 0 <= k < size && k != i ==> birds[k].network == old(birds[k].network)
      ensures forall k :: 0 <= k < size ==> Fledged(birds[k], after[k], ticks[k])
    {
      DistinctOthers(birds, i);
      bird.network := elites[i].network;
    }

    /** The elite loop at the end of `nextGeneration`: the first two new
        birds take over the elites' networks. */
    method Conclude(first: Bird, second: Bird, ghost a: seq<real>, ghost b: seq<real>, ghost draws: seq<BirdDraws>,
                    ghost chance: real, ghost targets: seq<seq<real>>, ghost ticks: seq<FirstTick>)
      requires |birds| == size >= 2 && |elites| == 2 && Distinct(birds)
      requires first == birds[0] && second == birds[1]
      requires elites[0] !in birds && elites[1] !in birds
      requires elites[0].network.Shaped(hiddenLayerSize) && elites[1].network.Shaped(hiddenLayerSize)
      requires a == ExtractChromosome(elites[0].network) && b == ExtractChromosome(elites[1].network)
      requires AllBirdsReady(draws, hiddenLayerSize, size)
      requires Planned(targets, a, b, draws, chance) && TicksReady(ticks, size)
      requires forall k :: 0 <= k < size ==> Fledged(birds[k], targets[k], ticks[k])
      modifies first`network, second`network
      ensures Fledged(birds[0], a, ticks[0])
      ensures Fledged(birds[1], b, ticks[1])
      ensures forall k :: 2 <= k < size ==>
        Fledged(birds[k], LegacyChild(a, b, draws[k], hiddenLayerSize, breedingMethod, chance), ticks[k])
      ensures birds[0].network == elites[0].network && birds[1].network == elites[1].network
      ensures forall k :: 0 <= k < size ==> birds[k].network.Shaped(hiddenLayerSize)
      ensures world.walls == old(world.walls) && world.pipesCount == old(world.pipesCount)
    {
      ghost var halfway := targets[0 := ExtractChromosome(elites[0].network)];
      TakeOver(0, first, targets, halfway, ticks);
      ghost var crowned := halfway[1 := ExtractChromosome(elites[1].network)];
      TakeOver(1, second, halfway, crowned, ticks);
      assert forall k :: 0 <= k < size ==> Fledged(birds[k], crowned[k], ticks[k]);
      assert forall k :: 2 <= k < size ==> crowned[k] == targets[k];
    }

    /** The second half of `nextGeneration`: the rebuild loop with the
        chance the best score calls for, then the first two birds take over
        the elites' networks. */
    method Repopulate(a: seq<real>, b: seq<real>, draws: seq<BirdDraws>, ticks: seq<FirstTick>)
      requires birds == [] && world.walls == [] && size >= 2 && |elites| == 2
      requires elites[0].network.Shaped(hiddenLayerSize) && elites[1].network.Shaped(hiddenLayerSize)
      requires a == ExtractChromosome(elites[0].network) && b == ExtractChromosome(elites[1].network)
      requires AllBirdsReady(draws, hiddenLayerSize, size) && TicksReady(ticks, size)
      modifies this`birds, world`walls, world`pipesCount
      ensures Valid()
      ensures world.walls == [] && world.pipesCount == old(world.pipesCount)
      ensures forall k :: 0 <= k < size ==> fresh(birds[k])
      ensures Fledged(birds[0], a, ticks[0])
      ensures Fledged(birds[1], b, ticks[1])
      ensures forall k :: 2 <= k < size ==>
        Fledged(birds[k], LegacyChild(a, b, draws[k], hiddenLayerSize, breedingMethod, RebuildChance(bestScore, mutationChance)),
                ticks[k])
      ensures birds[0].network == elites[0].network && birds[1].network == elites[1].network
    {
      var chance := RebuildChance(bestScore, mutationChance);
      ghost var targets := seq(size, k requires 0 <= k < size =>
        LegacyChild(a, b, draws[k], hiddenLayerSize, breedingMethod, chance));
      assert Planned(targets, a, b, draws, chance);
      birds := Brood(a, b, draws, ticks, chance, targets);
      Conclude(birds[0], birds[1], a, b, draws, chance, targets, ticks);
    }

    /** `nextGeneration`: one generation further, the population sorted
        and killed, and `size` new birds bred from its two fittest birds
        and flown one tick, the first two of them flying with the elites'
        own networks. */
    method NextGeneration(distances: seq<real>, draws: seq<BirdDraws>, ticks: seq<FirstTick>)
      requires Valid() && size >= 2
      requires |distances| >= size && forall k :: 0 <= k < size ==> distances[k] != 0.0
      requires AllBirdsReady(draws, hiddenLayerSize, size) && TicksReady(ticks, size)
      modifies this`birds, this`generation, this`elites, world`walls, world`pipesCount
      modifies (set b | b in birds)`alive, (set b | b in birds)`fitness
      ensures Valid()
      ensures generation == old(generation) + 1
      ensures elites == old(SortByFitness(birds))[..2]
      ensures elites[0].network.Shaped(hiddenLayerSize) && elites[1].network.Shaped(hiddenLayerSize)
      ensures world.pipesCount == 0 && world.walls == []
      ensures forall k :: 0 <= k < size ==> fresh(birds[k])
      ensures var a, b := ExtractChromosome(elites[0].network), ExtractChromosome(elites[1].network);
        && Fledged(birds[0], a, ticks[0])
        && Fledged(birds[1], b, ticks[1])
        && forall k :: 2 <= k < size ==>
             Fledged(birds[k], LegacyChild(a, b, draws[k], hiddenLayerSize, breedingMethod, RebuildChance(bestScore, mutationChance)),
                     ticks[k])
      ensures birds[0].network == elites[0].network && birds[1].network == elites[1].network
      ensures forall x :: x in old(birds) ==> !x.alive
    {
      var a, b := Retire(distances);
      Repopulate(a, b, draws, ticks);
    }

    /** The loop of `hasDiedOut`: one pass over the birds counting the
        dead and raising the running best score to every strictly higher
        score. */
    method Census() returns (counter: nat, best: int)
      ensures counter == DeadCount(birds)
      ensures best == BestScore(bestScore, birds)
    {
      counter, best := 0, bestScore;
      for i := 0 to |birds|
        invariant counter == DeadCount(birds[..i])
        invariant best == BestScore(bestScore, birds[..i])
      {
        StrictDiedOutStep(bestScore, birds, i);
        if !birds[i].alive {
          counter := counter + 1;
        }
        best := if birds[i].score > best then birds[i].score else best;
      }
      assert birds[..|birds|] == birds;
    }

    /** `hasDiedOut`: the population has died out exactly when every one
        of its `size` birds is dead; the best score is kept up to date (a
        strictly higher score replaces it, which gives the same best score
        as the compiled revision's rule). */
    method HasDiedOut() returns (diedOut: bool)
      modifies this`bestScore
      ensures diedOut <==> old(DeadCount(birds)) == size
      ensures bestScore == old(BestScore(bestScore, birds))
    {
      var counter, best := Census();
      bestScore := best;
      diedOut := counter == size;
    }
  }
}
