/** One bird: its physical state, its life and fitness, and the policy
    network whose genes the generation controller reads and writes.
    `Update`, `Die`, `SetChromosome` and `IsCollision` follow the current
    revision of the bird (and its compiled copy); `LegacyUpdate`,
    `LegacyDie` and `SetDna` follow the older revision. The decision of the
    network (`Math.round(network.activate(input)) === 1`) and the renderer's
    `getDistance` are parameters. */
module Birds {
  import opened Arena
  import opened Genome

  const MinVelocity: real := -10.0
  const MaxVelocity: real := 10.0
  /** Fitness earned by every live tick. */
  const FitnessPerTick: real := 0.01
  /** Fitness lost by leaving the view. */
  const OutOfBoundsPenalty: real := 0.20
  /** The jump: 40 per unit of tick time (a flat 40 in the older revision). */
  const JumpImpulse: real := 40.0
  /** Gravity per unit of tick time in the current revision. */
  const Gravity: real := 0.8
  /** Gravity per tick in the older revision. */
  const LegacyGravity: real := 0.5
  /** The older revision's fixed sprite height. */
  const LegacyHeight: real := 35.0

  /** The two clamping `if`s of `update`. */
  function Clamp(v: real): (c: real)
    ensures MinVelocity <= c <= MaxVelocity
    ensures MinVelocity <= v <= MaxVelocity ==> c == v
    ensures v > MaxVelocity ==> c == MaxVelocity
    ensures v < MinVelocity ==> c == MinVelocity
  {
    var capped := if v > MaxVelocity then MaxVelocity else v;
    if capped < MinVelocity then MinVelocity else capped
  }

  class Bird {
    var network: Network
    var x: real
    var y: real
    const width: real
    const height: real
    /** Where the sprite was last drawn; collisions are tested against it. */
    var spriteX: real
    var spriteY: real
    var velocity: real
    var acceleration: real
    var alive: bool
    var fitness: real
    var score: int

    /** `Renderer.createBird`: a bird at a tenth of the screen's width and
        60 above its middle, a twenty-first of the screen high and 1.3
        times as wide, drawn where it stands, with a random network. */
    constructor (world: World, hiddenLayerSize: nat, draws: seq<real>)
      requires |draws| >= GeneCount(hiddenLayerSize) && AllDraws(draws)
      ensures x == world.screenWidth / 10.0 && y == world.screenHeight / 2.0 - 60.0
      ensures height == world.screenHeight / 21.0 && width == height * 1.3
      ensures spriteX == x && spriteY == y
      ensures velocity == 0.0 && acceleration == 0.0 && alive && fitness == 0.0 && score == 0
      ensures fresh(network) && fresh(network.weights) && fresh(network.biases)
      ensures network.Shaped(hiddenLayerSize)
      ensures ExtractChromosome(network) == Randomised(draws[..GeneCount(hiddenLayerSize)])
    {
      x := world.screenWidth / 10.0;
      y := world.screenHeight / 2.0 - 60.0;
      height := world.screenHeight / 21.0;
      width := world.screenHeight / 21.0 * 1.3;
      spriteX := world.screenWidth / 10.0;
      spriteY := world.screenHeight / 2.0 - 60.0;
      velocity := 0.0;
      acceleration := 0.0;
      alive := true;
      fitness := 0.0;
      score := 0;
      network := new Network(hiddenLayerSize, draws);
    }

    /** The older revision's bird: the same placement with a fixed height
        of 35. */
    constructor Legacy(world: World, hiddenLayerSize: nat, draws: seq<real>)
      requires |draws| >= GeneCount(hiddenLayerSize) && AllDraws(draws)
      ensures x == world.screenWidth / 10.0 && y == world.screenHeight / 2.0 - 60.0
      ensures height == LegacyHeight && width == LegacyHeight * 1.3
      ensures spriteX == x && spriteY == y
      ensures velocity == 0.0 && acceleration == 0.0 && alive && fitness == 0.0 && score == 0
      ensures fresh(network) && fresh(network.weights) && fresh(network.biases)
      ensures network.Shaped(hiddenLayerSize)
      ensures ExtractChromosome(network) == Randomised(draws[..GeneCount(hiddenLayerSize)])
    {
      x := world.screenWidth / 10.0;
      y := world.screenHeight / 2.0 - 60.0;
      height := LegacyHeight;
      width := LegacyHeight * 1.3;
      spriteX := world.screenWidth / 10.0;
      spriteY := world.screenHeight / 2.0 - 60.0;
      velocity := 0.0;
      acceleration := 0.0;
      alive := true;
      fitness := 0.0;
      score := 0;
      network := new Network(hiddenLayerSize, draws);
    }

    /** The sprite's box as last drawn. */
    function SpriteRect(): Rect
      reads this
    {
      Rect(spriteX, spriteY, width, height)
    }

    method Jump(impulse: real)
      modifies this`acceleration
      ensures acceleration == old(acceleration) - impulse
    {
      acceleration := acceleration - impulse;
    }

    /** `render`: the sprite moves to the bird's position. */
    method Render()
      modifies this`spriteX, this`spriteY
      ensures spriteX == x && spriteY == y
    {
      spriteX := x;
      spriteY := y;
    }

    /** `die`: dead, rewarded by the inverse distance to the gap, and one
        fewer bird counted alive, whether or not the bird was alive. */
    method Die(world: World, distance: real)
      requires distance != 0.0
      modifies this`alive, this`fitness, world`birdsAlive
      ensures !alive && fitness == old(fitness) + 1.0 / distance
      ensures world.birdsAlive == old(world.birdsAlive) - 1
    {
      alive := false;
      fitness := fitness + 1.0 / distance;
      world.birdsAlive := world.birdsAlive - 1;
    }

    /** The older `die`: no alive counter is touched. */
    method LegacyDie(distance: real)
      requires distance != 0.0
      modifies this`alive, this`fitness
      ensures !alive && fitness == old(fitness) + 1.0 / distance
    {
      alive := false;
      fitness := fitness + 1.0 / distance;
    }

    /** `isCollision`: with no walls, false and nothing changes; otherwise
        a hit of the front pair's top or bottom pipe, and, when there is no
        hit and the bird is past the front top pipe, one more point, one
        more pipe counted and the front pair removed from the queue. */
    method IsCollision(world: World) returns (collision: bool)
      modifies this`score, world`pipesCount, world`walls
      ensures collision == Collides(SpriteRect(), old(world.walls))
      ensures old(world.walls) == [] ==> !collision
      ensures !collision && Passes(x, width, old(world.walls)) ==>
        && score == old(score) + 1
        && world.pipesCount == old(world.pipesCount) + 1
        && world.walls == old(world.walls)[1..]
      ensures collision || !Passes(x, width, old(world.walls)) ==>
        score == old(score) && world.pipesCount == old(world.pipesCount) && world.walls == old(world.walls)
    {
      if |world.walls| == 0 {
        return false;
      }
      var top := world.walls[0].top;
      var bottom := world.walls[0].bottom;
      collision := HitTest(SpriteRect(), top.sprite) || HitTest(SpriteRect(), bottom.sprite);
      if !collision {
        if x + width > top.x + top.width {
          world.pipesCount := world.pipesCount + 1;
          score := score + 1;
          world.walls := world.walls[1..];
        }
      }
    }

    /** The physics of one tick: the jump (if the network says so), the
        tick's fitness, gravity, the move by the old velocity scaled by the
        tick time, the new velocity clamped and the acceleration reset. */
    method Move(flap: bool, impulse: real, gravity: real, scale: real)
      modifies this`fitness, this`acceleration, this`y, this`velocity
      ensures fitness == old(fitness) + FitnessPerTick
      ensures acceleration == 0.0
      ensures y == old(y) + old(velocity) * scale
      ensures velocity == Clamp(old(velocity) + old(acceleration) - (if flap then impulse else 0.0) + gravity)
    {
      if flap {
        Jump(impulse);
      }
      fitness := fitness + FitnessPerTick;
      acceleration := acceleration + gravity;
      y := y + velocity * scale;
      velocity := velocity + acceleration;
      acceleration := 0.0;
      if velocity > MaxVelocity {
        velocity := MaxVelocity;
      }
      if velocity < MinVelocity {
        velocity := MinVelocity;
      }
    }

    /** `update(delta)`. `stopped` is true when the call returns `false`
        (the bird was or becomes dead) and false when it returns nothing. */
    method Update(delta: real, world: World, flap: bool, distance: real) returns (stopped: bool)
      requires distance != 0.0
      modifies this`fitness, this`acceleration, this`y, this`velocity, this`alive, this`score
      modifies this`spriteX, this`spriteY, world`walls, world`pipesCount, world`birdsAlive
      ensures stopped <==> !alive
      ensures !old(alive) ==> !alive
      ensures world.birdsAlive == old(world.birdsAlive) - (if old(alive) && !alive then 1 else 0)
      ensures !old(alive) ==> unchanged(this) && unchanged(world)
      ensures old(alive) ==>
        && acceleration == 0.0
        && y == old(y) + old(velocity) * delta
        && velocity == Clamp(old(velocity) + old(acceleration) - (if flap then JumpImpulse * delta else 0.0) + Gravity * delta)
        && MinVelocity <= velocity <= MaxVelocity
      ensures old(alive) && OutOfBounds(world.viewHeight, y) ==>
        && !alive
        && fitness == old(fitness) + FitnessPerTick + 1.0 / distance - OutOfBoundsPenalty
        && world.birdsAlive == old(world.birdsAlive) - 1
        && score == old(score) && world.walls == old(world.walls) && world.pipesCount == old(world.pipesCount)
        && spriteX == old(spriteX) && spriteY == old(spriteY)
      ensures old(alive) && !OutOfBounds(world.viewHeight, y) && Collides(old(SpriteRect()), old(world.walls)) ==>
        && !alive
        && fitness == old(fitness) + FitnessPerTick + 1.0 / distance
        && world.birdsAlive == old(world.birdsAlive) - 1
        && score == old(score) && world.walls == old(world.walls) && world.pipesCount == old(world.pipesCount)
        && spriteX == old(spriteX) && spriteY == old(spriteY)
      ensures old(alive) && !OutOfBounds(world.viewHeight, y) && !Collides(old(SpriteRect()), old(world.walls)) ==>
        && alive
        && fitness == old(fitness) + FitnessPerTick
        && world.birdsAlive == old(world.birdsAlive)
        && spriteX == x && spriteY == y
        && if Passes(x, width, old(world.walls)) then
             score == old(score) + 1 && world.pipesCount == old(world.pipesCount) + 1 && world.walls == old(world.walls)[1..]
           else
             score == old(score) && world.pipesCount == old(world.pipesCount) && world.walls == old(world.walls)
    {
      if !alive {
        return true;
      }
      Move(flap, JumpImpulse * delta, Gravity * delta, delta);
      if OutOfBounds(world.viewHeight, y) {
        Die(world, distance);
        fitness := fitness - OutOfBoundsPenalty;
        return true;
      }
      var collision := IsCollision(world);
      if collision {
        Die(world, distance);
        return true;
      }
      Render();
      return false;
    }

    /** The older `update()`: the same step without a time scale, gravity
        0.5, and a death that leaves the alive counter alone. */
    method LegacyUpdate(world: World, flap: bool, distance: real) returns (stopped: bool)
      requires distance != 0.0
      modifies this`fitness, this`acceleration, this`y, this`velocity, this`alive, this`score
      modifies this`spriteX, this`spriteY, world`walls, world`pipesCount
      ensures stopped <==> !alive
      ensures world.birdsAlive == old(world.birdsAlive)
      ensures !old(alive) ==> unchanged(this) && unchanged(world)
      ensures old(alive) ==>
        && acceleration == 0.0
        && y == old(y) + old(velocity)
        && velocity == Clamp(old(velocity) + old(acceleration) - (if flap then JumpImpulse else 0.0) + LegacyGravity)
        && MinVelocity <= velocity <= MaxVelocity
      ensures old(alive) && OutOfBounds(world.viewHeight, y) ==>
        && !alive
        && fitness == old(fitness) + FitnessPerTick + 1.0 / distance - OutOfBoundsPenalty
        && score == old(score) && world.walls == old(world.walls) && world.pipesCount == old(world.pipesCount)
        && spriteX == old(spriteX) && spriteY == old(spriteY)
      ensures old(alive) && !OutOfBounds(world.viewHeight, y) && Collides(old(SpriteRect()), old(world.walls)) ==>
        && !alive
        && fitness == old(fitness) + FitnessPerTick + 1.0 / distance
        && score == old(score) && world.walls == old(world.walls) && world.pipesCount == old(world.pipesCount)
        && spriteX == old(spriteX) && spriteY == old(spriteY)
      ensures old(alive) && !OutOfBounds(world.viewHeight, y) && !Collides(old(SpriteRect()), old(world.walls)) ==>
        && alive
        && fitness == old(fitness) + FitnessPerTick
        && spriteX == x && spriteY == y
        && if Passes(x, width, old(world.walls)) then
             score == old(score) + 1 && world.pipesCount == old(world.pipesCount) + 1 && world.walls == old(world.walls)[1..]
           else
             score == old(score) && world.pipesCount == old(world.pipesCount) && world.walls == old(world.walls)
    {
      if !alive {
        return true;
      }
      Move(flap, JumpImpulse, LegacyGravity, 1.0);
      if OutOfBounds(world.viewHeight, y) {
        LegacyDie(distance);
        fitness := fitness - OutOfBoundsPenalty;
        return true;
      }
      var collision := IsCollision(world);
      if collision {
        LegacyDie(distance);
        return true;
      }
      Render();
      return false;
    }

    /** `setChromosome`: shift one gene off the front of the given array
        into every weight, then into every bias; each gene is replaced by a
        fresh `r * 2 - 1` when its draw is below the mutation chance. Every
        replacement is one increment of the renderer's `mutated` counter:
        `replaced` is that number of increments, which the caller applies. */
    method SetChromosome(chromosome: GeneList, mutationChance: real, rolls: seq<real>, values: seq<real>)
      returns (replaced: nat)
      requires network.weights != network.biases
      requires |rolls| >= network.weights.Length + network.biases.Length
      requires |values| >= network.weights.Length + network.biases.Length
      modifies network.weights, network.biases, chromosome
      ensures var n := network.weights.Length + network.biases.Length;
        && ExtractChromosome(network) == Injected(Shifted(old(chromosome.items), n), rolls, values, mutationChance)
        && chromosome.items == Remaining(old(chromosome.items), n)
        && replaced == MutationCount(rolls[..n], mutationChance)
    {
      ghost var genes := chromosome.items;
      var nw, nb := network.weights.Length, network.biases.Length;
      var inWeights := Inject(network.weights, chromosome, rolls, values, 0, mutationChance);
      ghost var weightGenes := network.weights[..];
      var inBiases := Inject(network.biases, chromosome, rolls, values, nw, mutationChance);
      replaced := inWeights + inBiases;
      assert ExtractChromosome(network) == weightGenes + network.biases[..];
      ShiftedInTwo(genes, nw, nb);
      InjectedInTwo(genes, rolls, values, mutationChance, nw, nb);
      MutationCountInTwo(rolls, mutationChance, nw, nb);
    }

    /** The older `setDNA`: the same front-to-back shifting, weights first,
        with the given chance for the weights and a fixed chance of 0.05 for
        the biases, and no mutation counter. */
    method SetDna(dna: GeneList, mutationChance: real, rolls: seq<real>, values: seq<real>)
      requires network.weights != network.biases
      requires |rolls| >= network.weights.Length + network.biases.Length
      requires |values| >= network.weights.Length + network.biases.Length
      modifies network.weights, network.biases, dna
      ensures var n := network.weights.Length + network.biases.Length;
        && ExtractChromosome(network) == InjectedDna(Shifted(old(dna.items), n), rolls, values, mutationChance, network.weights.Length)
        && dna.items == Remaining(old(dna.items), n)
    {
      ghost var genes := dna.items;
      var nw, nb := network.weights.Length, network.biases.Length;
      var _ := Inject(network.weights, dna, rolls, values, 0, mutationChance);
      ghost var weightGenes := network.weights[..];
      var _ := Inject(network.biases, dna, rolls, values, nw, LegacyBiasMutationChance);
      ShiftedInTwo(genes, nw, nb);
      assert network.weights[..] == weightGenes;
      assert rolls[0..] == rolls && values[0..] == values;
      assert ExtractChromosome(network) == weightGenes + network.biases[..];
    }
  }

  /** A bird as a new population receives it: alive, without fitness or
      score, with a network of the configured topology that holds the
      given chromosome. */
  predicate Hatched(bird: Bird, hiddenLayerSize: nat, chromosome: seq<real>)
    reads bird, bird.network.weights, bird.network.biases
  {
    && bird.alive && bird.fitness == 0.0 && bird.score == 0
    && bird.network.Shaped(hiddenLayerSize)
    && ExtractChromosome(bird.network) == chromosome
  }

  /** No bird appears twice in a population. */
  predicate Distinct(birds: seq<Bird>)
  {
    forall b | b in birds :: multiset(birds)[b] == 1
  }

  /** Two positions of a population without repeats hold two birds. */
  lemma DistinctApart(birds: seq<Bird>, i: nat, j: nat)
    requires Distinct(birds) && i < j < |birds|
    ensures birds[i] != birds[j]
  {
    var front, back := birds[..j], birds[j..];
    assert birds == front + back;
    assert front[i] == birds[i] && back[0] == birds[j];
    assert multiset(birds)[birds[j]] == multiset(front)[birds[j]] + multiset(back)[birds[j]];
  }

  /** The bird at one position of a population without repeats is at no
      other position. */
  lemma DistinctOthers(birds: seq<Bird>, k: nat)
    requires Distinct(birds) && k < |birds|
    ensures forall j :: 0 <= j < |birds| && j != k ==> birds[j] != birds[k]
  {
    forall j | 0 <= j < |birds| && j != k ensures birds[j] != birds[k] {
      if j < k { DistinctApart(birds, j, k); } else { DistinctApart(birds, k, j); }
    }
  }

  /** Pushing a bird that is not yet there keeps a population without
      repeats. */
  lemma DistinctPush(birds: seq<Bird>, b: Bird)
    requires Distinct(birds) && b !in birds
    ensures Distinct(birds + [b])
  {
    assert multiset(birds + [b]) == multiset(birds) + multiset{b};
  }
}
