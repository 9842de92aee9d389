/** What the two older generation controllers share: the draws spent on a
    new bird, the dead count and running best score that `hasDiedOut`
    accumulates, and the in-place sort that picks the two elites. */
module OlderRules {
  import opened Genome
  import opened Crossover
  import opened Birds
  import opened Selection

  /** The `Math.random()` draws spent on one new bird of an older
      `nextGeneration`: the bird's own network (`init`), the crossover
      draws, the 0.98 keep gate (compiled revision only) and the mutation
      draws of `setChromosome` / `setDNA`. */
  datatype BirdDraws = BirdDraws(init: seq<real>, cross: seq<real>, keep: real, rolls: seq<real>, values: seq<real>)

  predicate BirdReady(d: BirdDraws, hiddenLayerSize: nat)
  {
    var n := GeneCount(hiddenLayerSize);
    && |d.init| >= n && AllDraws(d.init)
    && CrossDraws(d.cross, n)
    && IsDraw(d.keep)
    && |d.rolls| >= n && AllDraws(d.rolls)
    && |d.values| >= n && AllDraws(d.values)
  }

  predicate AllBirdsReady(draws: seq<BirdDraws>, hiddenLayerSize: nat, n: nat)
  {
    |draws| >= n && forall k :: 0 <= k < n ==> BirdReady(draws[k], hiddenLayerSize)
  }

  /** The only methods for which the older `crossOver` yields a child as
      long as its parents; any other yields an empty array, whose `shift()`
      would write undefined genes. */
  predicate Breeds(breeding: BreedingMethod)
  {
    breeding.Uniform? || breeding.OnePoint?
  }

  /** The birds `hasDiedOut` counts as dead, one pass front to back. */
  function DeadCount(birds: seq<Bird>): (n: nat)
    reads birds
    ensures n + AliveCount(birds) == |birds|
  {
    if birds == [] then 0
    else
      var init := birds[..|birds| - 1];
      assert AliveFlags(init) == AliveFlags(birds)[..|birds| - 1];
      DeadCount(init) + (if birds[|birds| - 1].alive then 0 else 1)
  }

  /** A population of `size` birds has died out exactly when none of them
      is alive. */
  lemma DeadCountAllDead(birds: seq<Bird>)
    ensures DeadCount(birds) == |birds| <==> forall k :: 0 <= k < |birds| ==> !birds[k].alive
  {
    AliveCountBounds(birds);
  }

  /** The best score after `hasDiedOut` walked the birds from `best` on:
      a bird's score replaces the running value when it is at least as
      high. */
  function BestScore(best: int, birds: seq<Bird>): (r: int)
    reads birds
    ensures r >= best
    ensures forall k :: 0 <= k < |birds| ==> r >= birds[k].score
    ensures r == best || exists k :: 0 <= k < |birds| && r == birds[k].score
  {
    if birds == [] then best
    else
      var init := birds[..|birds| - 1];
      var last := birds[|birds| - 1];
      var b := BestScore(best, init);
      assert forall k :: 0 <= k < |init| ==> init[k] == birds[k];
      if last.score >= b then last.score else b
  }

  /** One pass of the `hasDiedOut` loop: the next bird adds to the dead
      count when it is dead, and raises the best score when its score is
      at least as high. */
  lemma DiedOutStep(best: int, birds: seq<Bird>, i: nat)
    requires i < |birds|
    ensures DeadCount(birds[..i + 1]) == DeadCount(birds[..i]) + (if birds[i].alive then 0 else 1)
    ensures var b := BestScore(best, birds[..i]);
      BestScore(best, birds[..i + 1]) == if birds[i].score >= b then birds[i].score else b
  {
    assert birds[..i + 1][..i] == birds[..i];
  }

  /** The two fittest birds of a population of shaped networks have
      shaped networks, and every bird of the sorted copy is a bird of the
      population. */
  lemma HeadsShaped(birds: seq<Bird>, hiddenLayerSize: nat)
    requires |birds| >= 2 && forall k :: 0 <= k < |birds| ==> birds[k].network.Shaped(hiddenLayerSize)
    ensures var sorted := SortByFitness(birds);
      && |sorted| == |birds|
      && sorted[0].network.Shaped(hiddenLayerSize) && sorted[1].network.Shaped(hiddenLayerSize)
      && forall x :: x in sorted ==> x in birds
  {
    SortKeepsShape(birds, hiddenLayerSize);
    SortKeepsBirds(birds);
  }
}
