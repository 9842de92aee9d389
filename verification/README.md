# Flappy-bird neuro-evolution engine, modelled in Dafny

The system trains a population of flappy birds with a genetic algorithm.
Each bird flies under a small perceptron (4 inputs, `h` hidden nodes,
1 output). Its genome is the flat list of the network's connection weights
followed by its node biases. Every frame a live bird moves, collects
fitness, may pass or hit the front wall pair, and dies when it leaves the
view or hits a pipe. Once every bird is dead, the generation controller
breeds the next population from the fittest birds. It does this by
selection, crossover (uniform, one-point, two-point) and per-gene
mutation.

The repository holds three revisions of the controller and two of the bird:

- the current TypeScript controller `src/Generation.ts`, with elites, a
  breeding pool, and offspring and random slots, and the current bird
  `src/objects/Bird.ts`;
- the compiled controller `dist/Generation.js`, which breeds every new bird
  from the two elites behind a 0.98 keep gate and puts the elites' networks
  into the last two birds;
- the older controller `src/Generation.js`, which mutates with 0.1 while
  the best score is below 2, flies each new bird one tick, and puts the
  elites' networks into the first two birds;
- the older bird `src/objects/Bird.js` (`setDNA`, no time scale, gravity
  0.5) and `dist/objects/Bird.js`, which is the current bird compiled line
  for line.

Modules (one `.dfy` file each):

- `Arena` (`arena.dfy`): the renderer state that birds and controllers
  share: the queue of wall pairs, `birdsAlive`, `pipesCount`, `mutated`
  and the view size. It also holds the rectangle hit test.
- `Genome` (`genome.dfy`): the network as two arrays (weights, biases),
  `extractChromosome`, the `shift()`-consumed gene list, and what
  `setChromosome`/`setDNA` leave in the arrays.
- `Crossover` (`crossover.dfy`): the current and the older crossover
  operators as pure functions of the parents and the draws.
- `Birds` (`birds.dfy`): the `Bird` class with `update`, `die`,
  `isCollision`, `jump`, `render`, `setChromosome` and the older `update`,
  `die` and `setDNA`.
- `Selection` (`selection.dfy`): the fitness sort, `selectParents`,
  `calculatePopulationDistribution`, `breedRandomParents` and alive counts.
- `Evolution` (`evolution.dfy`): the class of `src/Generation.ts`.
- `OlderRules` (`older_rules.dfy`): what the two older controllers share
  (draws per new bird, the `hasDiedOut` dead count and best score).
- `DistEvolution` (`dist_generation.dfy`): the class of `dist/Generation.js`.
- `LegacyEvolution` (`legacy_generation.dfy`): the class of
  `src/Generation.js`.

How the environment is modelled:

- Every `Math.random()` draw is a parameter in [0, 1). The draws of one new
  bird are bundled in `SlotDraws` (current controller) or `BirdDraws`
  (older controllers).
- The network's flap decision (`Math.round(network.activate(input)) === 1`)
  is a boolean parameter, and the renderer's `getDistance` is a real
  parameter, except for the first tick of a new bird of the older
  controller, where no wall is on screen and it answers 1
  (src/Renderer.js:71-80).
- JavaScript's `undefined`, which `shift()` returns on an empty array, is
  the real constant `Genome.Undefined` (2.0), a value no drawn gene takes
  (drawn genes lie in [-1, 1)).
- The new wall pair that `createWalls`/`createWallsPair` spawns is a
  parameter `firstPair`.
- Positions, velocities and fitness are `real`. `Math.floor(size * 0.02)`
  and `Math.floor(size * 0.05)` are integer divisions `size * 2 / 100` and
  `size * 5 / 100`.
- `Perceptron(4, h, 1)` is taken to have `5h` connections and `h + 5` nodes.

## Model

| member | source | states |
|---|---|---|
| Arena.HitTestIsOverlap | src/objects/Bird.ts:154-178 | `hitTestRectangle` is true exactly when the open horizontal extents and the open vertical extents of the two boxes overlap |
| Arena.HitTestSymmetric | dist/objects/Bird.js:123-134 | the hit test gives the same answer with its two boxes swapped |
| Arena.TouchingIsNoHit | src/objects/Bird.js:127-138 | boxes whose centres are exactly the half-widths apart horizontally, or exactly the half-heights apart vertically, touch along an edge and do not collide (the comparisons are strict) |
| Genome.Randomised | src/objects/Bird.ts:180-189 | genes drawn by `setupNetwork` are one per draw and all lie in [-1, 1) |
| Genome.Network.constructor | src/objects/Bird.ts:180-189 | a new network has the Perceptron(4, h, 1) shape, and its chromosome is `r * 2 - 1` for the first `GeneCount(h)` draws, weights first |
| Genome.RandomGenes | src/objects/Bird.ts:182-188 | one `setupNetwork` loop fills a fresh array with the scaled draws of its range |
| Genome.RandomisedSplit | src/objects/Bird.ts:182-188 | the genes of a run of draws are the genes of its two parts, so the weights loop and the biases loop together give the whole chromosome |
| Genome.ExtractChromosomeLayout | src/Generation.ts:124-135 | the chromosome has one gene per connection and per node; gene k < 5h is weight k, and gene 5h + j is bias j |
| Genome.Injected | src/objects/Bird.ts:102-120 | what `setChromosome` writes back has as many genes as it consumed |
| Genome.InjectedGenes | src/objects/Bird.ts:105-107 | a gene whose draw is at least the chance is kept exactly; one whose draw is below it becomes a value in [-1, 1) |
| Genome.InjectedWithoutMutation | src/objects/Bird.ts:102-120 | with mutation chance 0, writing a chromosome back copies it exactly |
| Genome.InjectedWithCertainMutation | src/objects/Bird.ts:114-118 | with a chance of 1 or more every gene is replaced by its fresh value |
| Genome.MutationCountBounds | src/objects/Bird.ts:105-109 | the replaced-gene count is at most the number of genes, is 0 exactly when no draw is below the chance, and is all of them exactly when every draw is |
| Genome.MutationCountWithoutMutation | src/objects/Bird.ts:114-118 | with chance 0 no gene is counted as mutated |
| Genome.InjectedSplit | src/objects/Bird.ts:103-119 | writing back the first n genes and then the rest is writing back the whole chromosome |
| Genome.MutationsFromIsCount | src/objects/Bird.ts:108 | counting the replaced genes one draw at a time, as the loop does, gives the count over the slice of those draws |
| Genome.MutationCountSplit | src/objects/Bird.ts:108 | the count over a run of draws is the sum of the counts over its two parts |
| Genome.InjectedInTwo | src/objects/Bird.ts:102-120 | the weights loop (the first `nw` shifted genes) and the biases loop (the next `nb` genes shifted from what is left) together write back what one pass over `nw + nb` shifted genes writes |
| Genome.MutationCountInTwo | src/objects/Bird.ts:102-120 | the mutation counts of the weights loop and of the biases loop add up to the count over the first `nw + nb` draws |
| Genome.Shifted | dist/objects/Bird.js:81 | `Length` calls of `shift()` on a list yield its first `Length` entries when it has that many, and `undefined` for every call after it ran out |
| Genome.ShiftedInTwo | src/objects/Bird.ts:103-113 | shifting `nw` genes for the weights and then `nb` for the biases yields the same genes, and leaves the same list, as shifting `nw + nb` at once |
| Genome.InjectOne | dist/objects/Bird.js:81-86 | one pass: slot i takes the value shifted off the front (`undefined` for an empty list), replaced by `value * 2 - 1` exactly when the draw is below the chance, the list loses its first entry, and no other slot changes |
| Genome.Inject | dist/objects/Bird.js:80-87 | one loop over an array: slot i takes the gene shifted off the front, or `undefined` once the list is empty (mutated when its draw is below the chance), the list loses its first `Length` entries (all of them when it is shorter), and `count` is the number of replacements |
| Genome.InjectedDna | src/objects/Bird.js:85-100 | `setDNA` writes back as many genes as it consumed: weights with the given chance, biases with 0.05 |
| Genome.DnaWithoutMutationKeepsWeights | src/objects/Bird.js:86-92 | with chance 0, `setDNA` copies every weight exactly |
| Genome.DnaBiasesUseFixedChance | src/objects/Bird.js:93-99 | whatever chance is given, bias j becomes its fresh value exactly when its draw is below 0.05 and is copied otherwise |
| Crossover.FloorScaled | src/Generation.ts:106-107 | `Math.floor(r * n)` is an index below n for a non-empty array, and 0 for an empty one |
| Crossover.RoundScaled | dist/Generation.js:134 | `Math.round(r * length)` is a point in [0, length] |
| Crossover.UniformCrossOver | src/Generation.ts:193-196 | the child is as long as A, and gene i is A's or B's gene i |
| Crossover.OnePointAt | src/Generation.ts:208-213 | the child is A's genes before the cut and B's from the cut on |
| Crossover.TwoPointAt | src/Generation.ts:233-235 | between ordered cuts the child is A before p1, B in [p1, p2) and A from p2 on |
| Crossover.OrderedCuts | src/Generation.ts:226-231 | the two drawn cuts are swapped into order, both at most the length (below it for a non-empty parent), and they are the two drawn values |
| Crossover.CrossOver | src/Generation.ts:180-191 | every method gives a child as long as A whose gene i is A's or B's; an unrecognised method gives A itself |
| Crossover.LegacyOnePointAt | dist/Generation.js:133-137 | the older one-point child is as long as A |
| Crossover.LegacyCrossOver | dist/Generation.js:125-140 | uniform and one-point give a child as long as A whose genes come from A or B at the same position; any other method gives an empty child |
| Crossover.OnePointEnds | src/Generation.ts:208-213 | cut 0 clones B and cut \|A\| clones A |
| Crossover.OnePointIsTwoPointToEnd | src/Generation.ts:208-235 | one-point at p is two-point from p to the end |
| Crossover.TwoPointEqualCutsClone | src/Generation.ts:225-235 | equal cuts clone A |
| Crossover.TwoPointDrawOrderIrrelevant | src/Generation.ts:229-231 | swapping the two draws gives the same child |
| Crossover.TwoPointGene | src/Generation.ts:233-235 | gene i of a two-point child is B's exactly when p1 <= i < p2, and A's otherwise |
| Crossover.LegacyOnePointMirrorsOnePoint | dist/Generation.js:133-137 | the older one-point rule is the current one with the parents swapped and the cut one place further: B up to and including the point, A after it |
| Crossover.LegacyOnePointStartsWithB | src/Generation.js:130-135 | the older one-point child always starts with B's first gene |
| Crossover.CrossOverOfClones | src/Generation.js:122-137 | crossing a chromosome with itself gives it back under every current method; the older rule sets give it back for uniform and one-point and give an empty child otherwise |
| Crossover.OnePointSplice | src/Generation.ts:207-213 | the one-point child is A's genes before `floor(r * length)` and B's from there, so a non-empty child always ends with B's last gene |
| Birds.Clamp | dist/objects/Bird.js:49-54 | the clamped velocity lies in [-10, 10], is unchanged inside it, and is the bound it crossed outside it |
| Birds.Bird.constructor | src/Renderer.ts:80-81 | `createBird` places the bird at a tenth of the width and 60 above the middle, a twenty-first of the height high and 1.3 times as wide, alive with no fitness or score and a fresh random network |
| Birds.Bird.Legacy | src/objects/Bird.js:15-40 | the older bird is placed the same way with a fixed height of 35 |
| Birds.Bird.Jump | src/objects/Bird.ts:122-124 | the jump subtracts the impulse from the acceleration |
| Birds.Bird.Render | src/objects/Bird.ts:87-91 | the sprite moves to the bird's position |
| Birds.Bird.Die | src/objects/Bird.ts:93-100 | the bird is dead, fitness rises by `1 / distance`, and `birdsAlive` drops by exactly 1 whether or not the bird was alive |
| Birds.Bird.LegacyDie | src/objects/Bird.js:78-84 | the older `die` kills the bird and adds `1 / distance` without touching an alive counter |
| Birds.Bird.IsCollision | src/objects/Bird.ts:132-152 | false when there are no walls; otherwise a hit of the front top or bottom pipe; without a hit, a bird past the front top pipe gains a point, a pipe is counted and exactly the front pair leaves the queue, and otherwise nothing changes |
| Birds.Bird.Move | dist/objects/Bird.js:40-54 | one step: fitness +0.01, y moved by the old velocity times the time scale, acceleration reset to 0, and velocity the clamped sum of old velocity, old acceleration, jump and gravity |
| Birds.Bird.Update | src/objects/Bird.ts:54-85 | a dead bird returns false and nothing changes; a live one moves (jump `40 * delta`, gravity `0.8 * delta`), then dies with the extra -0.20 when out of the view, dies on a hit, or stays alive and scores a pass; `birdsAlive` drops exactly when the bird dies in this call |
| Birds.Bird.LegacyUpdate | src/objects/Bird.js:41-70 | the same step with jump 40, gravity 0.5 and no time scale, and `birdsAlive` never changes |
| Birds.Bird.SetChromosome | src/objects/Bird.ts:102-120 | the network holds the shifted genes (`undefined` past the end of a short array) mutated gene by gene, the caller's array loses its first weights-plus-biases entries (all of them when it is shorter), and `replaced` is the number of genes whose draw fell below the chance |
| Birds.Bird.SetDna | src/objects/Bird.js:85-100 | the network holds the shifted genes (`undefined` past the end of a short array) with the weights mutated at the given chance and the biases at 0.05, and the array loses its first weights-plus-biases entries (all of them when it is shorter) |
| Selection.Insert | src/Generation.ts:42 | inserting a bird adds exactly that bird to the multiset |
| Selection.InsertSorted | src/Generation.ts:42 | insertion keeps the non-increasing fitness order |
| Selection.SortByFitness | src/Generation.ts:42 | the sorted copy is a permutation of the population |
| Selection.SortByFitnessSorted | src/Generation.ts:42 | the sorted copy is in non-increasing fitness order, as the comparator `b.fitness - a.fitness` asks |
| Selection.SortKeepsShape | src/Generation.ts:42-43 | every bird of the sorted copy has a network of the configured shape |
| Selection.SortKeepsBirds | dist/Generation.js:67-69 | the sorted population holds only birds of the population, and none twice when the population holds none twice |
| Selection.Chromosomes | src/Generation.ts:63 | the pool's chromosomes are the extracted chromosomes of the pool's birds, in order |
| Selection.PoolSize | src/Generation.ts:61 | the pool size is at least 4 and, from 8 birds on, half the population rounded down |
| Selection.SelectParents | src/Generation.ts:55-66 | the elites are the first min(2, n) sorted birds, and the pool is the chromosomes of the first min(PoolSize, n) sorted birds in order |
| Selection.PrefixIsFittest | src/Generation.ts:59-62 | every bird left out of a prefix of the sorted copy is no fitter than any bird in it |
| Selection.ElitesAreFittest | src/Generation.ts:59 | the elites are birds of the population, no other bird is fitter than either, and the first elite is the fittest |
| Selection.FirstIsFittest | dist/Generation.js:67-69 | the head of the sorted population is at least as fit as every bird |
| Selection.PoolIsFittest | src/Generation.ts:61-63 | the pool comes from the fittest birds, and the elites' chromosomes head it |
| Selection.Distribution | src/Generation.ts:68-77 | elite, offspring and random counts sum to the size; elite is floor(2% of size) and random is floor(5% of size) |
| Selection.DefaultDistribution | src/Generation.ts:68-77 | the configured 100 birds split into 2 elites, 93 offspring and 5 random birds |
| Selection.DistributionOverrunsElites | src/Generation.ts:84-88 | from 150 birds on, the elite count exceeds the two elites `selectParents` returns |
| Selection.CappedDistribution | src/Generation.ts:68-77 | the corrected split still sums to the size, has at most min(2, size) elites, keeps the random count and gives the freed slots to offspring |
| Selection.CappedDistributionAgrees | src/Generation.ts:68-77 | below 150 birds the capped split is the original one |
| Selection.CappedDistributionFeasible | src/Generation.ts:84-96 | every elite slot has a selected elite, and offspring slots imply a non-empty pool |
| Selection.BreedRandomParents | src/Generation.ts:105-113 | the child is as long as the chromosomes, and gene g comes from one of the two parents picked as `floor(r * pool length)` |
| Selection.SingleParentClones | src/Generation.ts:105-113 | a pool of one chromosome breeds clones of it |
| Selection.AliveCountAfterOne | src/objects/Bird.ts:93-99 | when one bird changes, the alive count moves by exactly what its flag did |
| Selection.AliveCountBounds | src/Generation.ts:176-178 | the alive count is 0 exactly when no bird is alive, and the size exactly when all are |
| Evolution.NewChromosome | src/Generation.ts:84-102 | the chromosome of slot k has `GeneCount` genes: a pool chromosome for an elite slot, a mutated bred child for an offspring slot, the bird's own random genes for a random slot |
| Evolution.NewChromosomeGenes | src/Generation.ts:84-102 | an elite slot holds `pool[k]` exactly, and every gene of every slot is a pool gene at the same position or a value in [-1, 1) |
| Evolution.NoMutationsWithoutChance | src/Generation.ts:91-96 | with mutation chance 0 the offspring slots count no mutation |
| Evolution.EliteCopyIsExact | src/Generation.ts:86-87 | an elite chromosome written back with chance 0 is copied exactly and counts no mutation |
| Evolution.ParentsBreedable | src/Generation.ts:55-66 | what `selectParents` returns from a well-shaped population covers the capped split, and the elites' chromosomes head the pool |
| Evolution.Generation.constructor | src/Generation.ts:137-145 | the first wall pair, then `size` distinct fresh birds with random networks, at generation 1 |
| Evolution.Generation.Terminate | src/Generation.ts:159-174 | every old bird is dead with `1 / distance` added to its fitness, the walls are cleared, `birdsAlive` is the size and the list is empty |
| Evolution.Generation.SpawnElite | src/Generation.ts:84-89 | the elite bird holds `pool[k]` exactly and counts no mutation |
| Evolution.Generation.SpawnOffspring | src/Generation.ts:91-96 | the offspring bird holds its planned mutated child, and `replaced` counts its mutated genes |
| Evolution.Generation.SpawnRandom | src/Generation.ts:98-102 | the random bird keeps its own random network |
| Evolution.Generation.CreateNewPopulation | src/Generation.ts:79-103 | the list holds one fresh, distinct, alive bird per slot with that slot's chromosome, and `mutated` rises by exactly the offspring slots' mutations |
| Evolution.Generation.Hatchery | src/Generation.ts:84-102 | the three loops one after the other build the planned flock |
| Evolution.Generation.HatchedFlock | src/Generation.ts:79-103 | a freshly built flock is all shaped and all alive |
| Evolution.Generation.PushElites | src/Generation.ts:84-89 | the elite loop pushes one exact elite copy per elite slot and leaves `mutated` alone |
| Evolution.Generation.PushOffspring | src/Generation.ts:91-96 | the offspring loop appends one planned child per offspring slot and adds its mutations to `mutated` |
| Evolution.Generation.BreedOne | src/Generation.ts:92-95 | one offspring pass appends one fresh bird with its planned chromosome |
| Evolution.Generation.PushRandom | src/Generation.ts:98-102 | the random loop appends one random bird per random slot |
| Evolution.Generation.Retire | src/Generation.ts:40-45 | the parents are selected from the sorted copy before the population is terminated, the generation rises by 1, and every old bird ends dead with its fitness raised by one over its distance |
| Evolution.Generation.Bury | src/Generation.ts:45 | the population is terminated (every old bird dead, its fitness raised by one over its distance, the list and the walls empty, `birdsAlive` reset to the size) and the generation rises by 1 |
| Evolution.Generation.Repopulate | src/Generation.ts:47-48 | the new population of the capped split is built, `mutated` rises by exactly the offspring slots' mutations, and the old birds keep their state |
| Evolution.Generation.NextGeneration | src/Generation.ts:39-53 | with the corrected (capped) split of the Findings table: the generation rises by exactly 1, the list again holds `size` distinct fresh birds, all alive and counted alive, each with its slot's chromosome bred from the old population's fittest; every old bird ends dead with its fitness raised by one over its distance, and `mutated` rises by exactly the offspring slots' mutations |
| Evolution.Generation.Tick | src/objects/Bird.ts:54-85 | one frame of bird k keeps `birdsAlive` equal to the number of live birds |
| Evolution.Generation.DiedOutMeansAllDead | src/Generation.ts:176-178 | while `birdsAlive` counts the live birds, `hasDiedOut` is true exactly when no bird is alive |
| OlderRules.DeadCount | dist/Generation.js:113-117 | the dead count and the alive count add up to the population |
| OlderRules.DeadCountAllDead | dist/Generation.js:118 | the dead count equals the population exactly when every bird is dead |
| OlderRules.BestScore | dist/Generation.js:118 | the running best score never decreases, is at least every bird's score, and is the old value or some bird's score |
| OlderRules.DiedOutStep | dist/Generation.js:114-119 | one pass of the `hasDiedOut` loop adds a dead bird to the count and raises the best score to a score at least as high |
| OlderRules.HeadsShaped | dist/Generation.js:67-69 | the two heads of the sorted population have shaped networks and are birds of the population |
| DistEvolution.DistChild | dist/Generation.js:46-53 | each new bird's chromosome has `GeneCount` genes, whatever the breeding method |
| DistEvolution.DistChildGenes | dist/Generation.js:46-53 | with uniform or one-point breeding every gene is an elite's gene at the same position or a value in [-1, 1), and a kept child without mutation is exactly the elites' crossover; with any other method a kept child's gene is a value in [-1, 1) when its draw is below the chance and `undefined` otherwise |
| DistEvolution.KeptMutations | dist/Generation.js:49-51 | a bird counts at most one mutation per gene, and none when the 0.98 gate fails |
| DistEvolution.MutationsKeptBounds | dist/Generation.js:46-53 | a rebuild counts at most one mutation per gene of each new bird, and none with chance 0 |
| DistEvolution.Generation.constructor | dist/Generation.js:7-25 | `size` counted alive, the first wall pair, `size` distinct fresh random birds, best score 0, generation 1 |
| DistEvolution.Generation.GetBestChromosomes | dist/Generation.js:66-85 | the list is sorted in place, the elites are its first two birds, and the returned chromosomes are theirs |
| DistEvolution.Generation.KillPopulation | dist/Generation.js:98-111 | every old bird is dead with `1 / distance` added, walls and list are empty, and `birdsAlive` is the size |
| DistEvolution.Generation.Hatch | dist/Generation.js:47-52 | the new bird holds its planned chromosome (the mutated child, or its own genes when the gate fails), and `replaced` is its mutation count |
| DistEvolution.Generation.Retire | dist/Generation.js:39-45 | generation +1, no pipe counted, the elites are the two fittest birds, and every old bird ends dead |
| DistEvolution.Generation.Bury | dist/Generation.js:40-45 | the population killed (every old bird dead, its fitness raised by one over its distance), generation +1 and no pipe counted |
| DistEvolution.Generation.Brood | dist/Generation.js:46-53 | `size` fresh distinct birds, each with its planned chromosome, and `replaced` is the sum of their mutation counts |
| DistEvolution.Generation.BreedOne | dist/Generation.js:47-52 | one rebuild pass appends one fresh bird with its planned chromosome |
| DistEvolution.Generation.TakeOver | dist/Generation.js:55-60 | new bird `size - 2 + i` now flies with `elites[i]`'s own network, and every other bird keeps its network |
| DistEvolution.Generation.Repopulate | dist/Generation.js:46-64 | the first `size - 2` birds hold their planned children, the last two share the elites' networks, the shown counter is the old one plus the rebuild's mutations, then it is reset; all are counted alive and a wall pair is spawned |
| DistEvolution.Generation.Rebuild | dist/Generation.js:46-64 | the same new population as a local list |
| DistEvolution.Generation.Conclude | dist/Generation.js:54-60 | the last two birds take over the elites' networks, so they hold the elites' chromosomes, and the others keep theirs |
| DistEvolution.Generation.Announce | dist/Generation.js:61-64 | the counter shown is the old one plus the replaced genes, then reset to 0; `birdsAlive` is the size and one wall pair is spawned |
| DistEvolution.Generation.NextGeneration | dist/Generation.js:38-65 | for every breeding method: generation +1, `size` distinct fresh birds bred from the two fittest old birds, the last two flying with the elites' own networks, counters reset and one wall pair; every old bird ends dead |
| DistEvolution.Generation.Census | dist/Generation.js:113-119 | the loop counts exactly the dead birds and ends with the running best score |
| DistEvolution.Generation.HasDiedOut | dist/Generation.js:112-124 | true exactly when the dead count is the size; `bestScore` becomes the running best, which never decreases |
| LegacyEvolution.LegacyChild | src/Generation.js:44-46 | each new bird's chromosome has `GeneCount` genes, whatever the breeding method |
| LegacyEvolution.LegacyChildGenes | src/Generation.js:44-46 | with uniform or one-point breeding every gene is an elite's gene or a value in [-1, 1), and with chance 0 the weights are exactly the crossover's; with any other method a gene is a value in [-1, 1) when its draw is below its chance (the given one for weights, 0.05 for biases) and `undefined` otherwise |
| LegacyEvolution.FirstTickVelocity | src/objects/Bird.js:46-59 | a bird at rest has velocity 0.5 after its first tick without a flap, and the floor -10 after one with a flap (the jump impulse of 40 is clamped) |
| LegacyEvolution.FirstTickFitness | src/Generation.js:45 | a new bird's first tick gives it 0.01, or, when it spawns out of the view, 0.01 plus `1 / distance` minus 0.20 (the rebuild uses distance 1, what `getDistance` answers with no walls) |
| LegacyEvolution.StrictDiedOutStep | src/Generation.js:114-117 | the strict `>` update of the running best yields the running maximum of the scores, as the `>=` rule does |
| LegacyEvolution.Generation.constructor | src/Generation.js:83-91 | the first wall pair, `size` distinct fresh random birds, best score 0, generation 1 |
| LegacyEvolution.Generation.GetBestChromosomes | src/Generation.js:63-82 | the list is sorted in place, the elites are its first two birds, and the returned chromosomes are theirs |
| LegacyEvolution.Generation.KillPopulation | src/Generation.js:98-109 | every old bird is dead with `1 / distance` added, and walls and list are empty |
| LegacyEvolution.Generation.Retire | src/Generation.js:36-41 | generation +1, no pipe counted, the elites are the two fittest birds, and every old bird ends dead |
| LegacyEvolution.Generation.Bury | src/Generation.js:36-41 | the population killed (every old bird dead, its fitness raised by one over its distance), generation +1 and no pipe counted |
| LegacyEvolution.Generation.Hatch | src/Generation.js:43-46 | the new bird has flown its first tick among no walls (fitness 0.01, or 0.01 + 1 - 0.20 when it spawns out of the view; no acceleration, the first tick's velocity, still at the spawn height) and holds its planned `setDNA` chromosome, for every breeding method; the empty wall queue and the pipe count are unchanged |
| LegacyEvolution.Generation.BreedOne | src/Generation.js:43-47 | one rebuild pass appends one fresh bird with its planned chromosome |
| LegacyEvolution.Generation.Brood | src/Generation.js:42-48 | `size` fresh distinct birds, each after its first tick and with its planned chromosome |
| LegacyEvolution.Generation.TakeOver | src/Generation.js:49-53 | new bird `i` now flies with `elites[i]`'s own network, and every other bird keeps its network |
| LegacyEvolution.Generation.Conclude | src/Generation.js:49-53 | the first two birds take over the elites' networks and hold their chromosomes; the others keep their children |
| LegacyEvolution.Generation.Repopulate | src/Generation.js:42-53 | the new population uses the chance the best score calls for, the first two birds fly with the elites' networks, the rest hold their children |
| LegacyEvolution.Generation.NextGeneration | src/Generation.js:35-62 | for every breeding method: generation +1, `size` distinct fresh birds bred from the two fittest old birds, the first two flying with the elites' own networks; every old bird ends dead |
| LegacyEvolution.Generation.Census | src/Generation.js:111-117 | the loop counts exactly the dead birds and ends with the running best score |
| LegacyEvolution.Generation.HasDiedOut | src/Generation.js:110-121 | true exactly when the dead count is the size; `bestScore` becomes the running best, which never decreases |

## Left out

- Rendering (PIXI sprites, textures, filters, names, rotation), the info
  panels, the chart, logging in the crossovers, `markElites` and the elite
  texture swaps: they have no effect on the algorithm.
- Timers and key events (`setInterval` polling, `clearInterval`, keyup).
  The model calls `NextGeneration` directly; a double invocation is a
  scheduling concern.
- The neataptic Perceptron: the network is two arrays, and the decision to
  flap is a parameter. Its shape (5h connections, h + 5 nodes) is assumed.
- `getDistance`, `getInputData` and the view size are parameters of the
  model. `getDistance` returning 0 is excluded by `distance != 0`
  (Birds.Bird.Die, Update); JavaScript would give an infinite fitness.
- IEEE floating point: arithmetic is on `real`, and the floor of a
  percentage of the size is integer division.
- Wall movement and spawning: walls are a queue of rectangle pairs, and
  each new pair is the parameter `firstPair`.
- Renderer bookkeeping of the current controller: `renderer.generation`,
  `updateInfo` and `updateMutated` are display only. The call
  `this.renderer.nextGeneration()` (src/Generation.ts:52) names a method
  that src/Renderer.ts does not declare, so at run time it throws a
  TypeError as the last statement of every `nextGeneration`. Every state
  change of the generation happens before it, so the model's post-state
  is the state the source leaves; the exception itself is not modelled. `updateMutated` is
  the `shown` result of DistEvolution.Generation.Announce.
- Evolution.Generation.SpawnOffspring: with an unrecognised breeding
  method the source hands the pool's own array to `setChromosome`, whose
  `shift()` empties it for later picks. The model passes a copy
  (the method is typed by the `BreedingMethod` enum, so the `default`
  branch is reached only by a value outside it).
- Evolution.Generation.Retire: the generation counter rises after the
  parents are selected and the population terminated. The source raises
  it first; nothing in between reads it.
- DistEvolution.Generation.Retire and LegacyEvolution.Generation.Retire:
  `generation` and `pipesCount` are updated after the sort and the kill
  (the source does it first; nothing in between reads them). Retire
  states that every old bird ends dead, but not the fitness each one
  gains, which Bury states bird by bird: the population is sorted in
  place before the kill, so the old birds' positions are not kept.
- DistEvolution.Generation.NextGeneration and
  LegacyEvolution.Generation.NextGeneration: state that every old bird
  ends dead, not the fitness each one gains, for the reason given for
  Retire.
- DistEvolution.Generation.Hatch, Brood and BreedOne: the `mutated`
  increments of each `setChromosome` are returned as a count and added
  once by Announce, instead of one by one.
- DistEvolution.Generation.Repopulate and Rebuild: the counter is shown
  and reset, and `birdsAlive` and the walls updated, before the elite
  takeover. The source takes over first; the two touch disjoint state.
- DistEvolution.Generation.HasDiedOut and
  LegacyEvolution.Generation.HasDiedOut: `bestScore` is assigned once
  after the loop; the source assigns it on each pass to the same running
  value.
- LegacyEvolution.Generation.Hatch: the flap decision of each new bird's
  first `update()` is a parameter (`FirstTick`); its distance is 1, since
  the walls were cleared just before.
- Evolution.Generation.NextGeneration: states the corrected split of the
  Findings table (at most two elite slots). As written, from 150 birds on
  the source terminates the population, pushes two elite birds and then
  throws a TypeError reading `elites[2].network` (src/Generation.ts:86,
  127); the model does not follow that failing run, which
  Selection.DistributionOverrunsElites exhibits.
- Birds.Bird.SetChromosome: returns the number of replaced genes; its
  callers add it to the renderer's `mutated`.
- `initialize` of the current controller never sets `birdsAlive` (the
  renderer starts it at 0), so Evolution.Generation.constructor states
  nothing about it.

## Findings

| source | as written | input that shows it | evidently intended | confidence | as-written member | corrected member |
|---|---|---|---|---|---|---|
| src/Generation.ts:72,84-88 | `eliteCount = floor(size * 0.02)` elite slots, each copying `elites[i]`, while `selectParents` returns only 2 elites | `size = 150`: `eliteCount = 3`, so `elites[2]` is undefined and `extractChromosome` fails | at most as many elite slots as selected elites (2), the freed slots bred as offspring | not executed | Selection.DistributionOverrunsElites | Selection.CappedDistribution |
