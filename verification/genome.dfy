/** The genome codec: a bird's policy network seen as two arrays of genes
    (one weight per connection, one bias per node, in the library's fixed
    iteration order), the flat chromosome read from them, and what writing
    a chromosome back with per-gene mutation does to it. */
module Genome {

  /** `architect.Perceptron(4, h, 1)`: 4 inputs, h hidden nodes and one
      output, fully connected layer to layer. */
  function ConnectionCount(hiddenLayerSize: nat): nat
  {
    4 * hiddenLayerSize + hiddenLayerSize
  }

  function NodeCount(hiddenLayerSize: nat): nat
  {
    4 + hiddenLayerSize + 1
  }

  function GeneCount(hiddenLayerSize: nat): nat
  {
    ConnectionCount(hiddenLayerSize) + NodeCount(hiddenLayerSize)
  }

  /** A draw `r` of `Math.random()` turned into a gene: `r * 2 - 1`. */
  function Scale(r: real): real
  {
    r * 2.0 - 1.0
  }

  predicate IsDraw(r: real)
  {
    0.0 <= r < 1.0
  }

  predicate AllDraws(rs: seq<real>)
  {
    forall k :: 0 <= k < |rs| ==> IsDraw(rs[k])
  }

  /** Genes made of fresh draws, as `setupNetwork` assigns them. */
  function Randomised(draws: seq<real>): (genes: seq<real>)
    requires AllDraws(draws)
    ensures |genes| == |draws|
    ensures forall k :: 0 <= k < |genes| ==> -1.0 <= genes[k] < 1.0
  {
    seq(|draws|, k requires 0 <= k < |draws| => Scale(draws[k]))
  }

  /** The weights and biases of one policy network. The arrays are the
      network's connections and nodes; their number never changes. */
  class Network {
    const weights: array<real>
    const biases: array<real>

    predicate Shaped(hiddenLayerSize: nat)
    {
      && weights != biases
      && weights.Length == ConnectionCount(hiddenLayerSize)
      && biases.Length == NodeCount(hiddenLayerSize)
    }

    /** `setupNetwork`: every weight, then every bias, gets `r * 2 - 1`
        for its own draw `r`. */
    constructor (hiddenLayerSize: nat, draws: seq<real>)
      requires |draws| >= GeneCount(hiddenLayerSize)
      requires AllDraws(draws)
      ensures Shaped(hiddenLayerSize)
      ensures fresh(weights) && fresh(biases)
      ensures ExtractChromosome(this) == Randomised(draws[..GeneCount(hiddenLayerSize)])
    {
      var nw := ConnectionCount(hiddenLayerSize);
      var n := GeneCount(hiddenLayerSize);
      var w := RandomGenes(draws, 0, nw);
      var b := RandomGenes(draws, nw, n);
      weights, biases := w, b;
      new;
      RandomisedSplit(draws[..n], nw);
      assert draws[..n][..nw] == draws[0..nw];
      assert draws[..n][nw..] == draws[nw..n];
    }
  }

  /** One loop of `setupNetwork`: a fresh array holding a gene for each
      draw from position `lo` up to `hi`. */
  method RandomGenes(draws: seq<real>, lo: nat, hi: nat) returns (genes: array<real>)
    requires lo <= hi <= |draws| && AllDraws(draws)
    ensures fresh(genes)
    ensures genes[..] == Randomised(draws[lo..hi])
  {
    genes := new real[hi - lo];
    for i := 0 to hi - lo
      invariant forall k :: 0 <= k < i ==> genes[k] == Scale(draws[lo + k])
    {
      genes[i] := Scale(draws[lo + i]);
    }
  }

  /** Fresh genes for a run of draws are the genes for its two parts. */
  lemma RandomisedSplit(draws: seq<real>, n: nat)
    requires n <= |draws| && AllDraws(draws)
    ensures Randomised(draws) == Randomised(draws[..n]) + Randomised(draws[n..])
  {
    var whole, front, back := Randomised(draws), Randomised(draws[..n]), Randomised(draws[n..]);
    forall k | 0 <= k < |draws| ensures whole[k] == (front + back)[k] {
      if k >= n {
        assert back[k - n] == Scale(draws[k]);
      }
    }
  }

  /** `extractChromosome`: all connection weights in order, then all node
      biases in order. */
  function ExtractChromosome(net: Network): (c: seq<real>)
    reads net.weights, net.biases
  {
    net.weights[..] + net.biases[..]
  }

  /** The layout of a chromosome: one gene per weight and per bias; gene k
      below the connection count is weight k, and the gene after the
      weights at offset j is bias j. */
  lemma ExtractChromosomeLayout(net: Network, hiddenLayerSize: nat)
    requires net.Shaped(hiddenLayerSize)
    ensures var c := ExtractChromosome(net);
      && |c| == GeneCount(hiddenLayerSize)
      && (forall k :: 0 <= k < ConnectionCount(hiddenLayerSize) ==> c[k] == net.weights[k])
      && (forall j :: 0 <= j < NodeCount(hiddenLayerSize) ==> c[ConnectionCount(hiddenLayerSize) + j] == net.biases[j])
  {
  }

  /** A JavaScript array of genes that its consumer empties from the front
      with `shift()`. */
  class GeneList {
    var items: seq<real>

    constructor (items: seq<real>)
      ensures this.items == items
    {
      this.items := items;
    }
  }

  /** JavaScript's `undefined`, which `shift()` returns from an empty
      array. Genes are reals in this model, so `undefined` is written as a
      real that no drawn gene takes: every drawn gene lies in [-1, 1). */
  const Undefined: real := 2.0

  /** The values that `n` calls of `shift()` return from an array holding
      `items`: its entries in order, then `undefined` once it is empty. */
  function Shifted(items: seq<real>, n: nat): (r: seq<real>)
    ensures |r| == n
    ensures n <= |items| ==> r == items[..n]
    ensures forall k :: |items| <= k < n ==> r[k] == Undefined
  {
    seq(n, k requires 0 <= k < n => if k < |items| then items[k] else Undefined)
  }

  /** What is left of an array holding `items` after `n` calls of
      `shift()`. */
  function Remaining(items: seq<real>, n: nat): seq<real>
  {
    if n <= |items| then items[n..] else []
  }

  /** Shifting `nw` values and then `nb` more from what is left is
      shifting `nw + nb` values: the weights loop and the biases loop of
      `setChromosome` consume one array between them. */
  lemma ShiftedInTwo(items: seq<real>, nw: nat, nb: nat)
    ensures Shifted(items, nw + nb)[..nw] == Shifted(items, nw)
    ensures Shifted(items, nw + nb)[nw..] == Shifted(Remaining(items, nw), nb)
    ensures Remaining(Remaining(items, nw), nb) == Remaining(items, nw + nb)
  {
    var whole, back := Shifted(items, nw + nb), Shifted(Remaining(items, nw), nb);
    forall k | 0 <= k < nb ensures whole[nw + k] == back[k] {
      if nw <= |items| {
        assert Remaining(items, nw) == items[nw..];
      }
    }
    assert whole[nw..] == back;
  }

  /** One `shift()` from what is left after `i` of them: the value is the
      array's entry `i` (or `undefined`) and what is left after `i + 1`. */
  lemma RemainingStep(items: seq<real>, i: nat, left: seq<real>, value: real, rest: seq<real>)
    requires left == Remaining(items, i)
    requires value == (if |left| > 0 then left[0] else Undefined)
    requires rest == (if |left| > 0 then left[1..] else left)
    ensures value == (if i < |items| then items[i] else Undefined)
    ensures rest == Remaining(items, i + 1)
  {
  }

  /** One gene written back: the copied gene, replaced by `value * 2 - 1`
      when its draw `roll` is below the mutation chance. */
  function MutateGene(gene: real, roll: real, value: real, chance: real): real
  {
    if roll < chance then Scale(value) else gene
  }

  /** What `setChromosome` leaves in the network's gene slots: gene k
      mutated with draws `rolls[k]` and `values[k]`. */
  function Injected(genes: seq<real>, rolls: seq<real>, values: seq<real>, chance: real): (r: seq<real>)
    requires |rolls| >= |genes| && |values| >= |genes|
    ensures |r| == |genes|
  {
    seq(|genes|, k requires 0 <= k < |genes| => MutateGene(genes[k], rolls[k], values[k], chance))
  }

  /** How many of the draws fall below the chance: the number of genes
      replaced, which `setChromosome` adds to the renderer's `mutated`. */
  function MutationCount(rolls: seq<real>, chance: real): nat
  {
    if rolls == [] then 0
    else MutationCount(rolls[..|rolls| - 1], chance) + (if rolls[|rolls| - 1] < chance then 1 else 0)
  }

  /** A gene is either kept exactly or replaced by a value in [-1, 1). */
  lemma InjectedGenes(genes: seq<real>, rolls: seq<real>, values: seq<real>, chance: real, k: nat)
    requires |rolls| >= |genes| && |values| >= |genes|
    requires AllDraws(values)
    requires k < |genes|
    ensures rolls[k] >= chance ==> Injected(genes, rolls, values, chance)[k] == genes[k]
    ensures rolls[k] < chance ==> -1.0 <= Injected(genes, rolls, values, chance)[k] < 1.0
  {
  }

  /** With mutation chance 0, writing a chromosome back copies it exactly
      (every draw of `Math.random()` is at least 0). */
  lemma {:induction false} InjectedWithoutMutation(genes: seq<real>, rolls: seq<real>, values: seq<real>)
    requires |rolls| >= |genes| && |values| >= |genes|
    requires AllDraws(rolls)
    ensures Injected(genes, rolls, values, 0.0) == genes
  {
    var r := Injected(genes, rolls, values, 0.0);
    forall k | 0 <= k < |genes| ensures r[k] == genes[k] {
      assert IsDraw(rolls[k]);
    }
  }

  /** With a chance above every draw, every gene is replaced. */
  lemma InjectedWithCertainMutation(genes: seq<real>, rolls: seq<real>, values: seq<real>, chance: real)
    requires |rolls| >= |genes| && |values| >= |genes|
    requires AllDraws(rolls) && AllDraws(values) && chance >= 1.0
    ensures Injected(genes, rolls, values, chance) == Randomised(values[..|genes|])
  {
    var r := Injected(genes, rolls, values, chance);
    forall k | 0 <= k < |genes| ensures r[k] == Scale(values[k]) {
      assert IsDraw(rolls[k]);
    }
  }

  lemma {:induction false} MutationCountBounds(rolls: seq<real>, chance: real)
    ensures MutationCount(rolls, chance) <= |rolls|
    ensures MutationCount(rolls, chance) == 0 <==> forall k :: 0 <= k < |rolls| ==> rolls[k] >= chance
    ensures MutationCount(rolls, chance) == |rolls| <==> forall k :: 0 <= k < |rolls| ==> rolls[k] < chance
  {
    if rolls != [] {
      var init := rolls[..|rolls| - 1];
      MutationCountBounds(init, chance);
      assert forall k :: 0 <= k < |init| ==> init[k] == rolls[k];
    }
  }

  /** No draw is below a chance of 0, so nothing is counted as mutated. */
  lemma MutationCountWithoutMutation(rolls: seq<real>)
    requires AllDraws(rolls)
    ensures MutationCount(rolls, 0.0) == 0
  {
    MutationCountBounds(rolls, 0.0);
  }

  /** Writing back the first n genes and then the rest is writing back the
      whole chromosome: the weights loop and the biases loop together. */
  lemma {:induction false} InjectedSplit(genes: seq<real>, rolls: seq<real>, values: seq<real>, chance: real, n: nat)
    requires n <= |genes| && |rolls| >= |genes| && |values| >= |genes|
    ensures Injected(genes, rolls, values, chance)
         == Injected(genes[..n], rolls, values, chance) + Injected(genes[n..], rolls[n..], values[n..], chance)
  {
    var whole := Injected(genes, rolls, values, chance);
    var front := Injected(genes[..n], rolls, values, chance);
    var back := Injected(genes[n..], rolls[n..], values[n..], chance);
    forall k | 0 <= k < |genes| ensures whole[k] == (front + back)[k] {
      if k >= n {
        assert back[k - n] == MutateGene(genes[k], rolls[k], values[k], chance);
      }
    }
  }

  /** The mutation count of a run of draws is the sum of the counts of its
      two parts. */
  lemma {:induction false} MutationCountSplit(rolls: seq<real>, chance: real, n: nat)
    requires n <= |rolls|
    ensures MutationCount(rolls, chance) == MutationCount(rolls[..n], chance) + MutationCount(rolls[n..], chance)
    decreases |rolls|
  {
    if n == |rolls| {
      assert rolls[..n] == rolls;
      assert rolls[n..] == [];
    } else {
      var init := rolls[..|rolls| - 1];
      MutationCountSplit(init, chance, n);
      assert init[..n] == rolls[..n];
      assert rolls[n..][..|rolls[n..]| - 1] == init[n..];
    }
  }

  /** The two loops of `setChromosome` together: the weights take the first
      `nw` shifted genes and draws, the biases the `nb` genes shifted from
      what is left and the next `nb` draws; between them they write back
      what one pass over `nw + nb` shifted genes writes. */
  lemma InjectedInTwo(items: seq<real>, rolls: seq<real>, values: seq<real>, chance: real, nw: nat, nb: nat)
    requires |rolls| >= nw + nb && |values| >= nw + nb
    ensures Injected(Shifted(items, nw), rolls[0..], values[0..], chance)
          + Injected(Shifted(Remaining(items, nw), nb), rolls[nw..], values[nw..], chance)
         == Injected(Shifted(items, nw + nb), rolls, values, chance)
  {
    var whole := Shifted(items, nw + nb);
    ShiftedInTwo(items, nw, nb);
    InjectedSplit(whole, rolls, values, chance, nw);
    assert rolls[0..] == rolls && values[0..] == values;
  }

  /** The mutation counts of the two loops add up to the count of the
      first `nw + nb` draws. */
  lemma MutationCountInTwo(rolls: seq<real>, chance: real, nw: nat, nb: nat)
    requires |rolls| >= nw + nb
    ensures MutationCount(rolls[0..nw], chance) + MutationCount(rolls[nw..nw + nb], chance)
         == MutationCount(rolls[..nw + nb], chance)
  {
    var n := nw + nb;
    MutationCountSplit(rolls[..n], chance, nw);
    assert rolls[..n][..nw] == rolls[0..nw];
    assert rolls[..n][nw..] == rolls[nw..n];
  }

  /** The number of the `n` draws from position `offset` on that fall
      below the chance, counted draw by draw as the loop of
      `setChromosome` counts them. */
  function MutationsFrom(rolls: seq<real>, offset: nat, n: nat, chance: real): nat
    requires offset + n <= |rolls|
  {
    if n == 0 then 0
    else MutationsFrom(rolls, offset, n - 1, chance) + (if rolls[offset + n - 1] < chance then 1 else 0)
  }

  /** Counting draw by draw gives the count of the slice of those draws. */
  lemma {:induction false} MutationsFromIsCount(rolls: seq<real>, offset: nat, n: nat, chance: real)
    requires offset + n <= |rolls|
    ensures MutationsFrom(rolls, offset, n, chance) == MutationCount(rolls[offset..offset + n], chance)
  {
    if n > 0 {
      MutationsFromIsCount(rolls, offset, n - 1, chance);
      assert rolls[offset..offset + n][..n - 1] == rolls[offset..offset + n - 1];
    }
  }

  /** Slot by slot agreement with the written-back genes is agreement
      with the whole written-back chromosome. */
  lemma InjectedPointwise(written: seq<real>, genes: seq<real>, rolls: seq<real>, values: seq<real>, offset: nat, chance: real)
    requires |written| == |genes| && |rolls| >= offset + |genes| && |values| >= offset + |genes|
    requires forall k :: 0 <= k < |genes| ==> written[k] == MutateGene(genes[k], rolls[offset + k], values[offset + k], chance)
    ensures written == Injected(genes, rolls[offset..], values[offset..], chance)
  {
  }

  /** One pass of the loop of `setChromosome`: slot i takes the value
      shifted off the front of the list (`undefined` once it is empty),
      replaced by a fresh value when the draw is below the chance. */
  method InjectOne(slots: array<real>, list: GeneList, i: nat, roll: real, value: real, chance: real)
    returns (replaced: bool)
    requires i < slots.Length
    modifies slots, list
    ensures slots[i] == MutateGene(if |old(list.items)| > 0 then old(list.items)[0] else Undefined, roll, value, chance)
    ensures forall k :: 0 <= k < slots.Length && k != i ==> slots[k] == old(slots[k])
    ensures list.items == if |old(list.items)| > 0 then old(list.items)[1..] else old(list.items)
    ensures replaced <==> roll < chance
  {
    var gene := Undefined;
    if |list.items| > 0 {
      gene := list.items[0];
      list.items := list.items[1..];
    }
    slots[i] := gene;
    replaced := false;
    if roll < chance {
      slots[i] := Scale(value);
      replaced := true;
    }
  }

  /** The loop of `setChromosome` over one array: each slot in turn takes
      the value shifted off the front of the list (`undefined` once it is
      empty), replaced by a fresh value when its draw (taken from position
      `offset` on) is below the chance; `count` is the number of
      replacements. */
  method Inject(slots: array<real>, list: GeneList, rolls: seq<real>, values: seq<real>, offset: nat, chance: real)
    returns (count: nat)
    requires |rolls| >= offset + slots.Length && |values| >= offset + slots.Length
    modifies slots, list
    ensures slots[..] == Injected(Shifted(old(list.items), slots.Length), rolls[offset..], values[offset..], chance)
    ensures list.items == Remaining(old(list.items), slots.Length)
    ensures count == MutationCount(rolls[offset..offset + slots.Length], chance)
  {
    ghost var genes := list.items;
    ghost var shifted := Shifted(genes, slots.Length);
    count := 0;
    var i := 0;
    while i < slots.Length
      invariant 0 <= i <= slots.Length
      invariant list.items == Remaining(genes, i)
      invariant forall k :: 0 <= k < i ==> slots[k] == MutateGene(shifted[k], rolls[offset + k], values[offset + k], chance)
      invariant count == MutationsFrom(rolls, offset, i, chance)
    {
      ghost var left := list.items;
      var replaced := InjectOne(slots, list, i, rolls[offset + i], values[offset + i], chance);
      RemainingStep(genes, i, left, if |left| > 0 then left[0] else Undefined, list.items);
      if replaced {
        count := count + 1;
      }
      i := i + 1;
    }
    MutationsFromIsCount(rolls, offset, slots.Length, chance);
    InjectedPointwise(slots[..], shifted, rolls, values, offset, chance);
  }

  /** The bias mutation chance that the older `setDNA` uses whatever chance
      it is given. */
  const LegacyBiasMutationChance: real := 0.05

  /** What `setDNA` leaves in the gene slots: the weights mutated with the
      given chance, the biases with the fixed chance 0.05. */
  function InjectedDna(genes: seq<real>, rolls: seq<real>, values: seq<real>, chance: real, weightCount: nat): (r: seq<real>)
    requires weightCount <= |genes|
    requires |rolls| >= |genes| && |values| >= |genes|
    ensures |r| == |genes|
  {
    Injected(genes[..weightCount], rolls, values, chance)
    + Injected(genes[weightCount..], rolls[weightCount..], values[weightCount..], LegacyBiasMutationChance)
  }

  /** With mutation chance 0, `setDNA` copies every weight exactly. */
  lemma DnaWithoutMutationKeepsWeights(genes: seq<real>, rolls: seq<real>, values: seq<real>, weightCount: nat)
    requires weightCount <= |genes|
    requires |rolls| >= |genes| && |values| >= |genes|
    requires AllDraws(rolls)
    ensures InjectedDna(genes, rolls, values, 0.0, weightCount)[..weightCount] == genes[..weightCount]
  {
    InjectedWithoutMutation(genes[..weightCount], rolls, values);
  }

  /** The biases follow the fixed chance 0.05 whatever chance is given:
      bias j is replaced by its fresh value exactly when its draw is below
      0.05, and copied otherwise. */
  lemma DnaBiasesUseFixedChance(genes: seq<real>, rolls: seq<real>, values: seq<real>, chance: real, weightCount: nat, j: nat)
    requires weightCount <= j < |genes|
    requires |rolls| >= |genes| && |values| >= |genes|
    ensures rolls[j] < LegacyBiasMutationChance ==> InjectedDna(genes, rolls, values, chance, weightCount)[j] == Scale(values[j])
    ensures rolls[j] >= LegacyBiasMutationChance ==> InjectedDna(genes, rolls, values, chance, weightCount)[j] == genes[j]
  {
    var biases := Injected(genes[weightCount..], rolls[weightCount..], values[weightCount..], LegacyBiasMutationChance);
    assert InjectedDna(genes, rolls, values, chance, weightCount)[j] == biases[j - weightCount];
  }
}
