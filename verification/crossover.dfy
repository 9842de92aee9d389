/** The crossover operators that breed one offspring chromosome from two
    parent chromosomes of equal length, in the current rule set (uniform,
    one-point, two-point) and in the older rule set (uniform and a mirrored
    one-point). Each `Math.random()` draw is a parameter in [0, 1). */
module Crossover {
  import opened Genome

  /** The breeding methods. `Unrecognised` stands for any other value the
      configuration could hold. */
  datatype BreedingMethod = Uniform | OnePoint | TwoPoint | Unrecognised(name: string)

  function Min(a: int, b: int): int
  {
    if a < b then a else b
  }

  lemma ScaledDraw(r: real, n: nat)
    requires IsDraw(r)
    ensures 0.0 <= r * n as real <= n as real
    ensures n > 0 ==> r * n as real < n as real
  {
    assert n as real - r * n as real == (1.0 - r) * n as real;
  }

  /** `Math.floor(r * n)` for a draw r: an index into a non-empty array of
      length n, and 0 for an empty one. */
  function FloorScaled(r: real, n: nat): (i: nat)
    requires IsDraw(r)
    ensures n > 0 ==> i < n
    ensures n == 0 ==> i == 0
  {
    var x := r * n as real;
    ScaledDraw(r, n);
    x.Floor
  }

  /** `Math.round(r * n)` for a draw r (JavaScript rounds halves up): a
      point in [0, n]. */
  function RoundScaled(r: real, n: nat): (i: nat)
    requires IsDraw(r)
    ensures i <= n
  {
    var x := r * n as real;
    ScaledDraw(r, n);
    (x + 0.5).Floor
  }

  /** The draws a crossover may consume: one per gene for uniform, the
      first one or two for the point methods. */
  predicate CrossDraws(draws: seq<real>, n: nat)
  {
    |draws| >= n && |draws| >= 2 && AllDraws(draws)
  }

  /** Uniform crossover: gene i comes from A when its draw exceeds 0.5 and
      from B otherwise. */
  function UniformCrossOver(a: seq<real>, b: seq<real>, draws: seq<real>): (r: seq<real>)
    requires |b| == |a| && |draws| >= |a|
    ensures |r| == |a|
    ensures forall i :: 0 <= i < |r| ==> r[i] == a[i] || r[i] == b[i]
  {
    seq(|a|, i requires 0 <= i < |a| => if draws[i] > 0.5 then a[i] else b[i])
  }

  /** One-point crossover at cut p: the prefix before p from A, the rest
      from B. */
  function OnePointAt(a: seq<real>, b: seq<real>, p: nat): (r: seq<real>)
    requires |b| == |a| && p <= |a|
    ensures |r| == |a|
    ensures r[..p] == a[..p] && r[p..] == b[p..]
  {
    var r := seq(|a|, i requires 0 <= i < |a| => if i < p then a[i] else b[i]);
    assert r[..p] == a[..p];
    assert r[p..] == b[p..];
    r
  }

  /** Two-point crossover between ordered cuts p1 <= p2: B inside
      [p1, p2), A outside. */
  function TwoPointAt(a: seq<real>, b: seq<real>, p1: nat, p2: nat): (r: seq<real>)
    requires |b| == |a| && p1 <= p2 <= |a|
    ensures |r| == |a|
    ensures r[..p1] == a[..p1] && r[p1..p2] == b[p1..p2] && r[p2..] == a[p2..]
  {
    var r := seq(|a|, i requires 0 <= i < |a| => if i < p1 || i >= p2 then a[i] else b[i]);
    assert r[..p1] == a[..p1];
    assert r[p1..p2] == b[p1..p2];
    assert r[p2..] == a[p2..];
    r
  }

  /** `onePointCrossOver`: the cut is `floor(r * length)`. */
  function OnePointCrossOver(a: seq<real>, b: seq<real>, r: real): seq<real>
    requires |b| == |a| && IsDraw(r)
  {
    OnePointAt(a, b, FloorScaled(r, |a|))
  }

  /** The two cuts of `twoPointCrossOver`, swapped when the first is the
      larger. */
  function OrderedCuts(r1: real, r2: real, n: nat): (cuts: (nat, nat))
    requires IsDraw(r1) && IsDraw(r2)
    ensures cuts.0 <= cuts.1 <= n
    ensures n > 0 ==> cuts.1 < n
    ensures {cuts.0, cuts.1} == {FloorScaled(r1, n), FloorScaled(r2, n)}
  {
    var p1 := FloorScaled(r1, n);
    var p2 := FloorScaled(r2, n);
    if p1 > p2 then (p2, p1) else (p1, p2)
  }

  function TwoPointCrossOver(a: seq<real>, b: seq<real>, r1: real, r2: real): seq<real>
    requires |b| == |a| && IsDraw(r1) && IsDraw(r2)
  {
    var cuts := OrderedCuts(r1, r2, |a|);
    TwoPointAt(a, b, cuts.0, cuts.1)
  }

  /** `crossOver` of the current rule set: dispatch on the breeding method;
      an unrecognised method returns A itself. */
  function CrossOver(a: seq<real>, b: seq<real>, breeding: BreedingMethod, draws: seq<real>): (r: seq<real>)
    requires |b| == |a| && CrossDraws(draws, |a|)
    ensures |r| == |a|
    ensures forall i :: 0 <= i < |r| ==> r[i] == a[i] || r[i] == b[i]
    ensures breeding.Unrecognised? ==> r == a
  {
    match breeding
    case Uniform => UniformCrossOver(a, b, draws)
    case OnePoint => OnePointCrossOver(a, b, draws[0])
    case TwoPoint => TwoPointCrossOver(a, b, draws[0], draws[1])
    case Unrecognised(_) => a
  }

  /** The older one-point rule: gene i comes from B when i <= point and
      from A after it. */
  function LegacyOnePointAt(a: seq<real>, b: seq<real>, point: nat): (r: seq<real>)
    requires |b| == |a| && point <= |a|
    ensures |r| == |a|
  {
    seq(|a|, i requires 0 <= i < |a| => if i > point then a[i] else b[i])
  }

  /** `crossOver` of the older rule sets: uniform as before, one-point at
      `round(r * length)` with the mirrored rule, and an empty offspring
      for any other method. */
  function LegacyCrossOver(a: seq<real>, b: seq<real>, breeding: BreedingMethod, draws: seq<real>): (r: seq<real>)
    requires |b| == |a| && CrossDraws(draws, |a|)
    ensures breeding.Uniform? || breeding.OnePoint? ==> |r| == |a|
    ensures |r| <= |a|
    ensures forall i :: 0 <= i < |r| ==> r[i] == a[i] || r[i] == b[i]
    ensures !(breeding.Uniform? || breeding.OnePoint?) ==> r == []
  {
    if breeding.Uniform? then UniformCrossOver(a, b, draws)
    else if breeding.OnePoint? then LegacyOnePointAt(a, b, RoundScaled(draws[0], |a|))
    else []
  }

  /** Cut 0 clones B; cut |A| clones A. */
  lemma OnePointEnds(a: seq<real>, b: seq<real>)
    requires |b| == |a|
    ensures OnePointAt(a, b, 0) == b
    ensures OnePointAt(a, b, |a|) == a
  {
    var r0 := OnePointAt(a, b, 0);
    assert r0 == r0[0..];
    var rn := OnePointAt(a, b, |a|);
    assert rn == rn[..|a|];
  }

  /** One-point crossover at p is two-point crossover from p to the end. */
  lemma OnePointIsTwoPointToEnd(a: seq<real>, b: seq<real>, p: nat)
    requires |b| == |a| && p <= |a|
    ensures OnePointAt(a, b, p) == TwoPointAt(a, b, p, |a|)
  {
    var r1 := OnePointAt(a, b, p);
    var r2 := TwoPointAt(a, b, p, |a|);
    forall i | 0 <= i < |a| ensures r1[i] == r2[i] {
      if i < p {
        assert r1[i] == r1[..p][i] && r2[i] == r2[..p][i];
      } else {
        assert r1[i] == r1[p..][i - p] && r2[i] == r2[p..|a|][i - p];
      }
    }
  }

  /** Equal cuts clone A. */
  lemma TwoPointEqualCutsClone(a: seq<real>, b: seq<real>, p: nat)
    requires |b| == |a| && p <= |a|
    ensures TwoPointAt(a, b, p, p) == a
  {
    var r := TwoPointAt(a, b, p, p);
    assert r == r[..p] + r[p..];
  }

  /** The order of the two draws does not matter: the cuts are swapped
      into order before they are used. */
  lemma TwoPointDrawOrderIrrelevant(a: seq<real>, b: seq<real>, r1: real, r2: real)
    requires |b| == |a| && IsDraw(r1) && IsDraw(r2)
    ensures TwoPointCrossOver(a, b, r1, r2) == TwoPointCrossOver(a, b, r2, r1)
  {
  }

  /** Gene i of a two-point offspring is B's exactly inside the ordered
      cuts, and A's everywhere else. */
  lemma TwoPointGene(a: seq<real>, b: seq<real>, r1: real, r2: real, i: nat)
    requires |b| == |a| && IsDraw(r1) && IsDraw(r2) && i < |a|
    ensures var cuts := OrderedCuts(r1, r2, |a|);
      TwoPointCrossOver(a, b, r1, r2)[i] == if cuts.0 <= i < cuts.1 then b[i] else a[i]
  {
    var cuts := OrderedCuts(r1, r2, |a|);
    var r := TwoPointAt(a, b, cuts.0, cuts.1);
    if i < cuts.0 {
      assert r[i] == r[..cuts.0][i];
    } else if i < cuts.1 {
      assert r[i] == r[cuts.0..cuts.1][i - cuts.0];
    } else {
      assert r[i] == r[cuts.1..][i - cuts.1];
    }
  }

  /** The older one-point rule is the current one with the parents swapped
      and the cut moved one place right: it takes B up to and including
      the point. */
  lemma LegacyOnePointMirrorsOnePoint(a: seq<real>, b: seq<real>, point: nat)
    requires |b| == |a| && point <= |a|
    ensures LegacyOnePointAt(a, b, point) == OnePointAt(b, a, Min(point + 1, |a|))
  {
    var p := Min(point + 1, |a|);
    var r1 := LegacyOnePointAt(a, b, point);
    var r2 := OnePointAt(b, a, p);
    forall i | 0 <= i < |a| ensures r1[i] == r2[i] {
      if i < p {
        assert r2[i] == r2[..p][i];
      } else {
        assert r2[i] == r2[p..][i - p];
      }
    }
  }

  /** So the older one-point offspring always starts with B's first gene
      and, unlike the current rule, never clones A. */
  lemma LegacyOnePointStartsWithB(a: seq<real>, b: seq<real>, r: real)
    requires |b| == |a| > 0 && IsDraw(r)
    ensures LegacyOnePointAt(a, b, RoundScaled(r, |a|))[0] == b[0]
  {
  }

  /** Crossing a chromosome with itself gives it back, whatever the method
      and the draws; the older rule set gives an empty chromosome for the
      methods it does not know. */
  lemma CrossOverOfClones(a: seq<real>, breeding: BreedingMethod, draws: seq<real>)
    requires CrossDraws(draws, |a|)
    ensures CrossOver(a, a, breeding, draws) == a
    ensures LegacyCrossOver(a, a, breeding, draws) == if breeding.Uniform? || breeding.OnePoint? then a else []
  {
    var r := CrossOver(a, a, breeding, draws);
    assert forall i :: 0 <= i < |a| ==> r[i] == a[i];
    var l := LegacyCrossOver(a, a, breeding, draws);
    assert forall i :: 0 <= i < |l| ==> l[i] == a[i];
  }

  /** The current one-point child is A's genes before the cut
      `floor(r * length)` followed by B's from it; since the cut lies below
      the length, a non-empty child always ends with B's last gene. */
  lemma OnePointSplice(a: seq<real>, b: seq<real>, r: real)
    requires |b| == |a| && IsDraw(r)
    ensures var p := FloorScaled(r, |a|);
      OnePointCrossOver(a, b, r) == a[..p] + b[p..]
    ensures |a| > 0 ==> OnePointCrossOver(a, b, r)[|a| - 1] == b[|a| - 1]
  {
    var p := FloorScaled(r, |a|);
    var c := OnePointCrossOver(a, b, r);
    assert c == c[..p] + c[p..];
    if |a| > 0 {
      assert c[|a| - 1] == c[p..][|a| - 1 - p];
    }
  }
}
