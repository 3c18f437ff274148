/**
  Arm-selection rules that read an environment's derived statistics and
  the step number t and return the next instrument to offer.

  The random draws of epsilon-greedy (a uniform u in [0, 1) and a random
  arm) are explicit inputs. The UCB exploration bonus, a square root of a
  logarithm in floating point, is an arbitrary function of (count, step)
  passed in by the caller.
 */
module Algorithms {
  import opened Vectors
  import opened Environment

  /** Default decay rate of the sls_decay exploration schedule. */
  const Alpha: real := 0.01

  /** The UCB exploration bonus as a function of an arm's count and the step number. */
  type Bonus = (nat, nat) -> real

  /** The UCB index of every arm: value plus bonus. */
  function UcbIndex(v: seq<real>, n: seq<nat>, t: nat, bonus: Bonus): (r: seq<real>)
    requires |v| == |n|
    ensures |r| == |v|
    ensures forall i :: 0 <= i < |v| ==> r[i] == v[i] + bonus(n[i], t)
  {
    seq(|v|, i requires 0 <= i < |v| => v[i] + bonus(n[i], t))
  }

  /**
    The arm with the largest value-plus-bonus, the lowest such index on a
    tie; None for no arms, where the argmax raises. The step must be at
    least 1 (the bonus takes log t).
   */
  function Ucb(v: seq<real>, n: seq<nat>, t: nat, bonus: Bonus): (r: Option<nat>)
    requires |v| == |n| && t >= 1
    ensures r.None? <==> |v| == 0
    ensures r.Some? ==> r.value < |v|
    ensures r.Some? ==> forall j :: 0 <= j < |v| ==>
      v[j] + bonus(n[j], t) <= v[r.value] + bonus(n[r.value], t)
    ensures r.Some? ==> forall j :: 0 <= j < r.value ==>
      v[j] + bonus(n[j], t) < v[r.value] + bonus(n[r.value], t)
  {
    if |v| == 0 then None else Some(Argmax(UcbIndex(v, n, t, bonus)))
  }

  /** When every arm has the same count, UCB is the greedy choice: the first maximum of the values. */
  lemma UcbEqualCountsIsGreedy(v: seq<real>, n: seq<nat>, t: nat, bonus: Bonus)
    requires |v| == |n| > 0 && t >= 1
    requires forall i :: 0 <= i < |n| ==> n[i] == n[0]
    ensures Ucb(v, n, t, bonus) == Some(Argmax(v))
  {
    ArgmaxShift(v, UcbIndex(v, n, t, bonus), bonus(n[0], t));
  }

  /** ucb_at: UCB over the treatment-indexed means and counts. */
  function UcbAt(e: Iab, t: nat, bonus: Bonus): (r: Option<nat>)
    requires Valid(e) && t >= 1
    ensures r.None? <==> e.structure.params.nArms == 0
    ensures r.Some? ==> r.value < e.structure.params.nArms
    ensures r.Some? ==> forall j :: 0 <= j < e.structure.params.nArms ==>
      UX(e)[j] + bonus(NX(e)[j], t) <= UX(e)[r.value] + bonus(NX(e)[r.value], t)
    ensures r.Some? ==> forall j :: 0 <= j < r.value ==>
      UX(e)[j] + bonus(NX(e)[j], t) < UX(e)[r.value] + bonus(NX(e)[r.value], t)
  {
    Ucb(UX(e), NX(e), t, bonus)
  }

  /** ucb_itt: UCB over the instrument-indexed means and counts. */
  function UcbItt(e: Iab, t: nat, bonus: Bonus): (r: Option<nat>)
    requires Valid(e) && t >= 1
    ensures r.None? <==> e.structure.params.nArms == 0
    ensures r.Some? ==> r.value < e.structure.params.nArms
    ensures r.Some? ==> forall j :: 0 <= j < e.structure.params.nArms ==>
      UZ(e)[j] + bonus(NZ(e)[j], t) <= UZ(e)[r.value] + bonus(NZ(e)[r.value], t)
    ensures r.Some? ==> forall j :: 0 <= j < r.value ==>
      UZ(e)[j] + bonus(NZ(e)[j], t) < UZ(e)[r.value] + bonus(NZ(e)[r.value], t)
  {
    Ucb(UZ(e), NZ(e), t, bonus)
  }

  /** On a freshly reset environment every arm looks alike, so both UCB rules offer arm 0. */
  lemma UcbAfterResetPicksFirstArm(e: Iab, t: nat, bonus: Bonus)
    requires Valid(e) && e.structure.params.nArms > 0 && t >= 1
    ensures UcbAt(Reset(e), t, bonus) == Some(0)
    ensures UcbItt(Reset(e), t, bonus) == Some(0)
  {
    var e0 := Reset(e);
    var n := e.structure.params.nArms;
    ZeroMatrixTotals(n);
    ArgmaxOfConstant(UcbIndex(UX(e0), NX(e0), t, bonus));
    ArgmaxOfConstant(UcbIndex(UZ(e0), NZ(e0), t, bonus));
  }

  /**
    The sls_decay exploration rate n_arms / (alpha * t), for a non-zero
    denominator; SlsDecay handles the zero case, where Python raises.
   */
  function DecayRate(nArms: nat, alpha: real, t: int): (rate: real)
    requires alpha * (t as real) != 0.0
    ensures rate * (alpha * t as real) == nArms as real
    ensures alpha > 0.0 && t >= 1 && nArms >= 1 ==> rate > 0.0
  {
    nArms as real / (alpha * t as real)
  }

  /** For a positive alpha the exploration rate strictly falls as t grows. */
  lemma DecayRateDecreasing(nArms: nat, alpha: real, t1: int, t2: int)
    requires nArms >= 1 && alpha > 0.0 && 1 <= t1 < t2
    ensures DecayRate(nArms, alpha, t2) < DecayRate(nArms, alpha, t1)
  {
    var r1 := DecayRate(nArms, alpha, t1);
    var r2 := DecayRate(nArms, alpha, t2);
    var a1 := alpha * t1 as real;
    var a2 := alpha * t2 as real;
    assert a1 < a2 by {
      assert a2 - a1 == alpha * (t2 - t1) as real;
    }
    assert r1 * a1 == r2 * a2;
    assert r2 * a1 < r2 * a2;
  }

  /** The rate reaches 1 exactly when alpha * t reaches n_arms. */
  lemma DecayRateAtMostOne(nArms: nat, alpha: real, t: int)
    requires alpha > 0.0 && t >= 1
    ensures DecayRate(nArms, alpha, t) <= 1.0 <==> nArms as real <= alpha * t as real
  {
    var a := alpha * t as real;
    assert a > 0.0;
    var r := DecayRate(nArms, alpha, t);
    assert r * a == nArms as real;
    if r <= 1.0 {
      assert r * a <= 1.0 * a;
    } else {
      assert r * a > 1.0 * a;
    }
  }

  /** The rate is at least 1 exactly when alpha * t is at most n_arms. */
  lemma DecayRateAtLeastOne(nArms: nat, alpha: real, t: int)
    requires alpha > 0.0 && t >= 1
    ensures DecayRate(nArms, alpha, t) >= 1.0 <==> alpha * t as real <= nArms as real
  {
    var a := alpha * t as real;
    assert a > 0.0;
    var r := DecayRate(nArms, alpha, t);
    assert r * a == nArms as real;
    if r >= 1.0 {
      assert r * a >= 1.0 * a;
    } else {
      assert r * a < 1.0 * a;
    }
  }

  /**
    epsilon_greedy exactly as the source draws the random arm: with
    probability epsilon, an integer from [0, nArms - 1), whose upper bound
    is exclusive; otherwise the first maximum of v. The random draw raises
    when that range is empty (nArms < 2), and so does the argmax of an
    empty v; both give None.
   */
  function EpsilonGreedyAsWritten(v: seq<real>, epsilon: real, nArms: nat, u: real, draw: nat)
    : (r: Option<nat>)
    requires 0.0 <= u < 1.0
    requires nArms >= 2 ==> draw < nArms - 1
    ensures u > epsilon ==> (r.Some? <==> |v| > 0)
    ensures u > epsilon && |v| > 0 ==> r.value == Argmax(v)
    ensures u <= epsilon ==> (r.Some? <==> nArms >= 2)
    ensures u <= epsilon && nArms >= 2 ==> r == Some(draw)
    ensures u <= epsilon && r.Some? ==> r.value <= nArms - 2
    ensures |v| == nArms >= 2 ==> r.Some? && r.value < nArms
  {
    if u <= epsilon then
      if nArms >= 2 then Some(draw) else None
    else if |v| > 0 then Some(Argmax(v))
    else None
  }

  /**
    The exclusive bound in action: once epsilon reaches 1 the random branch
    is always taken, and no admissible draw ever yields the last arm, even
    when the last arm is the only maximum of v.
   */
  lemma AsWrittenNeverExploresLastArm(v: seq<real>, epsilon: real, nArms: nat, u: real, draw: nat)
    requires 0.0 <= u < 1.0 && nArms >= 2 && draw < nArms - 1
    requires epsilon >= 1.0
    ensures EpsilonGreedyAsWritten(v, epsilon, nArms, u, draw) != Some(nArms - 1)
  {
  }

  /** A concrete instance: three arms, the last one best, epsilon 1; arm 2 is never returned. */
  lemma AsWrittenMissesBestArm(u: real, draw: nat)
    requires 0.0 <= u < 1.0 && draw < 2
    ensures Argmax([0.0, 0.0, 1.0]) == 2
    ensures EpsilonGreedyAsWritten([0.0, 0.0, 1.0], 1.0, 3, u, draw) != Some(2)
  {
    ArgmaxUnique([0.0, 0.0, 1.0], 2);
  }

  /**
    epsilon_greedy with the random arm drawn from the full range
    [0, nArms): with probability epsilon the draw, otherwise the first
    maximum of v. Only an empty range or an empty v gives None.
   */
  function EpsilonGreedy(v: seq<real>, epsilon: real, nArms: nat, u: real, draw: nat): (r: Option<nat>)
    requires 0.0 <= u < 1.0
    requires nArms >= 1 ==> draw < nArms
    ensures u > epsilon ==> (r.Some? <==> |v| > 0)
    ensures u > epsilon && |v| > 0 ==> r.value == Argmax(v)
    ensures u <= epsilon ==> (r.Some? <==> nArms >= 1)
    ensures u <= epsilon && nArms >= 1 ==> r == Some(draw)
    ensures |v| == nArms >= 1 ==> r.Some? && r.value < nArms
  {
    if u <= epsilon then
      if nArms >= 1 then Some(draw) else None
    else if |v| > 0 then Some(Argmax(v))
    else None
  }

  /** In the random branch every arm, the last one included, is the outcome of some draw. */
  lemma EpsilonGreedyCoversAllArms(v: seq<real>, epsilon: real, nArms: nat, u: real)
    requires 0.0 <= u < 1.0 && u <= epsilon && nArms >= 1
    ensures forall a :: 0 <= a < nArms ==> EpsilonGreedy(v, epsilon, nArms, u, a) == Some(a)
  {
  }

  /** With epsilon 0 (or any epsilon below every u) the choice is always greedy. */
  lemma EpsilonZeroIsGreedy(v: seq<real>, nArms: nat, u: real, draw: nat)
    requires 0.0 < u < 1.0 && |v| > 0 && (nArms >= 1 ==> draw < nArms)
    ensures EpsilonGreedy(v, 0.0, nArms, u, draw) == Some(Argmax(v))
    ensures nArms >= 2 && draw < nArms - 1 ==> EpsilonGreedyAsWritten(v, 0.0, nArms, u, draw) == Some(Argmax(v))
  {
  }

  /**
    sls_decay: epsilon-greedy on the structural effect estimate with the
    decaying exploration rate n_arms / (alpha * t). The effect estimate
    (a regularised matrix inversion) is an input of the same length as the
    arms. A zero alpha * t is Python's division by zero and gives None.
   */
  function SlsDecay(e: Iab, t: int, alpha: real, effect: seq<real>, u: real, draw: nat): (r: Option<nat>)
    requires Valid(e) && e.structure.params.nArms >= 1
    requires |effect| == e.structure.params.nArms
    requires 0.0 <= u < 1.0 && draw < e.structure.params.nArms
    ensures r.None? <==> alpha * (t as real) == 0.0
    ensures r.Some? ==> r.value < e.structure.params.nArms
    ensures r.Some? && u > DecayRate(e.structure.params.nArms, alpha, t) ==> r.value == Argmax(effect)
    ensures r.Some? && u <= DecayRate(e.structure.params.nArms, alpha, t) ==> r.value == draw
  {
    if alpha * (t as real) == 0.0 then None
    else EpsilonGreedy(effect, DecayRate(e.structure.params.nArms, alpha, t), e.structure.params.nArms, u, draw)
  }

  /**
    Until alpha * t reaches n_arms the rate is at least 1, so every step
    explores; with the default alpha of 0.01 and three arms that is each of
    the first 300 steps.
   */
  lemma SlsDecayExploresEarly(e: Iab, t: int, alpha: real, effect: seq<real>, u: real, draw: nat)
    requires Valid(e) && e.structure.params.nArms >= 1
    requires alpha > 0.0 && t >= 1 && alpha * (t as real) <= e.structure.params.nArms as real
    requires |effect| == e.structure.params.nArms
    requires 0.0 <= u < 1.0 && draw < e.structure.params.nArms
    ensures SlsDecay(e, t, alpha, effect, u, draw) == Some(draw)
  {
    DecayRateAtLeastOne(e.structure.params.nArms, alpha, t);
  }

  /** The default schedule on three arms explores at every step t <= 300. */
  lemma DefaultScheduleExploration(t: int)
    requires 1 <= t <= 300
    ensures DecayRate(3, Alpha, t) >= 1.0
  {
    DecayRateAtLeastOne(3, Alpha, t);
  }
}
