/** Belief updates of a basic POMDP, and the one-step lookahead over beliefs. */
module REBasicPomdp {
  import opened RealArith

  const RE_DISCOUNT: real := 0.95

  datatype REBeliefEntry = REBeliefEntry(prob: real, index: nat)

  type REBelief = seq<REBeliefEntry>

  datatype REActionResult = REActionResult(reward: real, outcomes: REBelief)

  /** A model: what each action does in each state, and what is then observed. */
  datatype BasicPomdp = BasicPomdp(numStates: nat, numObservations: nat, numActions: nat,
                                   results: seq<seq<REActionResult>>, obsProbs: seq<seq<seq<real>>>) {
    ghost predicate Valid() {
      && |results| == numStates && |obsProbs| == numActions
      && (forall si, ai | 0 <= si < numStates && 0 <= ai < numActions :: ResultOk(si, ai))
      && (forall ai, sp | 0 <= ai < numActions && 0 <= sp < numStates :: ObsOk(ai, sp))
    }

    ghost predicate ResultOk(si: nat, ai: nat)
      requires si < |results|
    {
      |results[si]| == numActions && (ai < numActions ==> Normalized(results[si][ai].outcomes, numStates))
    }

    ghost predicate ObsOk(ai: nat, sp: nat)
      requires ai < |obsProbs|
    {
      && |obsProbs[ai]| == numStates
      && (sp < numStates ==>
            (&& |obsProbs[ai][sp]| == numObservations
             && (forall o | 0 <= o < numObservations :: obsProbs[ai][sp][o] >= 0.0)
             && SumTo(obsProbs[ai][sp], numObservations) == 1.0))
    }

    function GetActionResult(si: nat, ai: nat): REActionResult
      requires Valid() && si < numStates && ai < numActions
    {
      assert ResultOk(si, ai);
      results[si][ai]
    }

    function GetObsProb(ai: nat, sp: nat, o: nat): real
      requires Valid() && ai < numActions && sp < numStates && o < numObservations
    {
      assert ObsOk(ai, sp);
      obsProbs[ai][sp][o]
    }
  }

  ghost function SumTo(u: seq<real>, n: nat): real
    requires n <= |u|
  {
    if n == 0 then 0.0 else SumTo(u, n - 1) + u[n - 1]
  }

  /** Entries are in range and not negative. */
  ghost predicate BeliefOk(b: REBelief, n: nat) {
    forall i | 0 <= i < |b| :: b[i].index < n && b[i].prob >= 0.0
  }

  /** The expectation of `x` under the belief. */
  ghost function Expect(b: REBelief, x: seq<real>): real
    requires BeliefOk(b, |x|)
  {
    if b == [] then 0.0
    else Expect(b[..|b| - 1], x) + Times(b[|b| - 1].prob, x[b[|b| - 1].index])
  }

  ghost function Mass(b: REBelief): real {
    if b == [] then 0.0 else Mass(b[..|b| - 1]) + b[|b| - 1].prob
  }

  ghost predicate Normalized(b: REBelief, n: nat) {
    BeliefOk(b, n) && Mass(b) == 1.0
  }

  /** The outcomes' expectation of `x`, restricted to the cases in which `o` is observed. */
  ghost function Observed(m: BasicPomdp, a: nat, o: nat, outs: REBelief, x: seq<real>): real
    requires m.Valid() && a < m.numActions && o < m.numObservations && |x| == m.numStates
    requires BeliefOk(outs, m.numStates)
  {
    if outs == [] then 0.0
    else
      var e := outs[|outs| - 1];
      Observed(m, a, o, outs[..|outs| - 1], x) + Times(e.prob, Times(m.GetObsProb(a, e.index, o), x[e.index]))
  }

  /** The same over a belief: the joint weight of "observe `o`" and `x`. */
  ghost function Joint(m: BasicPomdp, a: nat, o: nat, b: REBelief, x: seq<real>): real
    requires m.Valid() && a < m.numActions && o < m.numObservations && |x| == m.numStates
    requires BeliefOk(b, m.numStates)
  {
    if b == [] then 0.0
    else
      var e := b[|b| - 1];
      OutcomesOk(m, e.index, a);
      Joint(m, a, o, b[..|b| - 1], x)
      + Times(e.prob, Observed(m, a, o, m.GetActionResult(e.index, a).outcomes, x))
  }

  lemma OutcomesOk(m: BasicPomdp, si: nat, a: nat)
    requires m.Valid() && a < m.numActions && si < m.numStates
    ensures Normalized(m.GetActionResult(si, a).outcomes, m.numStates)
  {
    assert m.ResultOk(si, a);
  }

  lemma ObservedPrefix(m: BasicPomdp, a: nat, o: nat, outs: REBelief, x: seq<real>, j: nat)
    requires m.Valid() && a < m.numActions && o < m.numObservations && |x| == m.numStates
    requires BeliefOk(outs, m.numStates) && j < |outs|
    ensures Observed(m, a, o, outs[..j + 1], x) == Observed(m, a, o, outs[..j], x)
      + Times(outs[j].prob, Times(m.GetObsProb(a, outs[j].index, o), x[outs[j].index]))
  {
    assert outs[..j + 1][..j] == outs[..j];
  }

  lemma JointPrefix(m: BasicPomdp, a: nat, o: nat, b: REBelief, x: seq<real>, i: nat)
    requires m.Valid() && a < m.numActions && o < m.numObservations && |x| == m.numStates
    requires BeliefOk(b, m.numStates) && i < |b|
    ensures BeliefOk(m.GetActionResult(b[i].index, a).outcomes, m.numStates)
    ensures Joint(m, a, o, b[..i + 1], x) == Joint(m, a, o, b[..i], x)
      + Times(b[i].prob, Observed(m, a, o, m.GetActionResult(b[i].index, a).outcomes, x))
  {
    OutcomesOk(m, b[i].index, a);
    assert b[..i + 1][..i] == b[..i];
  }

  // ---------- Identities ----------

  /** The weights of several outcomes add up. */
  lemma {:induction false} ObservedAdds(m: BasicPomdp, a: nat, o: nat, p: REBelief, q: REBelief, x: seq<real>)
    requires m.Valid() && a < m.numActions && o < m.numObservations && |x| == m.numStates
    requires BeliefOk(p, m.numStates) && BeliefOk(q, m.numStates)
    ensures Observed(m, a, o, p + q, x) == Observed(m, a, o, p, x) + Observed(m, a, o, q, x)
  {
    hide Times, BasicPomdp.Valid;
    if q == [] {
      assert p + q == p;
    } else {
      assert (p + q)[..|p + q| - 1] == p + q[..|q| - 1];
      ObservedAdds(m, a, o, p, q[..|q| - 1], x);
    }
  }

  /** The weights of several states add up. */
  lemma {:induction false} JointAdds(m: BasicPomdp, a: nat, o: nat, p: REBelief, q: REBelief, x: seq<real>)
    requires m.Valid() && a < m.numActions && o < m.numObservations && |x| == m.numStates
    requires BeliefOk(p, m.numStates) && BeliefOk(q, m.numStates)
    ensures Joint(m, a, o, p + q, x) == Joint(m, a, o, p, x) + Joint(m, a, o, q, x)
  {
    hide Times, BasicPomdp.Valid, Observed;
    if q == [] {
      assert p + q == p;
    } else {
      assert (p + q)[..|p + q| - 1] == p + q[..|q| - 1];
      JointAdds(m, a, o, p, q[..|q| - 1], x);
    }
  }

  /** In a state known to be `s`, an action that surely leads to `sp` gives the observation the probability it has
      there, and is worth its reward plus the discounted value of `sp`. */
  lemma SureStep(m: BasicPomdp, s: nat, a: nat, o: nat, sp: nat, x: seq<real>)
    requires m.Valid() && s < m.numStates && a < m.numActions && o < m.numObservations && |x| == m.numStates
    requires sp < m.numStates && m.GetActionResult(s, a).outcomes == [REBeliefEntry(1.0, sp)]
    ensures var b := [REBeliefEntry(1.0, s)];
      && Joint(m, a, o, b, x) == m.GetObsProb(a, sp, o) * x[sp]
      && ExpectedReward(m, a, b) == m.GetActionResult(s, a).reward && NextExpect(m, a, b, x) == x[sp]
      && GetQ(m, x, s, a) == m.GetActionResult(s, a).reward + RE_DISCOUNT * x[sp]
  {
    var b, outs := [REBeliefEntry(1.0, s)], [REBeliefEntry(1.0, sp)];
    var w := Times(m.GetObsProb(a, sp, o), x[sp]);
    assert b[..0] == [] && outs[..0] == [] && BeliefOk(b, m.numStates);
    ObservedPrefix(m, a, o, outs, x, 0);
    JointPrefix(m, a, o, b, x, 0);
    assert outs[..1] == outs && b[..1] == b;
    assert Observed(m, a, o, outs[..0], x) == 0.0 && Joint(m, a, o, b[..0], x) == 0.0;
    TimesIs(m.GetObsProb(a, sp, o), x[sp]);
    TimesIs(RE_DISCOUNT, x[sp]);
    hide Times, BasicPomdp.Valid, Joint, Observed;
    UnitTimes(w);
    UnitTimes(x[sp]);
    UnitTimes(m.GetActionResult(s, a).reward);
    assert Expect(outs, x) == Expect(outs[..0], x) + x[sp];
    assert ExpectedReward(m, a, b) == ExpectedReward(m, a, b[..0]) + m.GetActionResult(s, a).reward;
    assert NextExpect(m, a, b, x) == NextExpect(m, a, b[..0], x) + x[sp];
  }

  /** Sums over all observations below `n`. */
  ghost function ObservedAll(m: BasicPomdp, a: nat, outs: REBelief, x: seq<real>, n: nat): real
    requires m.Valid() && a < m.numActions && n <= m.numObservations && |x| == m.numStates
    requires BeliefOk(outs, m.numStates)
  {
    if n == 0 then 0.0 else ObservedAll(m, a, outs, x, n - 1) + Observed(m, a, n - 1, outs, x)
  }

  ghost function JointAll(m: BasicPomdp, a: nat, b: REBelief, x: seq<real>, n: nat): real
    requires m.Valid() && a < m.numActions && n <= m.numObservations && |x| == m.numStates
    requires BeliefOk(b, m.numStates)
  {
    if n == 0 then 0.0 else JointAll(m, a, b, x, n - 1) + Joint(m, a, n - 1, b, x)
  }

  lemma {:induction false} ObservedAllPush(m: BasicPomdp, a: nat, outs: REBelief, x: seq<real>, n: nat)
    requires m.Valid() && a < m.numActions && n <= m.numObservations && |x| == m.numStates
    requires BeliefOk(outs, m.numStates) && outs != []
    ensures var e := outs[|outs| - 1];
      && m.ObsOk(a, e.index)
      && ObservedAll(m, a, outs, x, n) == ObservedAll(m, a, outs[..|outs| - 1], x, n)
         + Times(e.prob, Times(SumTo(m.obsProbs[a][e.index], n), x[e.index]))
  {
    var e := outs[|outs| - 1];
    assert m.ObsOk(a, e.index);
    if n == 0 {
      TimesIs(0.0, x[e.index]);
      TimesIs(e.prob, 0.0);
    } else {
      hide Times, BasicPomdp.Valid, BasicPomdp.ObsOk;
      ObservedAllPush(m, a, outs, x, n - 1);
      var before, now := SumTo(m.obsProbs[a][e.index], n - 1), m.obsProbs[a][e.index][n - 1];
      TimesPlus(x[e.index], before, now);
      TimesPlus(e.prob, Times(before, x[e.index]), Times(now, x[e.index]));
    }
  }

  /** Some observation is always made. */
  lemma {:induction false} ObservedTotal(m: BasicPomdp, a: nat, outs: REBelief, x: seq<real>)
    requires m.Valid() && a < m.numActions && |x| == m.numStates && BeliefOk(outs, m.numStates)
    ensures ObservedAll(m, a, outs, x, m.numObservations) == Expect(outs, x)
  {
    hide Times;
    if outs == [] {
      NothingObserved(m, a, x, m.numObservations);
    } else {
      var e := outs[|outs| - 1];
      ObservedAllPush(m, a, outs, x, m.numObservations);
      UnitTimes(x[e.index]);
      ObservedTotal(m, a, outs[..|outs| - 1], x);
    }
  }

  lemma {:induction false} NothingObserved(m: BasicPomdp, a: nat, x: seq<real>, n: nat)
    requires m.Valid() && a < m.numActions && |x| == m.numStates && n <= m.numObservations
    ensures ObservedAll(m, a, [], x, n) == 0.0 && JointAll(m, a, [], x, n) == 0.0
  {
    if n > 0 {
      NothingObserved(m, a, x, n - 1);
    }
  }

  /** The expectation, under a belief, of the outcomes' expectation of `x`. */
  ghost function NextExpect(m: BasicPomdp, a: nat, b: REBelief, x: seq<real>): real
    requires m.Valid() && a < m.numActions && |x| == m.numStates && BeliefOk(b, m.numStates)
  {
    if b == [] then 0.0
    else
      var e := b[|b| - 1];
      OutcomesOk(m, e.index, a);
      NextExpect(m, a, b[..|b| - 1], x) + Times(e.prob, Expect(m.GetActionResult(e.index, a).outcomes, x))
  }

  lemma {:induction false} JointAllPush(m: BasicPomdp, a: nat, b: REBelief, x: seq<real>, n: nat)
    requires m.Valid() && a < m.numActions && n <= m.numObservations && |x| == m.numStates
    requires BeliefOk(b, m.numStates) && b != []
    ensures var e := b[|b| - 1]; var outs := m.GetActionResult(e.index, a).outcomes;
      && BeliefOk(outs, m.numStates)
      && JointAll(m, a, b, x, n) == JointAll(m, a, b[..|b| - 1], x, n) + Times(e.prob, ObservedAll(m, a, outs, x, n))
  {
    var e := b[|b| - 1];
    OutcomesOk(m, e.index, a);
    if n == 0 {
      TimesIs(e.prob, 0.0);
    } else {
      hide Times, BasicPomdp.Valid, Observed;
      JointAllPush(m, a, b, x, n - 1);
      var outs := m.GetActionResult(e.index, a).outcomes;
      TimesPlus(e.prob, ObservedAll(m, a, outs, x, n - 1), Observed(m, a, n - 1, outs, x));
    }
  }

  /** Summed over the observations, the joint weights give back the expectation after the action. */
  lemma {:induction false} JointTotal(m: BasicPomdp, a: nat, b: REBelief, x: seq<real>)
    requires m.Valid() && a < m.numActions && |x| == m.numStates && BeliefOk(b, m.numStates)
    ensures JointAll(m, a, b, x, m.numObservations) == NextExpect(m, a, b, x)
  {
    hide Times;
    if b == [] {
      NothingObserved(m, a, x, m.numObservations);
    } else {
      var e := b[|b| - 1];
      OutcomesOk(m, e.index, a);
      JointAllPush(m, a, b, x, m.numObservations);
      ObservedTotal(m, a, m.GetActionResult(e.index, a).outcomes, x);
      JointTotal(m, a, b[..|b| - 1], x);
    }
  }

  function Ones(n: nat): (x: seq<real>)
    ensures |x| == n && forall i | 0 <= i < n :: x[i] == 1.0
  {
    seq(n, _ => 1.0)
  }

  lemma {:induction false} ExpectOnes(b: REBelief, n: nat)
    requires BeliefOk(b, n)
    ensures Expect(b, Ones(n)) == Mass(b)
  {
    if b != [] {
      ExpectOnes(b[..|b| - 1], n);
      UnitTimes(b[|b| - 1].prob);
    }
  }

  lemma {:induction false} NextOnes(m: BasicPomdp, a: nat, b: REBelief)
    requires m.Valid() && a < m.numActions && BeliefOk(b, m.numStates)
    ensures NextExpect(m, a, b, Ones(m.numStates)) == Mass(b)
  {
    if b != [] {
      var e := b[|b| - 1];
      OutcomesOk(m, e.index, a);
      ExpectOnes(m.GetActionResult(e.index, a).outcomes, m.numStates);
      UnitTimes(e.prob);
      NextOnes(m, a, b[..|b| - 1]);
    }
  }

  /** The observation probabilities of a normalized belief sum to 1, so normalizing them changes nothing. */
  lemma ObservationsAddUp(m: BasicPomdp, a: nat, b: REBelief)
    requires m.Valid() && a < m.numActions && Normalized(b, m.numStates)
    ensures JointAll(m, a, b, Ones(m.numStates), m.numObservations) == 1.0
  {
    JointTotal(m, a, b, Ones(m.numStates));
    NextOnes(m, a, b);
  }

  // ---------- Updates ----------

  /** The expected reward of an action under a belief. */
  ghost function ExpectedReward(m: BasicPomdp, a: nat, b: REBelief): real
    requires m.Valid() && a < m.numActions && BeliefOk(b, m.numStates)
  {
    if b == [] then 0.0
    else
      var e := b[|b| - 1];
      ExpectedReward(m, a, b[..|b| - 1]) + Times(e.prob, m.GetActionResult(e.index, a).reward)
  }

  /** Adds the observation weights of the outcomes of one state. */
  method AddOutcomes(m: BasicPomdp, a: nat, prob: real, outs: REBelief, start: seq<real>) returns (obs: seq<real>)
    requires m.Valid() && a < m.numActions && BeliefOk(outs, m.numStates) && |start| == m.numObservations
    ensures |obs| == m.numObservations
    ensures forall o | 0 <= o < m.numObservations ::
      obs[o] == start[o] + Times(prob, Observed(m, a, o, outs, Ones(m.numStates)))
  {
    hide Times, BasicPomdp.Valid;
    obs := start;
    TimesIs(prob, 0.0);
    assert outs[..|outs|] == outs;
    for j := 0 to |outs|
      invariant |obs| == m.numObservations
      invariant forall o | 0 <= o < m.numObservations ::
        obs[o] == start[o] + Times(prob, Observed(m, a, o, outs[..j], Ones(m.numStates)))
    {
      ghost var obs0 := obs;
      for o := 0 to m.numObservations
        invariant |obs| == m.numObservations
        invariant forall k | 0 <= k < m.numObservations ::
          obs[k] == if k < o then start[k] + Times(prob, Observed(m, a, k, outs[..j + 1], Ones(m.numStates)))
                    else obs0[k]
      {
        var w := prob * outs[j].prob * m.GetObsProb(a, outs[j].index, o);
        WeightIs(m, a, o, prob, outs, j, Ones(m.numStates), w);
        UnitTimes(w);
        obs := obs[o := obs[o] + w];
      }
    }
  }

  lemma WeightIs(m: BasicPomdp, a: nat, o: nat, prob: real, outs: REBelief, j: nat, x: seq<real>, w: real)
    requires m.Valid() && a < m.numActions && o < m.numObservations && |x| == m.numStates
    requires BeliefOk(outs, m.numStates) && j < |outs|
    requires w == prob * outs[j].prob * m.GetObsProb(a, outs[j].index, o)
    ensures Times(prob, Observed(m, a, o, outs[..j + 1], x))
         == Times(prob, Observed(m, a, o, outs[..j], x)) + Times(w, x[outs[j].index])
  {
    var p, q, v := outs[j].prob, m.GetObsProb(a, outs[j].index, o), x[outs[j].index];
    ThreeFactors(prob, p, q, v, w);
    hide Times, BasicPomdp.Valid;
    ObservedPrefix(m, a, o, outs, x, j);
    TimesPlus(prob, Observed(m, a, o, outs[..j], x), Times(p, Times(q, v)));
  }

  lemma ThreeFactors(b: real, p: real, q: real, v: real, w: real)
    requires w == b * p * q
    ensures Times(b, Times(p, Times(q, v))) == Times(w, v)
  {
    assert p * (q * v) == p * q * v;
    assert b * (p * q * v) == b * p * q * v;
  }

  /** The expected reward, and the probability of each observation. */
  method GetBeliefResult(m: BasicPomdp, b: REBelief, a: nat) returns (obsProbs: seq<real>, expectedReward: real)
    requires m.Valid() && a < m.numActions && Normalized(b, m.numStates)
    ensures |obsProbs| == m.numObservations
    ensures forall o | 0 <= o < m.numObservations :: obsProbs[o] == Joint(m, a, o, b, Ones(m.numStates))
    ensures expectedReward == ExpectedReward(m, a, b)
  {
    ObservationsAddUp(m, a, b);
    hide Times, BasicPomdp.Valid, Observed;
    obsProbs := seq(m.numObservations, _ => 0.0);
    expectedReward := 0.0;
    for i := 0 to |b|
      invariant |obsProbs| == m.numObservations
      invariant forall o | 0 <= o < m.numObservations :: obsProbs[o] == Joint(m, a, o, b[..i], Ones(m.numStates))
      invariant expectedReward == ExpectedReward(m, a, b[..i])
    {
      var out := m.GetActionResult(b[i].index, a);
      OutcomesOk(m, b[i].index, a);
      assert b[..i + 1][..i] == b[..i];
      TimesIs(b[i].prob, out.reward);
      expectedReward := expectedReward + b[i].prob * out.reward;
      obsProbs := AddOutcomes(m, a, b[i].prob, out.outcomes, obsProbs);
      forall o | 0 <= o < m.numObservations
        ensures obsProbs[o] == Joint(m, a, o, b[..i + 1], Ones(m.numStates))
      {
        JointPrefix(m, a, o, b, Ones(m.numStates), i);
      }
    }
    assert b[..|b|] == b;
    obsProbs := Normalize(m, a, b, obsProbs);
  }

  /** Divides the observation weights by their sum, which is 1. */
  method Normalize(m: BasicPomdp, a: nat, b: REBelief, weights: seq<real>) returns (obsProbs: seq<real>)
    requires m.Valid() && a < m.numActions && BeliefOk(b, m.numStates) && |weights| == m.numObservations
    requires forall o | 0 <= o < m.numObservations :: weights[o] == Joint(m, a, o, b, Ones(m.numStates))
    requires JointAll(m, a, b, Ones(m.numStates), m.numObservations) == 1.0
    ensures obsProbs == weights
  {
    hide Joint, BasicPomdp.Valid;
    var sum := 0.0;
    for o := 0 to m.numObservations
      invariant sum == JointAll(m, a, b, Ones(m.numStates), o)
    {
      sum := sum + weights[o];
    }
    assert sum > 0.0;
    obsProbs := weights;
    for o := 0 to m.numObservations
      invariant obsProbs == weights
    {
      obsProbs := obsProbs[o := obsProbs[o] / sum];
    }
  }

  /** The expectation under the first `n` states of an unnormalized dense belief. */
  ghost function DenseExpect(d: seq<real>, x: seq<real>, n: nat): real
    requires n <= |d| && n <= |x|
  {
    if n == 0 then 0.0 else DenseExpect(d, x, n - 1) + Times(d[n - 1], x[n - 1])
  }

  lemma {:induction false} DenseAdd(d: seq<real>, x: seq<real>, n: nat, k: nat, w: real)
    requires n <= |d| && n <= |x| && k < |d| && k < |x|
    ensures DenseExpect(d[k := d[k] + w], x, n) == DenseExpect(d, x, n) + if k < n then Times(w, x[k]) else 0.0
  {
    if n > 0 {
      DenseAdd(d, x, n - 1, k, w);
      TimesPlus(x[n - 1], d[n - 1], w);
    }
  }

  lemma {:induction false} DenseZero(d: seq<real>, x: seq<real>, n: nat)
    requires n <= |d| && n <= |x| && forall k | 0 <= k < n :: d[k] == 0.0
    ensures DenseExpect(d, x, n) == 0.0
  {
    if n > 0 {
      DenseZero(d, x, n - 1);
      TimesIs(0.0, x[n - 1]);
    }
  }

  /** The dense belief carries the joint weights, whatever is weighed. */
  ghost predicate Carries(m: BasicPomdp, a: nat, o: nat, b: REBelief, d: seq<real>)
    requires m.Valid() && a < m.numActions && o < m.numObservations && BeliefOk(b, m.numStates)
  {
    && |d| == m.numStates && (forall k | 0 <= k < |d| :: d[k] >= 0.0)
    && forall x: seq<real> | |x| == m.numStates :: DenseExpect(d, x, m.numStates) == Joint(m, a, o, b, x)
  }

  /** The dense belief also carries the first `j` outcomes of one more state, which has probability `prob`. */
  ghost predicate CarriesPlus(m: BasicPomdp, a: nat, o: nat, b: REBelief, prob: real, outs: REBelief, d: seq<real>)
    requires m.Valid() && a < m.numActions && o < m.numObservations
    requires BeliefOk(b, m.numStates) && BeliefOk(outs, m.numStates)
  {
    && |d| == m.numStates && (forall k | 0 <= k < |d| :: d[k] >= 0.0)
    && forall x: seq<real> | |x| == m.numStates ::
         DenseExpect(d, x, m.numStates) == Joint(m, a, o, b, x) + Times(prob, Observed(m, a, o, outs, x))
  }

  lemma CarryStep(m: BasicPomdp, a: nat, o: nat, b: REBelief, prob: real, outs: REBelief, j: nat, d: seq<real>, w: real)
    requires m.Valid() && a < m.numActions && o < m.numObservations && prob >= 0.0
    requires BeliefOk(b, m.numStates) && BeliefOk(outs, m.numStates) && j < |outs|
    requires CarriesPlus(m, a, o, b, prob, outs[..j], d)
    requires w == prob * outs[j].prob * m.GetObsProb(a, outs[j].index, o)
    ensures CarriesPlus(m, a, o, b, prob, outs[..j + 1], d[outs[j].index := d[outs[j].index] + w])
  {
    hide Joint, Observed, Times, BasicPomdp.Valid, DenseExpect;
    var sp := outs[j].index;
    WeightNonNegative(m, a, o, prob, outs[j].prob, sp, w);
    forall x: seq<real> | |x| == m.numStates
      ensures DenseExpect(d[sp := d[sp] + w], x, m.numStates)
        == Joint(m, a, o, b, x) + Times(prob, Observed(m, a, o, outs[..j + 1], x))
    {
      DenseAdd(d, x, m.numStates, sp, w);
      WeightIs(m, a, o, prob, outs, j, x, w);
    }
  }

  lemma CarryStart(m: BasicPomdp, a: nat, o: nat, b: REBelief, prob: real, outs: REBelief, d: seq<real>)
    requires m.Valid() && a < m.numActions && o < m.numObservations
    requires BeliefOk(b, m.numStates) && BeliefOk(outs, m.numStates) && Carries(m, a, o, b, d)
    ensures CarriesPlus(m, a, o, b, prob, outs[..0], d)
  {
    TimesIs(prob, 0.0);
  }

  lemma CarryEnd(m: BasicPomdp, a: nat, o: nat, b: REBelief, i: nat, d: seq<real>)
    requires m.Valid() && a < m.numActions && o < m.numObservations && BeliefOk(b, m.numStates) && i < |b|
    requires BeliefOk(m.GetActionResult(b[i].index, a).outcomes, m.numStates)
    requires CarriesPlus(m, a, o, b[..i], b[i].prob, m.GetActionResult(b[i].index, a).outcomes, d)
    ensures Carries(m, a, o, b[..i + 1], d)
  {
    hide Joint, Observed, Times, BasicPomdp.Valid;
    forall x: seq<real> | |x| == m.numStates
      ensures DenseExpect(d, x, m.numStates) == Joint(m, a, o, b[..i + 1], x)
    {
      JointPrefix(m, a, o, b, x, i);
    }
  }

  /** Adds the weights of the outcomes of one state to the dense belief. */
  method AddDense(m: BasicPomdp, a: nat, o: nat, b: REBelief, i: nat, start: seq<real>) returns (d: seq<real>)
    requires m.Valid() && a < m.numActions && o < m.numObservations && BeliefOk(b, m.numStates) && i < |b|
    requires Carries(m, a, o, b[..i], start)
    ensures Carries(m, a, o, b[..i + 1], d)
  {
    hide Times, BasicPomdp.Valid, CarriesPlus, Carries;
    var prob := b[i].prob;
    OutcomesOk(m, b[i].index, a);
    var outs := m.GetActionResult(b[i].index, a).outcomes;
    d := start;
    CarryStart(m, a, o, b[..i], prob, outs, d);
    assert outs[..|outs|] == outs;
    for j := 0 to |outs|
      invariant CarriesPlus(m, a, o, b[..i], prob, outs[..j], d)
    {
      CarriesSize(m, a, o, b[..i], prob, outs[..j], d);
      var sp := outs[j].index;
      var w := prob * outs[j].prob * m.GetObsProb(a, sp, o);
      CarryStep(m, a, o, b[..i], prob, outs, j, d, w);
      d := d[sp := d[sp] + w];
    }
    CarryEnd(m, a, o, b, i, d);
  }

  lemma CarriesSize(m: BasicPomdp, a: nat, o: nat, b: REBelief, prob: real, outs: REBelief, d: seq<real>)
    requires m.Valid() && a < m.numActions && o < m.numObservations
    requires BeliefOk(b, m.numStates) && BeliefOk(outs, m.numStates) && CarriesPlus(m, a, o, b, prob, outs, d)
    ensures |d| == m.numStates
  {
  }

  lemma WeightNonNegative(m: BasicPomdp, a: nat, o: nat, b: real, p: real, sp: nat, w: real)
    requires m.Valid() && a < m.numActions && o < m.numObservations && sp < m.numStates && b >= 0.0 && p >= 0.0
    requires w == b * p * m.GetObsProb(a, sp, o)
    ensures w >= 0.0
  {
    assert m.ObsOk(a, sp);
    ProductNonNegative(b, p);
    ProductNonNegative(b * p, m.GetObsProb(a, sp, o));
  }

  /** The belief after an action and an observation that has positive probability. */
  method GetUpdatedBelief(m: BasicPomdp, b: REBelief, a: nat, o: nat) returns (bp: REBelief)
    requires m.Valid() && a < m.numActions && o < m.numObservations && BeliefOk(b, m.numStates)
    requires Joint(m, a, o, b, Ones(m.numStates)) > 0.0
    ensures Normalized(bp, m.numStates)
    ensures forall x: seq<real> | |x| == m.numStates ::
      Times(Joint(m, a, o, b, Ones(m.numStates)), Expect(bp, x)) == Joint(m, a, o, b, x)
  {
    hide BasicPomdp.Valid, Times, Observed;
    var bpDense: seq<real> := seq(m.numStates, _ => 0.0);
    forall x: seq<real> | |x| == m.numStates
      ensures DenseExpect(bpDense, x, m.numStates) == 0.0
    {
      DenseZero(bpDense, x, m.numStates);
    }
    for i := 0 to |b|
      invariant Carries(m, a, o, b[..i], bpDense)
    {
      bpDense := AddDense(m, a, o, b, i, bpDense);
    }
    assert b[..|b|] == b;
    bp := Compact(m, a, o, b, bpDense);
  }

  /** Turns the dense belief into a normalized sparse one. */
  method Compact(m: BasicPomdp, ghost a: nat, ghost o: nat, ghost b: REBelief,
      bpDense: seq<real>) returns (bp: REBelief)
    requires m.Valid() && a < m.numActions && o < m.numObservations && BeliefOk(b, m.numStates)
    requires Carries(m, a, o, b, bpDense) && Joint(m, a, o, b, Ones(m.numStates)) > 0.0
    ensures Normalized(bp, m.numStates)
    ensures forall x: seq<real> | |x| == m.numStates ::
      Times(Joint(m, a, o, b, Ones(m.numStates)), Expect(bp, x)) == Joint(m, a, o, b, x)
  {
    hide BasicPomdp.Valid, Times, Joint;
    var entries: REBelief := [];
    var sum := 0.0;
    for sp := 0 to m.numStates
      invariant BeliefOk(entries, m.numStates) && sum == Mass(entries)
      invariant forall x: seq<real> | |x| == m.numStates :: Expect(entries, x) == DenseExpect(bpDense, x, sp)
    {
      ghost var entries0 := entries;
      if bpDense[sp] > 0.0 {
        entries := entries + [REBeliefEntry(bpDense[sp], sp)];
        sum := sum + bpDense[sp];
        assert entries[..|entries0|] == entries0;
      }
      forall x: seq<real> | |x| == m.numStates
        ensures Expect(entries, x) == DenseExpect(bpDense, x, sp + 1)
      {
        TimesIs(bpDense[sp], x[sp]);
      }
    }
    ExpectOnes(entries, m.numStates);
    assert sum == Joint(m, a, o, b, Ones(m.numStates)) > 0.0;
    bp := Divide(entries, sum, m.numStates);
  }

  /** Divides every probability by `sum`. */
  method Divide(b: REBelief, sum: real, ghost n: nat) returns (bp: REBelief)
    requires BeliefOk(b, n) && sum > 0.0
    ensures BeliefOk(bp, n)
    ensures forall x: seq<real> | |x| == n :: Times(sum, Expect(bp, x)) == Expect(b, x)
    ensures sum == Mass(b) ==> Mass(bp) == 1.0
  {
    hide Times;
    bp := [];
    TimesIs(sum, 0.0);
    for i := 0 to |b|
      invariant |bp| == i && BeliefOk(bp, n) && Times(sum, Mass(bp)) == Mass(b[..i])
      invariant forall x: seq<real> | |x| == n :: Times(sum, Expect(bp, x)) == Expect(b[..i], x)
    {
      var q := b[i].prob / sum;
      ghost var bp0 := bp;
      QuotientOk(b[i].prob, sum, q);
      bp := bp + [REBeliefEntry(q, b[i].index)];
      assert bp[..|bp0|] == bp0 && b[..i + 1][..i] == b[..i];
      TimesPlus(sum, Mass(bp0), q);
      forall x: seq<real> | |x| == n
        ensures Times(sum, Expect(bp, x)) == Expect(b[..i + 1], x)
      {
        var v := x[b[i].index];
        TimesPlus(sum, Expect(bp0, x), Times(q, v));
        TimesAssoc(sum, q, v);
      }
    }
    assert b[..|b|] == b;
    if sum == Mass(b) {
      UnitTimes(sum);
      SameFactor(sum, Mass(bp));
    }
  }

  lemma QuotientOk(p: real, sum: real, q: real)
    requires sum > 0.0 && p >= 0.0 && q == p / sum
    ensures q >= 0.0 && Times(sum, q) == p
  {
    assert q * sum == p;
    CancelFactor(0.0, q, sum);
  }

  lemma SameFactor(s: real, m: real)
    requires s > 0.0 && Times(s, m) == s
    ensures m == 1.0
  {
    assert m * s == 1.0 * s;
    CancelFactor(m, 1.0, s);
    CancelFactor(1.0, m, s);
  }

  // ---------- Lookahead ----------

  /** The value of an action in a state: reward plus discounted expectation. */
  function GetQ(m: BasicPomdp, v: seq<real>, s: nat, a: nat): real
    requires m.Valid() && |v| == m.numStates && s < m.numStates && a < m.numActions
  {
    OutcomesOk(m, s, a);
    m.GetActionResult(s, a).reward + Times(RE_DISCOUNT, GetValueOf(m.GetActionResult(s, a).outcomes, v))
  }

  function GetValueOf(b: REBelief, v: seq<real>): (r: real)
    requires BeliefOk(b, |v|)
    ensures r == Expect(b, v)
  {
    if b == [] then 0.0
    else GetValueOf(b[..|b| - 1], v) + Times(b[|b| - 1].prob, v[b[|b| - 1].index])
  }

  /** The expectation of the state values of an action. */
  ghost function ExpectedQ(m: BasicPomdp, v: seq<real>, b: REBelief, a: nat): real
    requires m.Valid() && |v| == m.numStates && a < m.numActions && BeliefOk(b, m.numStates)
  {
    if b == [] then 0.0
    else
      var e := b[|b| - 1];
      ExpectedQ(m, v, b[..|b| - 1], a) + Times(e.prob, GetQ(m, v, e.index, a))
  }

  lemma {:induction false} ExpectedQSplits(m: BasicPomdp, v: seq<real>, b: REBelief, a: nat)
    requires m.Valid() && |v| == m.numStates && a < m.numActions && BeliefOk(b, m.numStates)
    ensures ExpectedQ(m, v, b, a) == ExpectedReward(m, a, b) + Times(RE_DISCOUNT, NextExpect(m, a, b, v))
  {
    hide Times, BasicPomdp.Valid;
    if b == [] {
      TimesIs(RE_DISCOUNT, 0.0);
    } else {
      var e := b[|b| - 1];
      OutcomesOk(m, e.index, a);
      ExpectedQSplits(m, v, b[..|b| - 1], a);
      var next := Expect(m.GetActionResult(e.index, a).outcomes, v);
      TimesPlus(e.prob, m.GetActionResult(e.index, a).reward, Times(RE_DISCOUNT, next));
      TimesPlus(RE_DISCOUNT, NextExpect(m, a, b[..|b| - 1], v), Times(e.prob, next));
      TimesSwap(e.prob, RE_DISCOUNT, next);
    }
  }

  lemma TimesSwap(p: real, g: real, x: real)
    ensures Times(p, Times(g, x)) == Times(g, Times(p, x))
  {
  }

  method GetValue(b: REBelief, v: seq<real>) returns (expectedValue: real)
    requires BeliefOk(b, |v|)
    ensures expectedValue == Expect(b, v)
  {
    expectedValue := 0.0;
    for i := 0 to |b|
      invariant expectedValue == Expect(b[..i], v)
    {
      assert b[..i + 1][..i] == b[..i];
      TimesIs(b[i].prob, v[b[i].index]);
      expectedValue := expectedValue + b[i].prob * v[b[i].index];
    }
    assert b[..|b|] == b;
  }

  /** The lookahead over a belief: for every normalized belief it is the expectation of the lookahead over states. */
  method GetBeliefQ(m: BasicPomdp, v: seq<real>, b: REBelief, a: nat) returns (q: real)
    requires m.Valid() && |v| == m.numStates && a < m.numActions && Normalized(b, m.numStates)
    ensures q == ExpectedQ(m, v, b, a)
  {
    hide Times, BasicPomdp.Valid, Joint, Expect;
    var obsProbs, expectedReward := GetBeliefResult(m, b, a);
    var nextStateVal := 0.0;
    for o := 0 to m.numObservations
      invariant nextStateVal == JointAll(m, a, b, v, o)
    {
      if obsProbs[o] > 0.0 {
        var nextBelief := GetUpdatedBelief(m, b, a, o);
        var value := GetValue(nextBelief, v);
        TimesIs(obsProbs[o], value);
        nextStateVal := nextStateVal + obsProbs[o] * value;
      } else {
        NeverObserved(m, a, o, b, v);
      }
    }
    JointTotal(m, a, b, v);
    ExpectedQSplits(m, v, b, a);
    TimesIs(RE_DISCOUNT, nextStateVal);
    q := expectedReward + RE_DISCOUNT * nextStateVal;
  }

  lemma {:induction false} ObservedZero(m: BasicPomdp, a: nat, o: nat, outs: REBelief, x: seq<real>)
    requires m.Valid() && a < m.numActions && o < m.numObservations && |x| == m.numStates
    requires BeliefOk(outs, m.numStates)
    ensures Observed(m, a, o, outs, Ones(m.numStates)) >= 0.0
    ensures Observed(m, a, o, outs, Ones(m.numStates)) == 0.0 ==> Observed(m, a, o, outs, x) == 0.0
  {
    if outs != [] {
      var e := outs[|outs| - 1];
      assert m.ObsOk(a, e.index);
      var p := m.GetObsProb(a, e.index, o);
      hide BasicPomdp.Valid;
      ObservedZero(m, a, o, outs[..|outs| - 1], x);
      UnitTimes(p);
      ProductNonNegative(e.prob, p);
      ZeroFactor(e.prob, p, x[e.index]);
    }
  }

  lemma ZeroFactor(p: real, q: real, v: real)
    ensures Times(p, q) == 0.0 ==> Times(p, Times(q, v)) == 0.0
  {
    TimesAssoc(p, q, v);
    TimesIs(0.0, v);
  }

  /** An observation of probability 0 contributes nothing. */
  lemma {:induction false} NeverObserved(m: BasicPomdp, a: nat, o: nat, b: REBelief, x: seq<real>)
    requires m.Valid() && a < m.numActions && o < m.numObservations && |x| == m.numStates
    requires BeliefOk(b, m.numStates)
    ensures Joint(m, a, o, b, Ones(m.numStates)) >= 0.0
    ensures Joint(m, a, o, b, Ones(m.numStates)) <= 0.0 ==> Joint(m, a, o, b, x) == 0.0
  {
    if b != [] {
      var e := b[|b| - 1];
      OutcomesOk(m, e.index, a);
      var outs := m.GetActionResult(e.index, a).outcomes;
      hide BasicPomdp.Valid, Observed;
      NeverObserved(m, a, o, b[..|b| - 1], x);
      ObservedZero(m, a, o, outs, x);
      var w := Observed(m, a, o, outs, Ones(m.numStates));
      ProductNonNegative(e.prob, w);
      EitherZero(e.prob, w, Observed(m, a, o, outs, x));
    }
  }

  lemma EitherZero(p: real, w: real, v: real)
    requires w == 0.0 ==> v == 0.0
    ensures Times(p, w) == 0.0 ==> Times(p, v) == 0.0
  {
    if w != 0.0 {
      var q := Times(p, w);
      assert q / w == p;
    }
    TimesIs(p, v);
  }
}
