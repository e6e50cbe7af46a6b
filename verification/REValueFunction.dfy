/** Value iteration over the states of a basic POMDP. Because ties are broken in favour of earlier actions, a sweep
    may miss the best value by TIE_BREAK_EPS, so it is not quite a contraction. */
module REValueFunctions {
  import opened RealArith
  import opened REBasicPomdp

  const TIE_BREAK_EPS: real := 0.000000000001

  // ---------- Breaking ties ----------

  /** The running best of the loop over the actions: a later action must beat it by more than the tolerance. */
  function Pick(q: seq<real>): (a: nat)
    requires |q| > 0
    ensures a < |q|
  {
    var n := |q| - 1;
    if n == 0 then 0
    else
      var a := Pick(q[..n]);
      if q[n] > q[a] + TIE_BREAK_EPS then n else a
  }

  lemma PickPush(q: seq<real>, n: nat)
    requires 0 < n < |q|
    ensures Pick(q[..n + 1]) == if q[n] > q[Pick(q[..n])] + TIE_BREAK_EPS then n else Pick(q[..n])
  {
    assert q[..n + 1][..n] == q[..n];
  }

  /** What is picked is beaten by no action by more than the tolerance, and beats every earlier one. */
  lemma {:induction false} PickIsGood(q: seq<real>)
    requires |q| > 0
    ensures forall a | 0 <= a < |q| :: q[a] <= q[Pick(q)] + TIE_BREAK_EPS
    ensures forall a | 0 <= a < Pick(q) :: q[a] < q[Pick(q)]
  {
    if |q| > 1 {
      PickIsGood(q[..|q| - 1]);
    }
  }

  /** `f` is the first action within the tolerance of the maximum. */
  ghost predicate IsFirstTied(q: seq<real>, f: nat) {
    && f < |q|
    && (forall a | 0 <= a < |q| :: q[a] <= q[f] + TIE_BREAK_EPS)
    && (forall a | 0 <= a < f :: exists b :: 0 <= b < |q| && q[b] > q[a] + TIE_BREAK_EPS)
  }

  /** The first of the tied actions is picked exactly if the running best before it is not within the tolerance. */
  lemma PickIsFirstTied(q: seq<real>, f: nat)
    requires IsFirstTied(q, f)
    ensures Pick(q) == f <==> f == 0 || q[f] > q[Pick(q[..f])] + TIE_BREAK_EPS
  {
    PickStays(q, f, |q|);
    assert q[..|q|] == q;
    if f == 0 {
      assert q[..1] == [q[0]];
    } else {
      PickPush(q, f);
    }
  }

  /** After the first tied action, no action takes over from it. */
  lemma {:induction false} PickStays(q: seq<real>, f: nat, n: nat)
    requires IsFirstTied(q, f) && f < n <= |q|
    ensures Pick(q[..n]) == f <==> Pick(q[..f + 1]) == f
    decreases n
  {
    if n > f + 1 {
      assert q[n - 1] <= q[f] + TIE_BREAK_EPS;
      PickStays(q, f, n - 1);
      PickPush(q, n - 1);
      hide IsFirstTied, Pick;
    }
  }

  /** A model with one observation. */
  function Blind(results: seq<seq<REActionResult>>, numActions: nat): BasicPomdp {
    BasicPomdp(|results|, 1, numActions, results, seq(numActions, _ => seq(|results|, _ => [1.0])))
  }

  lemma BlindIsValid(results: seq<seq<REActionResult>>, numActions: nat)
    requires forall s | 0 <= s < |results| :: |results[s]| == numActions
    requires forall s, a | 0 <= s < |results| && 0 <= a < numActions ::
      && |results[s][a].outcomes| == 1 && results[s][a].outcomes[0].prob == 1.0
      && results[s][a].outcomes[0].index < |results|
    ensures Blind(results, numActions).Valid()
  {
    var m := Blind(results, numActions);
    forall s, a | 0 <= s < m.numStates && 0 <= a < m.numActions
      ensures m.ResultOk(s, a)
    {
      assert results[s][a].outcomes[..0] == [] && Mass([]) == 0.0;
      assert Normalized(results[s][a].outcomes, m.numStates);
    }
    forall a, s | 0 <= a < m.numActions && 0 <= s < m.numStates
      ensures m.ObsOk(a, s)
    {
      assert SumTo([1.0], 0) == 0.0;
    }
  }

  /** An action with the given reward that leads to one state for sure. */
  function Leads(reward: real, next: nat): REActionResult {
    REActionResult(reward, [REBeliefEntry(1.0, next)])
  }

  lemma QOfLeads(m: BasicPomdp, v: seq<real>, s: nat, a: nat, reward: real, next: nat)
    requires m.Valid() && |v| == m.numStates && s < m.numStates && a < m.numActions && next < m.numStates
    requires m.GetActionResult(s, a) == Leads(reward, next)
    ensures GetQ(m, v, s, a) == reward + RE_DISCOUNT * v[next]
  {
    var outs := [REBeliefEntry(1.0, next)];
    assert outs[..0] == [] && Expect([], v) == 0.0;
    assert Expect(outs, v) == Times(1.0, v[next]);
  }

  /** One state, in which three actions are worth 0, 0.9 and 1.8 tolerances. */
  function Staircase(): BasicPomdp {
    Blind([[Leads(0.0, 0), Leads(0.9 * TIE_BREAK_EPS, 0), Leads(1.8 * TIE_BREAK_EPS, 0)]], 3)
  }

  /** Ties are not transitive: there the third action is picked, although the second is within the tolerance of it. */
  lemma FirstTiedIsPassedOver()
    ensures Staircase().Valid()
    ensures var q := Row(Staircase(), [0.0], 0); IsFirstTied(q, 1) && Pick(q) == 2
  {
    var m := Staircase();
    BlindIsValid(m.results, 3);
    QOfLeads(m, [0.0], 0, 0, 0.0, 0);
    QOfLeads(m, [0.0], 0, 1, 0.9 * TIE_BREAK_EPS, 0);
    QOfLeads(m, [0.0], 0, 2, 1.8 * TIE_BREAK_EPS, 0);
    hide Pick, IsFirstTied, GetQ, BasicPomdp.Valid;
    PickOfStairs(Row(m, [0.0], 0));
  }

  lemma PickOfStairs(q: seq<real>)
    requires |q| == 3 && q[0] == 0.0 && q[1] == 0.9 * TIE_BREAK_EPS && q[2] == 1.8 * TIE_BREAK_EPS
    ensures IsFirstTied(q, 1) && Pick(q) == 2
  {
    assert q[2] > q[0] + TIE_BREAK_EPS;
    assert |q[..1]| == 1 && q[..3] == q;
    PickPush(q, 1);
    PickPush(q, 2);
  }

  // ---------- A model on which value iteration does not settle ----------

  /** The least residual that value iteration is sure to get below. */
  const RESIDUAL_LIMIT: real := TIE_BREAK_EPS / (1.0 - RE_DISCOUNT)

  /** The value that states 0 and 1 of the seesaw have when they leave. */
  const SEESAW_LOW: real := 1.0 - RESIDUAL_LIMIT

  /** States 0 and 1 may leave for the absorbing state 3, or go to each other. State 2 is worth less than it looks
      at first, which gets state 0 started ahead of state 1. */
  function Seesaw(): BasicPomdp {
    Blind([[Leads(SEESAW_LOW, 3), Leads(0.05, 1), Leads(1.0, 2)],
           [Leads(SEESAW_LOW, 3), Leads(0.05, 0), Leads(SEESAW_LOW, 3)],
           [Leads(-10.0, 3), Leads(-10.0, 3), Leads(-10.0, 3)],
           [Leads(0.0, 3), Leads(0.0, 3), Leads(0.0, 3)]], 3)
  }

  /** The action leads to one state for sure. */
  ghost predicate Sure(m: BasicPomdp, s: nat, a: nat, reward: real, next: nat) {
    m.Valid() && s < m.numStates && a < m.numActions && m.GetActionResult(s, a) == Leads(reward, next)
  }

  ghost predicate IsSeesaw(m: BasicPomdp, low: real) {
    && m.Valid() && m.numStates == 4 && m.numActions == 3 && 0.05 * (1.0 - low) == TIE_BREAK_EPS
    && Sure(m, 0, 0, low, 3) && Sure(m, 0, 1, 0.05, 1) && Sure(m, 0, 2, 1.0, 2)
    && Sure(m, 1, 0, low, 3) && Sure(m, 1, 1, 0.05, 0) && Sure(m, 1, 2, low, 3)
    && (forall a: nat | a < 3 :: Sure(m, 2, a, -10.0, 3))
    && (forall a: nat | a < 3 :: Sure(m, 3, a, 0.0, 3))
  }

  lemma SeesawIs()
    ensures IsSeesaw(Seesaw(), SEESAW_LOW)
  {
    BlindIsValid(Seesaw().results, 3);
  }

  lemma PickOfThree(q: seq<real>)
    requires |q| == 3
    ensures var best := if q[1] > q[0] + TIE_BREAK_EPS then 1 else 0;
      Pick(q) == if q[2] > q[best] + TIE_BREAK_EPS then 2 else best
  {
    assert q[..2][..1] == q[..1];
    assert Pick(q[..1]) == 0;
  }

  function ThreeWay(x: real, y: real, z: real): real {
    var best := if y > x + TIE_BREAK_EPS then y else x;
    if z > best + TIE_BREAK_EPS then z else best
  }

  /** The value of a state with three sure actions after a sweep. */
  lemma SweptThree(m: BasicPomdp, v: seq<real>, s: nat, r0: real, n0: nat, r1: real, n1: nat, r2: real, n2: nat)
    requires m.Valid() && m.numActions == 3 && |v| == m.numStates && s < m.numStates
    requires n0 < m.numStates && n1 < m.numStates && n2 < m.numStates
    requires Sure(m, s, 0, r0, n0) && Sure(m, s, 1, r1, n1) && Sure(m, s, 2, r2, n2)
    ensures Swept(m, v)[s] == ThreeWay(r0 + RE_DISCOUNT * v[n0], r1 + RE_DISCOUNT * v[n1], r2 + RE_DISCOUNT * v[n2])
  {
    hide BasicPomdp.Valid, GetQ, Pick, BasicPomdp.GetActionResult;
    QOfLeads(m, v, s, 0, r0, n0);
    QOfLeads(m, v, s, 1, r1, n1);
    QOfLeads(m, v, s, 2, r2, n2);
    PickOfThree(Row(m, v, s));
  }

  lemma SeesawSwept(m: BasicPomdp, low: real, v: seq<real>)
    requires IsSeesaw(m, low) && |v| == 4 && v[3] == 0.0
    ensures Swept(m, v) ==
      [ThreeWay(low, 0.05 + RE_DISCOUNT * v[1], 1.0 + RE_DISCOUNT * v[2]),
       ThreeWay(low, 0.05 + RE_DISCOUNT * v[0], low), -10.0, 0.0]
  {
    hide BasicPomdp.Valid, Swept, Sure;
    SweptThree(m, v, 0, low, 3, 0.05, 1, 1.0, 2);
    SweptThree(m, v, 1, low, 3, 0.05, 0, low, 3);
    SweptThree(m, v, 2, -10.0, 3, -10.0, 3, -10.0, 3);
    SweptThree(m, v, 3, 0.0, 3, 0.0, 3, 0.0, 3);
  }

  /** From 0, sweeping leads to `odd`, and then back and forth between `odd` and `even`. */
  ghost predicate TakesTurns(m: BasicPomdp, odd: seq<real>, even: seq<real>) {
    && m.Valid() && m.numActions > 0 && |odd| == |even| == m.numStates
    && Iterate(m, 1) == odd && Swept(m, odd) == even && Swept(m, even) == odd
  }

  lemma {:induction false} TurnAt(m: BasicPomdp, odd: seq<real>, even: seq<real>, k: nat)
    requires TakesTurns(m, odd, even) && k > 0
    ensures Iterate(m, k) == if k % 2 == 1 then odd else even
  {
    hide Swept, BasicPomdp.Valid;
    if k > 1 {
      TurnAt(m, odd, even, k - 1);
      assert Iterate(m, k) == Swept(m, Iterate(m, k - 1));
    }
  }

  lemma SeesawTurn(low: real)
    requires 0.05 * (1.0 - low) == TIE_BREAK_EPS
    ensures ThreeWay(low, 0.05 + RE_DISCOUNT * 0.0, 1.0 + RE_DISCOUNT * 0.0) == 1.0
    ensures ThreeWay(low, 0.05 + RE_DISCOUNT * 0.0, low) == low
    ensures ThreeWay(low, 0.05 + RE_DISCOUNT * low, 1.0 + RE_DISCOUNT * -10.0) == low
    ensures ThreeWay(low, 0.05 + RE_DISCOUNT * 1.0, 1.0 + RE_DISCOUNT * -10.0) == 1.0
    ensures ThreeWay(low, 0.05 + RE_DISCOUNT * 1.0, low) == 1.0
    ensures ThreeWay(low, 0.05 + RE_DISCOUNT * low, low) == low
  {
  }

  /** After the first sweep, states 0 and 1 take turns being worth 1 and being worth less by the limit. */
  lemma SeesawTakesTurns(m: BasicPomdp, low: real)
    requires IsSeesaw(m, low)
    ensures TakesTurns(m, [1.0, low, -10.0, 0.0], [low, 1.0, -10.0, 0.0])
  {
    hide Swept, BasicPomdp.Valid, Sure, ThreeWay;
    var zero, odd, even := [0.0, 0.0, 0.0, 0.0], [1.0, low, -10.0, 0.0], [low, 1.0, -10.0, 0.0];
    SeesawTurn(low);
    FirstIterates(m);
    hide Iterate, IsSeesaw;
    SeesawSwept(m, low, zero);
    SeesawSwept(m, low, odd);
    SeesawSwept(m, low, even);
  }

  lemma FirstIterates(m: BasicPomdp)
    requires m.Valid() && m.numActions > 0 && m.numStates == 4
    ensures Iterate(m, 1) == Swept(m, [0.0, 0.0, 0.0, 0.0])
  {
    hide Swept, BasicPomdp.Valid;
    assert Iterate(m, 0) == [0.0, 0.0, 0.0, 0.0];
  }

  /** Every sweep changes the value of state 0 by at least the limit, so on this model value iteration never gets
      below a residual that is not above the limit. */
  lemma NeverSettles(k: nat, eps: real)
    requires eps <= RESIDUAL_LIMIT
    ensures Seesaw().Valid() && Seesaw().numActions == 3 && Seesaw().numStates == 4
    ensures Distance(Iterate(Seesaw(), k)[0], Iterate(Seesaw(), k + 1)[0]) >= eps
  {
    SeesawIs();
    SeesawSwings(Seesaw(), SEESAW_LOW, k);
  }

  lemma SeesawSwings(m: BasicPomdp, low: real, k: nat)
    requires IsSeesaw(m, low)
    ensures Distance(Iterate(m, k)[0], Iterate(m, k + 1)[0]) >= 1.0 - low
  {
    var odd, even := [1.0, low, -10.0, 0.0], [low, 1.0, -10.0, 0.0];
    SeesawTakesTurns(m, low);
    assert Iterate(m, 0)[0] == 0.0;
    hide Iterate, BasicPomdp.Valid, Sure, TakesTurns;
    TurnAt(m, odd, even, k + 1);
    if k > 0 {
      TurnAt(m, odd, even, k);
    }
  }

  // ---------- Sweeps ----------

  /** The values of the actions in a state. */
  function Row(m: BasicPomdp, v: seq<real>, s: nat): (q: seq<real>)
    requires m.Valid() && |v| == m.numStates && s < m.numStates
    ensures |q| == m.numActions && forall a | 0 <= a < m.numActions :: q[a] == GetQ(m, v, s, a)
  {
    seq(m.numActions, a requires 0 <= a < m.numActions => GetQ(m, v, s, a))
  }

  /** `v` after one sweep. */
  function Swept(m: BasicPomdp, v: seq<real>): (w: seq<real>)
    requires m.Valid() && m.numActions > 0 && |v| == m.numStates
    ensures |w| == m.numStates
  {
    seq(m.numStates, s requires 0 <= s < m.numStates => Row(m, v, s)[Pick(Row(m, v, s))])
  }

  /** The value function after `k` sweeps. */
  function Iterate(m: BasicPomdp, k: nat): (v: seq<real>)
    requires m.Valid() && m.numActions > 0
    ensures |v| == m.numStates
  {
    if k == 0 then seq(m.numStates, _ => 0.0) else Swept(m, Iterate(m, k - 1))
  }

  function Distance(x: real, y: real): real {
    if x <= y then y - x else x - y
  }

  /** Nowhere more than `d` apart. */
  ghost predicate Near(v: seq<real>, w: seq<real>, d: real) {
    |v| == |w| && forall s | 0 <= s < |v| :: Distance(v[s], w[s]) <= d
  }

  /** `val` is the value of some action, and no action beats it by more than `slack`. */
  ghost predicate IsUpdated(m: BasicPomdp, v: seq<real>, s: nat, val: real, slack: real)
    requires m.Valid() && |v| == m.numStates && s < m.numStates
  {
    && (exists a: nat :: a < m.numActions && GetQ(m, v, s, a) == val)
    && (forall a: nat | a < m.numActions :: GetQ(m, v, s, a) <= val + slack)
  }

  /** `w` is `v` after a sweep. */
  ghost predicate IsSweep(m: BasicPomdp, v: seq<real>, w: seq<real>, slack: real)
    requires m.Valid()
  {
    |v| == |w| == m.numStates && forall s | 0 <= s < m.numStates :: IsUpdated(m, v, s, w[s], slack)
  }

  /** `v` solves the Bellman equation. */
  ghost predicate IsOptimal(m: BasicPomdp, v: seq<real>)
    requires m.Valid()
  {
    IsSweep(m, v, v, 0.0)
  }

  lemma SweptIsSweep(m: BasicPomdp, v: seq<real>)
    requires m.Valid() && m.numActions > 0 && |v| == m.numStates
    ensures IsSweep(m, v, Swept(m, v), TIE_BREAK_EPS)
  {
    hide GetQ, BasicPomdp.Valid, Pick;
    forall s | 0 <= s < m.numStates
      ensures IsUpdated(m, v, s, Swept(m, v)[s], TIE_BREAK_EPS)
    {
      var q := Row(m, v, s);
      PickIsGood(q);
      assert q[Pick(q)] == GetQ(m, v, s, Pick(q));
      forall a: nat | a < m.numActions
        ensures GetQ(m, v, s, a) <= q[Pick(q)] + TIE_BREAK_EPS
      {
        assert q[a] == GetQ(m, v, s, a);
      }
    }
  }

  lemma {:induction false} ExpectShift(b: REBelief, v: seq<real>, w: seq<real>, d: real)
    requires |v| == |w| && BeliefOk(b, |v|) && forall s | 0 <= s < |v| :: v[s] <= w[s] + d
    ensures Expect(b, v) <= Expect(b, w) + Times(Mass(b), d)
  {
    if b == [] {
      TimesIs(0.0, d);
    } else {
      var front, e := b[..|b| - 1], b[|b| - 1];
      ExpectShift(front, v, w, d);
      TimesMono(e.prob, v[e.index], w[e.index] + d);
      TimesPlus(e.prob, w[e.index], d);
      TimesPlus(d, Mass(front), e.prob);
    }
  }

  lemma QShift(m: BasicPomdp, v: seq<real>, w: seq<real>, s: nat, a: nat, d: real)
    requires m.Valid() && |v| == |w| == m.numStates && s < m.numStates && a < m.numActions
    requires forall t | 0 <= t < |v| :: v[t] <= w[t] + d
    ensures GetQ(m, v, s, a) <= GetQ(m, w, s, a) + RE_DISCOUNT * d
  {
    OutcomesOk(m, s, a);
    var outs := m.GetActionResult(s, a).outcomes;
    hide BasicPomdp.Valid, BasicPomdp.GetActionResult, GetValueOf;
    ExpectShift(outs, v, w, d);
    TimesIs(1.0, d);
    TimesMono(RE_DISCOUNT, Expect(outs, v), Expect(outs, w) + d);
    TimesPlus(RE_DISCOUNT, Expect(outs, w), d);
  }

  /** A sweep is below any other sweep, up to the discounted difference of what they start from and the slack. */
  lemma SweepShift(m: BasicPomdp, v: seq<real>, v': seq<real>, w: seq<real>, w': seq<real>, d: real, sv: real,
      sw: real, s: nat)
    requires m.Valid() && IsSweep(m, v, v', sv) && IsSweep(m, w, w', sw) && Near(v, w, d) && s < m.numStates
    ensures v'[s] <= w'[s] + RE_DISCOUNT * d + sw
  {
    hide BasicPomdp.Valid, GetQ;
    assert IsUpdated(m, v, s, v'[s], sv) && IsUpdated(m, w, s, w'[s], sw);
    var a: nat :| a < m.numActions && GetQ(m, v, s, a) == v'[s];
    forall t | 0 <= t < |v|
      ensures v[t] <= w[t] + d
    {
      assert Distance(v[t], w[t]) <= d;
    }
    QShift(m, v, w, s, a, d);
  }

  lemma NearFlip(v: seq<real>, w: seq<real>, d: real)
    requires Near(v, w, d)
    ensures Near(w, v, d)
  {
    forall s | 0 <= s < |v|
      ensures Distance(w[s], v[s]) <= d
    {
      assert Distance(v[s], w[s]) <= d;
    }
  }

  /** Sweeping brings two value functions together, except for the slack. */
  lemma SweepContracts(m: BasicPomdp, v: seq<real>, v': seq<real>, w: seq<real>, w': seq<real>, d: real)
    requires m.Valid() && IsSweep(m, v, v', TIE_BREAK_EPS) && IsSweep(m, w, w', TIE_BREAK_EPS) && Near(v, w, d)
    ensures Near(v', w', RE_DISCOUNT * d + TIE_BREAK_EPS)
  {
    NearFlip(v, w, d);
    forall s | 0 <= s < m.numStates
      ensures Distance(v'[s], w'[s]) <= RE_DISCOUNT * d + TIE_BREAK_EPS
    {
      SweepShift(m, v, v', w, w', d, TIE_BREAK_EPS, TIE_BREAK_EPS, s);
      SweepShift(m, w, w', v, v', d, TIE_BREAK_EPS, TIE_BREAK_EPS, s);
    }
  }

  /** The largest distance is attained. */
  lemma {:induction false} Farthest(v: seq<real>, w: seq<real>, n: nat) returns (d: real)
    requires |v| == |w| && n <= |v|
    ensures d >= 0.0 && forall s | 0 <= s < n :: Distance(v[s], w[s]) <= d
    ensures d == 0.0 || exists s :: 0 <= s < n && Distance(v[s], w[s]) == d
  {
    d := 0.0;
    if n > 0 {
      d := Farthest(v, w, n - 1);
      if Distance(v[n - 1], w[n - 1]) > d {
        d := Distance(v[n - 1], w[n - 1]);
      }
    }
  }

  lemma NearTrans(u: seq<real>, v: seq<real>, w: seq<real>, d: real, e: real)
    requires Near(u, v, d) && Near(v, w, e)
    ensures Near(u, w, d + e)
  {
    forall s | 0 <= s < |u|
      ensures Distance(u[s], w[s]) <= d + e
    {
      assert Distance(u[s], v[s]) <= d && Distance(v[s], w[s]) <= e;
    }
  }

  /** How far from optimal value iteration may stop, given the residual of its last sweep. */
  function Tolerance(residual: real): real {
    (RE_DISCOUNT * residual + TIE_BREAK_EPS) / (1.0 - RE_DISCOUNT)
  }

  /** A sweep that changes little is close to every solution of the Bellman equation. */
  lemma SweepNearOptimal(m: BasicPomdp, v: seq<real>, v': seq<real>, opt: seq<real>, residual: real)
    requires m.Valid() && IsSweep(m, v, v', TIE_BREAK_EPS) && Near(v, v', residual)
    requires IsOptimal(m, opt) && residual >= 0.0
    ensures Near(v', opt, Tolerance(residual))
  {
    hide BasicPomdp.Valid, IsUpdated;
    var d := Farthest(v', opt, |v'|);
    assert Near(v', opt, d);
    NearTrans(v, v', opt, residual, d);
    NearFlip(v, opt, residual + d);
    if s :| 0 <= s < |v'| && Distance(v'[s], opt[s]) == d {
      SweepShift(m, v, v', opt, opt, residual + d, TIE_BREAK_EPS, 0.0, s);
      SweepShift(m, opt, opt, v, v', residual + d, 0.0, TIE_BREAK_EPS, s);
    }
    assert d <= Tolerance(residual);
  }

  lemma FloorFalls(x: real, y: real, step: real)
    requires step > 0.0 && x <= y - step
    ensures (x / step).Floor < (y / step).Floor
  {
    var a, b := x / step, y / step;
    assert a * step == x && b * step == y;
    assert (b - 1.0) * step == y - step;
    CancelFactor(a, b - 1.0, step);
  }

  /** Some sweep changes every value by less than `eps`. */
  ghost predicate Settles(m: BasicPomdp, eps: real)
    requires m.Valid() && m.numActions > 0
  {
    exists k: nat :: ChangesLess(m, k, eps)
  }

  ghost predicate ChangesLess(m: BasicPomdp, k: nat, eps: real)
    requires m.Valid() && m.numActions > 0
  {
    eps > 0.0 && forall s | 0 <= s < m.numStates :: Distance(Iterate(m, k)[s], Iterate(m, k + 1)[s]) < eps
  }

  lemma {:induction false} SettlesFrom(m: BasicPomdp, k: nat, residual: real, eps: real)
    requires m.Valid() && m.numActions > 0 && eps > RESIDUAL_LIMIT
    requires residual >= 0.0 && Near(Iterate(m, k), Iterate(m, k + 1), residual)
    ensures Settles(m, eps)
    decreases (residual / ((1.0 - RE_DISCOUNT) * (eps - RESIDUAL_LIMIT))).Floor
  {
    hide BasicPomdp.Valid, Swept;
    if residual < eps {
      assert ChangesLess(m, k, eps);
    } else {
      var next := RE_DISCOUNT * residual + TIE_BREAK_EPS;
      SweptIsSweep(m, Iterate(m, k));
      SweptIsSweep(m, Iterate(m, k + 1));
      SweepContracts(m, Iterate(m, k), Iterate(m, k + 1), Iterate(m, k + 1), Iterate(m, k + 2), residual);
      FloorFalls(next, residual, (1.0 - RE_DISCOUNT) * (eps - RESIDUAL_LIMIT));
      SettlesFrom(m, k + 1, next, eps);
    }
  }

  /** Value iteration gets below the residual `eps` on every model exactly if `eps` is above the limit. */
  lemma SettlesExactly(eps: real)
    ensures (forall m: BasicPomdp | m.Valid() && m.numActions > 0 :: Settles(m, eps)) <==> eps > RESIDUAL_LIMIT
  {
    if eps > RESIDUAL_LIMIT {
      forall m: BasicPomdp | m.Valid() && m.numActions > 0
        ensures Settles(m, eps)
      {
        hide BasicPomdp.Valid, Iterate;
        var d := Farthest(Iterate(m, 0), Iterate(m, 1), m.numStates);
        SettlesFrom(m, 0, d, eps);
      }
    } else {
      SeesawIs();
      hide Seesaw, BasicPomdp.Valid, Iterate;
      assert Seesaw().Valid() && Seesaw().numActions > 0;
      forall k: nat
        ensures !ChangesLess(Seesaw(), k, eps)
      {
        NeverSettles(k, eps);
      }
      assert !Settles(Seesaw(), eps);
    }
  }

  class REValueFunction {
    const m: BasicPomdp
    var V: seq<real>
    var Vp: seq<real>

    ghost predicate Valid()
      reads this
    {
      m.Valid() && m.numActions > 0 && |V| == |Vp| == m.numStates
    }

    constructor (m: BasicPomdp)
      requires m.Valid() && m.numActions > 0
      ensures Valid() && this.m == m
    {
      this.m := m;
      V, Vp := seq(m.numStates, s => 0.0), seq(m.numStates, s => 0.0);
    }

    method Init()
      requires m.Valid() && m.numActions > 0
      modifies this
      ensures Valid() && forall s | 0 <= s < |V| :: V[s] == 0.0
    {
      V, Vp := seq(m.numStates, s => 0.0), seq(m.numStates, s => 0.0);
    }

    /** The loop over the actions picks as `Pick` does. */
    method GetMaxQAction(s: nat) returns (maxQAction: nat)
      requires Valid() && s < m.numStates
      ensures maxQAction == Pick(Row(m, V, s))
      ensures maxQAction < m.numActions
      ensures forall a: nat | a < m.numActions :: GetQ(m, V, s, a) <= GetQ(m, V, s, maxQAction) + TIE_BREAK_EPS
      ensures forall a: nat | a < maxQAction :: GetQ(m, V, s, a) < GetQ(m, V, s, maxQAction)
    {
      hide GetQ, BasicPomdp.Valid, Pick;
      ghost var row := Row(m, V, s);
      maxQAction := 0;
      var maxQsa := GetQ(m, V, s, 0);
      PickFirst(row);
      for a := 1 to m.numActions
        invariant maxQAction < a && maxQsa == row[maxQAction] && maxQAction == Pick(row[..a])
      {
        var qsa := GetQ(m, V, s, a);
        PickPush(row, a);
        if qsa > maxQsa + TIE_BREAK_EPS {
          maxQsa, maxQAction := qsa, a;
        }
      }
      assert row[..|row|] == row;
      PickIsGood(row);
      forall a: nat | a < m.numActions
        ensures GetQ(m, V, s, a) <= GetQ(m, V, s, maxQAction) + TIE_BREAK_EPS
        ensures a < maxQAction ==> GetQ(m, V, s, a) < GetQ(m, V, s, maxQAction)
      {
        assert row[a] == GetQ(m, V, s, a);
      }
    }

    method GetUpdatedValue(s: nat) returns (val: real)
      requires Valid() && s < m.numStates
      ensures val == Swept(m, V)[s]
    {
      hide GetQ, BasicPomdp.Valid, Pick;
      var a := GetMaxQAction(s);
      val := GetQ(m, V, s, a);
    }

    /** Updates all states at once; returns the largest change. */
    method ValueIterationSweep() returns (maxResidual: real)
      requires Valid()
      modifies this
      ensures Valid() && Vp == V == Swept(m, old(V)) && IsSweep(m, old(V), V, TIE_BREAK_EPS)
      ensures maxResidual >= 0.0 && Near(old(V), V, maxResidual)
      ensures maxResidual == 0.0 || exists s :: 0 <= s < |V| && Distance(old(V)[s], V[s]) == maxResidual
    {
      hide IsUpdated, BasicPomdp.Valid, Swept, IsSweep;
      maxResidual := 0.0;
      SweptIsSweep(m, V);
      for s := 0 to |V|
        invariant Valid() && V == old(V) && maxResidual >= 0.0
        invariant forall t | 0 <= t < s :: Vp[t] == Swept(m, V)[t] && Distance(V[t], Vp[t]) <= maxResidual
        invariant maxResidual == 0.0 || exists t :: 0 <= t < s && Distance(V[t], Vp[t]) == maxResidual
      {
        var val := GetUpdatedValue(s);
        ghost var before := Vp;
        Vp := Vp[s := val];
        assert forall t | 0 <= t < s :: Vp[t] == before[t];
        if Distance(V[s], val) > maxResidual {
          maxResidual := Distance(V[s], val);
          assert Distance(V[s], Vp[s]) == maxResidual;
        }
      }
      V := Vp;
    }

    /** Sweeps until the residual is below `eps`. That terminates on every model exactly for the `eps` above the limit
        that breaking ties imposes, and the result is then close to every solution of the Bellman equation. */
    method ValueIterationToResidual(eps: real)
      requires Valid() && eps > RESIDUAL_LIMIT
      modifies this
      ensures Valid()
      ensures exists k: nat :: V == Iterate(m, k + 1) && Near(Iterate(m, k), V, eps)
      ensures forall opt | IsOptimal(m, opt) :: Near(V, opt, Tolerance(eps))
    {
      hide BasicPomdp.Valid, IsSweep, Near, Swept;
      Init();
      ghost var k: nat := 0;
      assert V == Iterate(m, 0);
      ghost var step := (1.0 - RE_DISCOUNT) * (eps - RESIDUAL_LIMIT);
      var residual := ValueIterationSweep();
      while residual >= eps
        invariant Valid() && residual >= 0.0 && V == Iterate(m, k + 1)
        invariant IsSweep(m, Iterate(m, k), V, TIE_BREAK_EPS) && Near(Iterate(m, k), V, residual)
        decreases (residual / step).Floor
      {
        ghost var w, before := V, residual;
        residual := ValueIterationSweep();
        SweepContracts(m, Iterate(m, k), w, w, V, before);
        ResidualFalls(Iterate(m, k), w, V, before, residual);
        FloorFalls(residual, before, step);
        k := k + 1;
      }
      NearWiden(Iterate(m, k), V, residual, eps);
      forall opt | IsOptimal(m, opt)
        ensures Near(V, opt, Tolerance(eps))
      {
        SweepNearOptimal(m, Iterate(m, k), V, opt, eps);
      }
    }
  }

  lemma PickFirst(q: seq<real>)
    requires |q| > 0
    ensures Pick(q[..1]) == 0
  {
  }

  lemma ResidualFalls(v: seq<real>, w: seq<real>, u: seq<real>, before: real, residual: real)
    requires before >= 0.0 && Near(w, u, RE_DISCOUNT * before + TIE_BREAK_EPS)
    requires residual == 0.0 || exists s :: 0 <= s < |u| && Distance(w[s], u[s]) == residual
    ensures residual <= RE_DISCOUNT * before + TIE_BREAK_EPS
  {
  }

  lemma NearWiden(v: seq<real>, w: seq<real>, d: real, e: real)
    requires Near(v, w, d) && d <= e
    ensures Near(v, w, e)
  {
  }
}
