/** Markov decision processes, and expectations over the edges of the search graph. */
module Mdp {
  import opened Wrappers
  import opened RealArith

  /** A state is identified by its hash key; the keys are taken to be injective. */
  type State = nat

  /** A node is identified by its position in the node arena, which plays the part of its address. */
  type NodeId = nat

  datatype Outcome = Outcome(prob: real, next: State)

  /** `outcomes` merges the outcome probability vector and the next-state query of the source. */
  datatype Mdp = Mdp(
    states: set<State>,
    initial: State,
    numActions: nat,
    discount: real,
    isTerminal: State -> bool,
    reward: (State, nat) -> real,
    outcomes: (State, nat) -> seq<Outcome>)
  {
    ghost predicate Valid() {
      && initial in states
      && 0 < numActions
      && 0.0 <= discount <= 1.0
      && forall s, a: nat | s in states && a < numActions :: Distribution(outcomes(s, a))
    }

    ghost predicate Distribution(outs: seq<Outcome>) {
      && (forall o | 0 <= o < |outs| :: outs[o].prob >= 0.0 && (outs[o].prob > 0.0 ==> outs[o].next in states))
      && OutcomeMass(outs) == 1.0
    }
  }

  ghost function OutcomeMass(outs: seq<Outcome>): real {
    if outs == [] then 0.0 else OutcomeMass(outs[..|outs| - 1]) + outs[|outs| - 1].prob
  }

  /** The expectation of a value function over a vector of outcomes. */
  ghost function OutcomeExp(outs: seq<Outcome>, U: State -> real): real {
    if outs == [] then 0.0
    else OutcomeExp(outs[..|outs| - 1], U) + outs[|outs| - 1].prob * U(outs[|outs| - 1].next)
  }

  /** The one-step lookahead value of an action under the value function `U`. */
  ghost function Lookahead(m: Mdp, U: State -> real, s: State, a: nat): real {
    m.reward(s, a) + m.discount * OutcomeExp(m.outcomes(s, a), U)
  }

  /** The expectation is linear in the value function, and the expectation of a constant is that constant. So the
      lookahead on a constant is the reward plus the discounted constant, and shifting the value function shifts the
      lookahead by the discounted shift. */
  lemma LookaheadLaws(m: Mdp, U: State -> real, W: State -> real, k: real, s: State, a: nat)
    requires m.Valid() && s in m.states && a < m.numActions
    ensures Lookahead(m, (x: State) => k, s, a) == m.reward(s, a) + m.discount * k
    ensures Lookahead(m, (x: State) => U(x) + W(x), s, a) ==
      Lookahead(m, U, s, a) + m.discount * OutcomeExp(m.outcomes(s, a), W)
  {
    var outs := m.outcomes(s, a);
    assert m.Distribution(outs);
    ExpOfConstant(outs, k);
    ExpOfSum(outs, U, W);
    assert m.discount * (OutcomeExp(outs, U) + OutcomeExp(outs, W)) ==
      m.discount * OutcomeExp(outs, U) + m.discount * OutcomeExp(outs, W);
  }

  lemma {:induction false} ExpOfConstant(outs: seq<Outcome>, k: real)
    ensures OutcomeExp(outs, (x: State) => k) == OutcomeMass(outs) * k
  {
    if outs != [] {
      ExpOfConstant(outs[..|outs| - 1], k);
    }
  }

  lemma {:induction false} ExpOfSum(outs: seq<Outcome>, U: State -> real, W: State -> real)
    ensures OutcomeExp(outs, (x: State) => U(x) + W(x)) == OutcomeExp(outs, U) + OutcomeExp(outs, W)
  {
    if outs != [] {
      ExpOfSum(outs[..|outs| - 1], U, W);
    }
  }

  /** A sure outcome. */
  lemma SureLookahead(m: Mdp, U: State -> real, s: State, a: nat, next: State)
    requires m.outcomes(s, a) == [Outcome(1.0, next)]
    ensures Lookahead(m, U, s, a) == m.reward(s, a) + m.discount * U(next)
  {
    var outs := m.outcomes(s, a);
    assert outs[..0] == [] && OutcomeExp(outs, U) == OutcomeExp(outs[..0], U) + 1.0 * U(next);
  }

  /** `V` solves the Bellman optimality equation and is 0 on the terminal states. */
  ghost predicate BellmanOptimal(m: Mdp, V: State -> real) {
    forall s | s in m.states ::
      && (m.isTerminal(s) ==> V(s) == 0.0)
      && (forall a: nat | a < m.numActions :: Lookahead(m, V, s, a) <= V(s))
      && (exists a: nat :: a < m.numActions && V(s) == Lookahead(m, V, s, a))
  }

  // ---------- Expectations over graph edges ----------

  datatype Edge = Edge(obsProb: real, nextState: NodeId)

  /** True if every edge that is present leads to one of the first `n` nodes with positive probability. */
  ghost predicate Within(es: seq<Option<Edge>>, n: nat) {
    forall o | 0 <= o < |es| && es[o].Some? :: es[o].value.nextState < n && es[o].value.obsProb > 0.0
  }

  function Term(e: Option<Edge>, v: seq<real>): real
    requires e.Some? ==> e.value.nextState < |v|
  {
    if e.Some? then e.value.obsProb * v[e.value.nextState] else 0.0
  }

  /** The expectation of the node values `v` over the edges of one action. */
  ghost function Exp(es: seq<Option<Edge>>, v: seq<real>): real
    requires Within(es, |v|)
  {
    if es == [] then 0.0 else Exp(es[..|es| - 1], v) + Term(es[|es| - 1], v)
  }

  ghost function Mass(es: seq<Option<Edge>>): real {
    if es == [] then 0.0
    else Mass(es[..|es| - 1]) + EdgeProb(es[|es| - 1])
  }

  function EdgeProb(e: Option<Edge>): real {
    if e.Some? then e.value.obsProb else 0.0
  }

  lemma TermShift(e: Option<Edge>, v: seq<real>, w: seq<real>, c: real, m: real)
    requires e.Some? ==> e.value.nextState < |v| && e.value.nextState < |w| && e.value.obsProb >= 0.0
    requires e.Some? ==> v[e.value.nextState] <= w[e.value.nextState] + c
    ensures Term(e, v) <= Term(e, w) + Times(c, m + EdgeProb(e)) - Times(c, m)
  {
    if e.Some? {
      ShiftedTerm(e.value.obsProb, v[e.value.nextState], w[e.value.nextState], c, 0.0, 0.0 - Times(c, m), m);
    }
  }

  /** Raising every successor by at most `c` raises the expectation by at most `c` times the mass. */
  lemma {:induction false} ExpShift(es: seq<Option<Edge>>, v: seq<real>, w: seq<real>, c: real)
    requires Within(es, |v|) && Within(es, |w|)
    requires forall o | 0 <= o < |es| && es[o].Some? :: v[es[o].value.nextState] <= w[es[o].value.nextState] + c
    ensures Exp(es, v) <= Exp(es, w) + Times(c, Mass(es))
  {
    hide Term, Times;
    if es == [] {
      TimesIs(c, 0.0);
    } else {
      var front := es[..|es| - 1];
      ExpShift(front, v, w, c);
      TermShift(es[|es| - 1], v, w, c, Mass(front));
    }
  }

  /** The same edges seen as values over states: the expectation agrees with the model's. */
  lemma {:induction false} ExpOfModel(outs: seq<Outcome>, es: seq<Option<Edge>>, v: seq<real>, U: State -> real)
    requires |es| == |outs| && Within(es, |v|)
    requires forall o | 0 <= o < |outs| :: if outs[o].prob > 0.0
        then es[o].Some? && es[o].value.obsProb == outs[o].prob && v[es[o].value.nextState] == U(outs[o].next)
        else es[o].None? && outs[o].prob == 0.0
    ensures Exp(es, v) == OutcomeExp(outs, U)
    ensures Mass(es) == OutcomeMass(outs)
  {
    if es != [] {
      var n := |es| - 1;
      ExpOfModel(outs[..n], es[..n], v, U);
      assert outs[n].prob > 0.0 || outs[n].prob == 0.0;
    }
  }
}
