/** The FRTDP search: trials that follow the outcome of highest cached priority. Priorities are kept as
    exponentials of the source's logarithmic ones, so minus infinity is 0, sums are products, and comparisons come
    out the same way. */
module FrtdpSearch {
  import opened Wrappers
  import opened RealArith
  import opened Mdp
  import opened BoundPairs
  import opened BoundTheory

  /** The part of the target precision that does not count as excess width. */
  const PRIO_IMPROVEMENT_CONSTANT: real := 0.5

  function ExcessWidth(n: MDPNode, targetPrecision: real): real {
    Width(n) - PRIO_IMPROVEMENT_CONSTANT * targetPrecision
  }

  /** The priority of a node whose successors are unknown: its excess width, or 0 without any. */
  function InitialPrio(n: MDPNode, targetPrecision: real): real {
    Max(0.0, ExcessWidth(n, targetPrecision))
  }

  /** A priority is 0 exactly when there is no excess width, and never more than the excess width. */
  ghost predicate PrioOk(n: MDPNode, prio: real, targetPrecision: real) {
    && 0.0 <= prio
    && (prio == 0.0 <==> ExcessWidth(n, targetPrecision) <= 0.0)
    && (prio > 0.0 ==> prio <= ExcessWidth(n, targetPrecision))
  }

  ghost predicate PriosOk(nodes: seq<MDPNode>, prio: seq<real>, targetPrecision: real) {
    |prio| == |nodes| && forall i | 0 <= i < |nodes| :: PrioOk(nodes[i], prio[i], targetPrecision)
  }

  /** The weighted priority of an edge, 0 where there is none. */
  ghost function EdgePrio(c: Config, prio: seq<real>, e: Option<Edge>): real {
    if e.Some? && e.value.nextState < |prio| then c.problem.discount * e.value.obsProb * prio[e.value.nextState]
    else 0.0
  }

  /** The weight of an edge is the probability of taking it, discounted: a sure edge passes the priority of its
      node on, discounted, and the probabilities of edges taken one after the other multiply. */
  lemma WeightsMultiply(c: Config, prio: seq<real>, k: NodeId, p: real, r: real)
    requires k < |prio|
    ensures EdgePrio(c, prio, Some(Edge(1.0, k))) == Times(c.problem.discount, prio[k])
    ensures EdgePrio(c, prio, Some(Edge(p * r, k))) == Times(p, EdgePrio(c, prio, Some(Edge(r, k))))
  {
    var g, x := c.problem.discount, prio[k];
    assert g * (p * r) * x == p * (g * r * x);
  }

  /** `outcome` is the first of highest weighted priority, -1 if none is positive. */
  ghost predicate HighestPrio(c: Config, prio: seq<real>, es: seq<Option<Edge>>, outcome: int, maxPrio: real) {
    && (outcome == -1 ==> maxPrio == 0.0)
    && (outcome != -1 ==>
          && 0 <= outcome < |es| && es[outcome].Some? && es[outcome].value.nextState < |prio|
          && 0.0 < maxPrio == EdgePrio(c, prio, es[outcome]))
    && (forall o | 0 <= o < |es| :: EdgePrio(c, prio, es[o]) <= maxPrio)
    && (forall o | 0 <= o < outcome && o < |es| :: EdgePrio(c, prio, es[o]) < maxPrio)
  }

  // ---------- What a trial does ----------

  /** The nodes and their priorities. */
  datatype Shot = Shot(nodes: seq<MDPNode>, prio: seq<real>)

  /** One update of node `k`, reporting an action and an outcome. The outcome is chosen while `k` still has its old
      priority; then `k` gets the priority of that outcome or its excess width, whichever is less. */
  ghost predicate Updated(c: Config, target: real, s: Shot, k: NodeId, t: Shot, a: nat, outcome: int) {
    && UpdateStep(c, s.nodes, k, t.nodes, a)
    && |s.prio| == |s.nodes| && |t.prio| == |t.nodes|
    && (forall i | 0 <= i < |s.prio| && i != k :: t.prio[i] == s.prio[i])
    && (forall i | |s.prio| <= i < |t.prio| :: t.prio[i] == InitialPrio(t.nodes[i], target))
    && a < |t.nodes[k].Q|
    && exists maxPrio ::
         && HighestPrio(c, t.prio[k := s.prio[k]], t.nodes[k].Q[a].outcomes, outcome, maxPrio)
         && t.prio[k] == Min(maxPrio, InitialPrio(t.nodes[k], target))
  }

  ghost predicate LeadsTo(nodes: seq<MDPNode>, k: NodeId, a: nat, o: int, next: NodeId) {
    && k < |nodes| && a < |nodes[k].Q| && 0 <= o < |nodes[k].Q[a].outcomes|
    && nodes[k].Q[a].outcomes[o].Some? && nodes[k].Q[a].outcomes[o].value.nextState == next
  }

  /** Node `k` is updated and left with excess width within the depth limit, and the trial goes on with `next`, the
      outcome of the reported action that has the highest weighted priority. */
  ghost predicate StepDown(c: Config, target: real, maxDepth: real, depth: nat, s: Shot, k: NodeId, t: Shot,
      next: NodeId) {
    && k < |t.nodes| && ExcessWidth(t.nodes[k], target) > 0.0 && depth as real <= maxDepth
    && exists a, o :: Updated(c, target, s, k, t, a, o) && LeadsTo(t.nodes, k, a, o, next)
  }

  /** Node `k` is updated, and the trial stops there. */
  ghost predicate Bottom(c: Config, target: real, maxDepth: real, depth: nat, s: Shot, k: NodeId, t: Shot) {
    && k < |t.nodes| && (ExcessWidth(t.nodes[k], target) <= 0.0 || depth as real > maxDepth)
    && exists a, o :: Updated(c, target, s, k, t, a, o)
  }

  ghost predicate StepUp(c: Config, target: real, s: Shot, k: NodeId, t: Shot) {
    exists a, o :: Updated(c, target, s, k, t, a, o)
  }

  /** The nodes that a trial visits, the state before each is updated on the way down and after the last of these
      updates, and the state in which the visit of each ends. */
  datatype Path = Path(ks: seq<NodeId>, down: seq<Shot>, up: seq<Shot>)

  /** A trial from the first node of a path at the given depth, from `s` to `t`: one step down after the other to a
      node where it stops, and then every other node is updated again, deepest first. */
  ghost predicate IsTrial(c: Config, target: real, maxDepth: real, depth: nat, s: Shot, p: Path, t: Shot) {
    var n := |p.ks|;
    && n > 0 && |p.down| == n + 1 && |p.up| == n
    && p.down[0] == s && p.up[n - 1] == p.down[n] && p.up[0] == t
    && Bottom(c, target, maxDepth, depth + n - 1, p.down[n - 1], p.ks[n - 1], p.down[n])
    && (forall i | 0 <= i < n - 1 ::
          StepDown(c, target, maxDepth, depth + i, p.down[i], p.ks[i], p.down[i + 1], p.ks[i + 1]))
    && (forall i | 0 <= i < n - 1 :: StepUp(c, target, p.up[i + 1], p.ks[i], p.up[i]))
  }

  lemma TrialStops(c: Config, target: real, maxDepth: real, depth: nat, s: Shot, k: NodeId, t: Shot)
    requires Bottom(c, target, maxDepth, depth, s, k, t)
    ensures IsTrial(c, target, maxDepth, depth, s, Path([k], [s, t], [t]), t)
  {
  }

  lemma TrialGoesOn(c: Config, target: real, maxDepth: real, depth: nat, s: Shot, k: NodeId, t: Shot, p: Path,
      u: Shot, v: Shot)
    requires p.ks != [] && StepDown(c, target, maxDepth, depth, s, k, t, p.ks[0])
    requires IsTrial(c, target, maxDepth, depth + 1, t, p, u) && StepUp(c, target, u, k, v)
    ensures IsTrial(c, target, maxDepth, depth, s, Path([k] + p.ks, [s] + p.down, [v] + p.up), v)
  {
    hide StepDown, StepUp, Bottom;
    var q := Path([k] + p.ks, [s] + p.down, [v] + p.up);
    var n := |p.ks|;
    assert q.ks[n] == p.ks[n - 1] && q.down[n] == p.down[n - 1] && q.down[n + 1] == p.down[n] && q.up[n] == p.up[n - 1];
    assert depth + (n + 1) - 1 == depth + 1 + n - 1;
    forall i | 0 <= i < n
      ensures StepDown(c, target, maxDepth, depth + i, q.down[i], q.ks[i], q.down[i + 1], q.ks[i + 1])
      ensures StepUp(c, target, q.up[i + 1], q.ks[i], q.up[i])
    {
      if i > 0 {
        assert StepDown(c, target, maxDepth, depth + 1 + (i - 1), p.down[i - 1], p.ks[i - 1], p.down[i], p.ks[i]);
        assert StepUp(c, target, p.up[i], p.ks[i - 1], p.up[i - 1]);
        assert depth + 1 + (i - 1) == depth + i;
      }
    }
  }

  /** A trial goes at most one node beyond the depth limit. */
  lemma TrialIsShallow(c: Config, target: real, maxDepth: real, depth: nat, s: Shot, p: Path, t: Shot)
    requires IsTrial(c, target, maxDepth, depth, s, p, t)
    ensures |p.ks| == 1 || (depth + |p.ks| - 2) as real <= maxDepth
  {
    var n := |p.ks|;
    if n > 1 {
      assert StepDown(c, target, maxDepth, depth + (n - 2), p.down[n - 2], p.ks[n - 2], p.down[n - 1], p.ks[n - 1]);
      assert depth + n - 2 == depth + (n - 2);
    }
  }

  /** After an update, a node with excess width has a successor of positive weighted priority.
      `prio` are the priorities before the node's own priority is recomputed. */
  lemma SomePositivePriority(c: Config, before: seq<MDPNode>, k: NodeId, after: seq<MDPNode>, a: nat, prio: seq<real>,
      targetPrecision: real)
    requires GraphOk(c, after) && UpdateStep(c, before, k, after, a) && c.dualPointBounds && 0.0 <= targetPrecision
    requires |prio| == |after| && ExcessWidth(after[k], targetPrecision) > 0.0
    requires forall i | 0 <= i < |after| ::
      PrioOk(if i == k then before[k] else after[i], prio[i], targetPrecision)
    ensures exists o :: 0 <= o < |after[k].Q[a].outcomes| && EdgePrio(c, prio, after[k].Q[a].outcomes[o]) > 0.0
  {
    var es, w := after[k].Q[a].outcomes, PRIO_IMPROVEMENT_CONSTANT * targetPrecision;
    NodeWithin(c, after, k);
    if forall o | 0 <= o < |es| :: EdgePrio(c, prio, es[o]) <= 0.0 {
      forall o | 0 <= o < |es| && es[o].Some?
        ensures c.problem.discount == 0.0 || WidthRead(before, k, after, es[o].value.nextState) <= w
      {
        var i := es[o].value.nextState;
        NoPriorityNoWidth(c, prio, es[o], if i == k then before[k] else after[i], targetPrecision);
      }
      NarrowWithoutPriority(c, before, k, after, a, w);
      assert false;
    }
  }

  lemma NoPriorityNoWidth(c: Config, prio: seq<real>, e: Option<Edge>, n: MDPNode, targetPrecision: real)
    requires c.Valid() && e.Some? && e.value.nextState < |prio| && e.value.obsProb > 0.0
    requires EdgePrio(c, prio, e) <= 0.0 && PrioOk(n, prio[e.value.nextState], targetPrecision)
    ensures c.problem.discount == 0.0 || Width(n) <= PRIO_IMPROVEMENT_CONSTANT * targetPrecision
  {
    var g, p, x := c.problem.discount, e.value.obsProb, prio[e.value.nextState];
    if g > 0.0 && x > 0.0 {
      ProductPositive(g, p);
      ProductPositive(g * p, x);
    }
  }

  /** Successors that are not too wide leave the node not too wide; with discount 0 their width is irrelevant. */
  lemma NarrowWithoutPriority(c: Config, before: seq<MDPNode>, k: NodeId, after: seq<MDPNode>, a: nat, w: real)
    requires GraphOk(c, after) && UpdateStep(c, before, k, after, a) && c.dualPointBounds && 0.0 <= w
    requires AllWithin(after[k].Q, |after|) && a < |after[k].Q|
    requires forall o | 0 <= o < |after[k].Q[a].outcomes| && after[k].Q[a].outcomes[o].Some? ::
      c.problem.discount == 0.0 || WidthRead(before, k, after, after[k].Q[a].outcomes[o].value.nextState) <= w
    ensures Width(after[k]) <= w
  {
    assert k < |after|;
    hide *;
    var es := after[k].Q[a].outcomes;
    if forall o | 0 <= o < |es| && es[o].Some? :: WidthRead(before, k, after, es[o].value.nextState) <= w {
      DiscountedNarrows(c, before, k, after, a, w);
    } else {
      ZeroDiscountNarrows(c, before, k, after, a);
    }
  }

  lemma DiscountedNarrows(c: Config, before: seq<MDPNode>, k: NodeId, after: seq<MDPNode>, a: nat, w: real)
    requires GraphOk(c, after) && UpdateStep(c, before, k, after, a) && c.dualPointBounds && 0.0 <= w
    requires AllWithin(after[k].Q, |after|) && a < |after[k].Q|
    requires forall o | 0 <= o < |after[k].Q[a].outcomes| && after[k].Q[a].outcomes[o].Some? ::
      WidthRead(before, k, after, after[k].Q[a].outcomes[o].value.nextState) <= w
    ensures Width(after[k]) <= w
  {
    assert c.problem.discount <= 1.0 && k < |after|;
    hide *;
    UpdateNarrows(c, before, k, after, a, w);
    ScaledBound(Width(after[k]), c.problem.discount, w);
  }

  lemma ZeroDiscountNarrows(c: Config, before: seq<MDPNode>, k: NodeId, after: seq<MDPNode>, a: nat)
    requires GraphOk(c, after) && UpdateStep(c, before, k, after, a) && c.dualPointBounds
    requires AllWithin(after[k].Q, |after|) && a < |after[k].Q| && c.problem.discount == 0.0
    ensures Width(after[k]) <= 0.0
  {
    hide GraphOk, UpperUpdated, LowerUpdated, NewNodesFresh;
    var top := WidestSuccessor(before, k, after, after[k].Q[a].outcomes);
    UpdateNarrows(c, before, k, after, a, top);
    TimesIs(c.problem.discount, top);
  }

  /** Some width bounds the widths of all successors. */
  lemma {:induction false} WidestSuccessor(before: seq<MDPNode>, k: NodeId, after: seq<MDPNode>,
      es: seq<Option<Edge>>) returns (w: real)
    requires k < |before| && Within(es, |after|)
    ensures forall o | 0 <= o < |es| && es[o].Some? :: WidthRead(before, k, after, es[o].value.nextState) <= w
  {
    w := 0.0;
    if es != [] {
      var n := |es| - 1;
      w := WidestSuccessor(before, k, after, es[..n]);
      if es[n].Some? && WidthRead(before, k, after, es[n].value.nextState) > w {
        w := WidthRead(before, k, after, es[n].value.nextState);
      }
    }
  }

  class FRTDP {
    const bounds: BoundPair
    const targetPrecision: real
    var prio: seq<real>
    var maxDepth: real
    var numTrials: nat

    /** Holds at every point of every run between updates. */
    ghost predicate Valid()
      reads this, bounds
    {
      && bounds.Valid()
      && bounds.c.dualPointBounds
      && 0.0 <= targetPrecision
      && |prio| == |bounds.nodes|
      && PriosOk(bounds.nodes, prio, targetPrecision)
    }

    constructor (boundPair: BoundPair, precision: real, depth: real)
      requires boundPair.Valid() && boundPair.nodes == [] && boundPair.c.dualPointBounds && 0.0 <= precision
      ensures Valid() && bounds == boundPair && targetPrecision == precision
    {
      bounds := boundPair;
      targetPrecision := precision;
      prio, maxDepth, numTrials := [], depth, 0;
    }

    /** Gives the nodes that were just created their initial priority. */
    method GetNodeHandlers(ghost before: nat)
      requires before == |prio| <= |bounds.nodes|
      modifies this`prio
      ensures |prio| == |bounds.nodes| && old(prio) <= prio
      ensures forall i | before <= i < |prio| :: prio[i] == InitialPrio(bounds.nodes[i], targetPrecision)
    {
      while |prio| < |bounds.nodes|
        invariant before <= |prio| <= |bounds.nodes| && old(prio) <= prio
        invariant forall i | before <= i < |prio| :: prio[i] == InitialPrio(bounds.nodes[i], targetPrecision)
      {
        var excessWidth := ExcessWidth(bounds.nodes[|prio|], targetPrecision);
        prio := prio + [if excessWidth <= 0.0 then 0.0 else excessWidth];
      }
    }

    /** The first outcome of highest weighted priority, if any is positive. */
    method GetMaxPrioOutcome(cn: NodeId, a: nat) returns (maxPrio: real, maxPrioOutcome: int)
      requires bounds.Valid() && cn < |bounds.nodes| == |prio| && a < |bounds.nodes[cn].Q|
      ensures HighestPrio(bounds.c, prio, bounds.nodes[cn].Q[a].outcomes, maxPrioOutcome, maxPrio)
    {
      maxPrio, maxPrioOutcome := 0.0, -1;
      NodeWithin(bounds.c, bounds.nodes, cn);
      var es := bounds.nodes[cn].Q[a].outcomes;
      assert Within(es, |prio|);
      for o := 0 to |es|
        invariant maxPrioOutcome == -1 ==> maxPrio == 0.0
        invariant maxPrioOutcome != -1 ==>
          (0 <= maxPrioOutcome < o && es[maxPrioOutcome].Some? &&
           0.0 < maxPrio == EdgePrio(bounds.c, prio, es[maxPrioOutcome]))
        invariant forall p | 0 <= p < o :: EdgePrio(bounds.c, prio, es[p]) <= maxPrio
        invariant forall p | 0 <= p < maxPrioOutcome :: EdgePrio(bounds.c, prio, es[p]) < maxPrio
      {
        if es[o].Some? {
          var p := bounds.c.problem.discount * es[o].value.obsProb * prio[es[o].value.nextState];
          assert p == EdgePrio(bounds.c, prio, es[o]);
          if p > maxPrio {
            maxPrio, maxPrioOutcome := p, o;
          }
        }
      }
    }

    ghost function Now(): Shot
      reads this, bounds
    {
      Shot(bounds.nodes, prio)
    }

    /** Updates the bounds of a node and then its priority. A node left with excess width
        has an outcome to go on with, and the outcome chosen has the highest weighted priority. */
    method Update(cn: NodeId) returns (maxUBAction: nat, maxPrioOutcome: int)
      requires Valid() && cn < |prio|
      modifies this`prio, bounds
      ensures Valid() && Refines(bounds.c, old(bounds.nodes), bounds.nodes)
      ensures Updated(bounds.c, targetPrecision, old(Now()), cn, Now(), maxUBAction, maxPrioOutcome)
      ensures cn < |prio| && maxUBAction < |bounds.nodes[cn].Q|
      ensures ExcessWidth(bounds.nodes[cn], targetPrecision) > 0.0 ==> maxPrioOutcome != -1
      ensures maxPrioOutcome != -1 ==>
        && 0 <= maxPrioOutcome < |bounds.nodes[cn].Q[maxUBAction].outcomes|
        && bounds.nodes[cn].Q[maxUBAction].outcomes[maxPrioOutcome].Some?
        && bounds.nodes[cn].Q[maxUBAction].outcomes[maxPrioOutcome].value.nextState < |prio|
    {
      hide Refines, GraphOk, GraphReady, LookupOk, UpdateStep;
      ghost var before := bounds.nodes;
      maxUBAction := bounds.Update(cn);
      UpdateRefines(bounds.c, before, cn, bounds.nodes, maxUBAction);
      UpdatedAction(bounds.c, before, cn, bounds.nodes, maxUBAction);
      UpdatedOthers(bounds.c, before, cn, bounds.nodes, maxUBAction);
      GetNodeHandlers(|prio|);
      ghost var read := prio;
      InitialPrios(before, bounds.nodes, cn, read, targetPrecision);
      var maxPrio;
      maxPrio, maxPrioOutcome := GetMaxPrioOutcome(cn, maxUBAction);
      var excessWidth := ExcessWidth(bounds.nodes[cn], targetPrecision);
      if excessWidth > 0.0 {
        SomePositivePriority(bounds.c, before, cn, bounds.nodes, maxUBAction, read, targetPrecision);
      }
      prio := prio[cn := Min(maxPrio, if excessWidth <= 0.0 then 0.0 else excessWidth)];
      assert prio[cn := old(prio[cn])] == read;
      MakesUpdate(bounds.c, targetPrecision, old(Now()), cn, Now(), maxUBAction, maxPrioOutcome, maxPrio);
    }

    /** One trial from `cn`, down to the depth limit or to a node without excess width. The ghost result is the way it
        takes. The assertion is the source's. */
    method TrialRecurse(cn: NodeId, depth: nat) returns (ghost path: Path)
      requires Valid() && cn < |prio|
      modifies this`prio, bounds
      ensures Valid() && Refines(bounds.c, old(bounds.nodes), bounds.nodes)
      ensures IsTrial(bounds.c, targetPrecision, maxDepth, depth, old(Now()), path, Now()) && path.ks[0] == cn
      ensures EndsWithUpdate(bounds.c, old(bounds.nodes), cn, bounds.nodes)
      decreases if depth as real > maxDepth then 0 else (maxDepth - depth as real).Floor + 1
    {
      hide Refines, PriosOk, GraphOk, GraphReady, LookupOk, Updated, EndsWithUpdate, IsTrial;
      ghost var c, target, s := bounds.c, targetPrecision, Now();
      var maxUBAction, maxPrioOutcome := Update(cn);
      ghost var t := Now();
      UpdatedNodes(c, target, s, cn, t, maxUBAction, maxPrioOutcome);
      var excessWidth := ExcessWidth(bounds.nodes[cn], targetPrecision);
      if excessWidth <= 0.0 || depth as real > maxDepth {
        RefinesRefl(c, s.nodes);
        EndedWithUpdate(c, s.nodes, s.nodes, cn, t.nodes, maxUBAction);
        path := Path([cn], [s, t], [t]);
        TrialStops(c, target, maxDepth, depth, s, cn, t);
        return;
      }
      assert -1 != maxPrioOutcome;
      var sn := bounds.nodes[cn].Q[maxUBAction].outcomes[maxPrioOutcome].value.nextState;
      assert LeadsTo(t.nodes, cn, maxUBAction, maxPrioOutcome, sn);
      path := TrialRecurse(sn, depth + 1);
      ghost var u := Now();
      RefinesTrans(c, s.nodes, t.nodes, u.nodes);
      RefinesGrows(c, s.nodes, u.nodes);
      maxUBAction, maxPrioOutcome := Update(cn);
      UpdatedNodes(c, target, u, cn, Now(), maxUBAction, maxPrioOutcome);
      RefinesTrans(c, s.nodes, u.nodes, bounds.nodes);
      EndedWithUpdate(c, s.nodes, u.nodes, cn, bounds.nodes, maxUBAction);
      NotEmpty(c, target, maxDepth, depth + 1, t, path, u);
      TrialGoesOn(c, target, maxDepth, depth, s, cn, t, path, u, Now());
      path := Path([cn] + path.ks, [s] + path.down, [Now()] + path.up);
    }

    /** One trial, which ends with a backup of `cn`; reports whether its bounds are within the target precision.
        The depth limit of the next trial is a parameter. */
    method DoTrial(cn: NodeId, nextMaxDepth: real) returns (done: bool, ghost path: Path)
      requires Valid() && cn < |prio|
      modifies this, bounds
      ensures Valid() && Refines(bounds.c, old(bounds.nodes), bounds.nodes)
      ensures IsTrial(bounds.c, targetPrecision, old(maxDepth), 0, old(Now()), path, Now()) && path.ks[0] == cn
      ensures EndsWithUpdate(bounds.c, old(bounds.nodes), cn, bounds.nodes)
      ensures cn < |prio| && (done <==> Width(bounds.nodes[cn]) < targetPrecision)
      ensures maxDepth == nextMaxDepth && numTrials == old(numTrials) + 1
    {
      hide IsTrial, Refines, PriosOk, GraphOk, GraphReady, LookupOk, EndsWithUpdate;
      ghost var g := bounds.nodes;
      path := TrialRecurse(cn, 0);
      RefinesGrows(bounds.c, g, bounds.nodes);
      maxDepth := nextMaxDepth;
      numTrials := numTrials + 1;
      done := Width(bounds.nodes[cn]) < targetPrecision;
    }
  }

  lemma MakesUpdate(c: Config, target: real, s: Shot, k: NodeId, t: Shot, a: nat, outcome: int, maxPrio: real)
    requires UpdateStep(c, s.nodes, k, t.nodes, a) && |s.prio| == |s.nodes| && |t.prio| == |t.nodes|
    requires forall i | 0 <= i < |s.prio| && i != k :: t.prio[i] == s.prio[i]
    requires forall i | |s.prio| <= i < |t.prio| :: t.prio[i] == InitialPrio(t.nodes[i], target)
    requires HighestPrio(c, t.prio[k := s.prio[k]], t.nodes[k].Q[a].outcomes, outcome, maxPrio)
    requires t.prio[k] == Min(maxPrio, InitialPrio(t.nodes[k], target))
    ensures Updated(c, target, s, k, t, a, outcome)
  {
    hide HighestPrio;
  }

  lemma NotEmpty(c: Config, target: real, maxDepth: real, depth: nat, s: Shot, p: Path, t: Shot)
    requires IsTrial(c, target, maxDepth, depth, s, p, t)
    ensures p.ks != []
  {
  }

  lemma UpdatedNodes(c: Config, target: real, s: Shot, k: NodeId, t: Shot, a: nat, outcome: int)
    requires Updated(c, target, s, k, t, a, outcome)
    ensures UpdateStep(c, s.nodes, k, t.nodes, a)
  {
  }

  /** Old priorities of nodes left alone are still right, and so are initial ones. */
  lemma InitialPrios(before: seq<MDPNode>, after: seq<MDPNode>, k: NodeId, prio: seq<real>, targetPrecision: real)
    requires k < |before| <= |after| == |prio| && PriosOk(before, prio[..|before|], targetPrecision)
    requires forall i | 0 <= i < |before| && i != k :: after[i] == before[i]
    requires forall i | |before| <= i < |after| :: prio[i] == InitialPrio(after[i], targetPrecision)
    ensures forall i | 0 <= i < |after| :: PrioOk(if i == k then before[k] else after[i], prio[i], targetPrecision)
  {
  }
}
