/** The LRTDP search: simulated trials, and a procedure that labels closed sets of nodes as solved. */
module LrtdpSearch {
  import opened Wrappers
  import opened RealArith
  import opened Mdp
  import opened BoundPairs
  import opened BoundTheory
  import opened Labels
  import opened Trails
  import opened Evolution
  import opened PointerLists
  import opened RtdpCore

  /** The nodes and their `isSolved` flags. */
  datatype Snap = Snap(nodes: seq<MDPNode>, isSolved: seq<bool>)

  ghost function Solved(isSolved: seq<bool>): (r: set<NodeId>)
    ensures forall i: nat | i < |isSolved| && isSolved[i] :: i in r
    ensures forall i | i in r :: i < |isSolved| && isSolved[i]
  {
    set i: nat | i < |isSolved| && isSolved[i]
  }

  /** Terminal nodes are solved, and every label is sound. */
  ghost predicate Sound(c: Config, eps: real, s: Snap) {
    && |s.isSolved| == |s.nodes|
    && (forall i | 0 <= i < |s.nodes| && s.nodes[i].isTerminal :: s.isSolved[i])
    && Labelled(c, s.nodes, Solved(s.isSolved), eps)
  }

  /** Solved nodes stay solved and frozen. */
  ghost predicate Freezes(s: Snap, t: Snap) {
    && |s.isSolved| == |s.nodes| <= |t.nodes| == |t.isSolved|
    && KeepsKeys(s.nodes, t.nodes)
    && forall i | 0 <= i < |s.nodes| && s.isSolved[i] :: t.isSolved[i] && t.nodes[i] == s.nodes[i]
  }

  lemma FreezesRefl(s: Snap)
    requires |s.isSolved| == |s.nodes|
    ensures Freezes(s, s)
  {
  }

  lemma FreezesTrans(s: Snap, t: Snap, u: Snap)
    requires Freezes(s, t) && Freezes(t, u)
    ensures Freezes(s, u)
  {
  }

  /** `t` is `s` after a backup of the unsolved node `k`, and perhaps a change of its upper value. */
  ghost predicate NodeStep(c: Config, s: Snap, k: NodeId, t: Snap) {
    && |s.nodes| == |s.isSolved| && OneChanged(c, s.nodes, k, t.nodes)
    && |t.isSolved| == |t.nodes| && s.isSolved <= t.isSolved
    && (forall i | |s.nodes| <= i < |t.nodes| :: t.isSolved[i] == t.nodes[i].isTerminal)
  }

  lemma NodeStepKeeps(c: Config, eps: real, s: Snap, k: NodeId, t: Snap)
    requires NodeStep(c, s, k, t) && Sound(c, eps, s) && !s.isSolved[k]
    ensures Sound(c, eps, t) && Freezes(s, t)
  {
    LabelsKept(c, s.nodes, t.nodes, Solved(s.isSolved), eps);
    forall i | i in Solved(t.isSolved)
      ensures i < |t.nodes| && LabelOk(c, t.nodes, Solved(t.isSolved), i, eps)
    {
      if i < |s.isSolved| {
        assert i in Solved(s.isSolved);
        LabelKept(c, t.nodes, t.nodes, Solved(s.isSolved), Solved(t.isSolved), i, eps);
      } else {
        assert t.nodes[i] == FreshNode(c, t.nodes[i].s);
      }
    }
  }

  lemma UbSet(c: Config, eps: real, s: Snap, t: Snap, k: NodeId, u: Snap)
    requires NodeStep(c, s, k, t) && Sound(c, eps, s) && !s.isSolved[k]
    requires k < |u.nodes| && u == t.(nodes := t.nodes[k := t.nodes[k].(ubVal := u.nodes[k].ubVal)])
    ensures NodeStep(c, s, k, u) && Sound(c, eps, u) && Freezes(s, u)
  {
    NodeStepKeeps(c, eps, s, k, u);
  }

  /** The upper value at the state of node `k` dropped by more than `eps` since `start`. */
  ghost predicate Dropped(c: Config, eps: real, start: Graph, g: Graph, k: NodeId) {
    k < |start.nodes| && Upper(c, g)(start.nodes[k].s) < Upper(c, start)(start.nodes[k].s) - eps
  }

  lemma SetMaxDrops(c: Config, eps: real, start: Graph, h: Graph, g: Graph, k: NodeId, a: nat)
    requires WellFormed(c, start) && WellFormed(c, h) && WellFormed(c, g)
    requires KeepsKeys(start.nodes, h.nodes) && Evolves(c, eps, start, h, false)
    requires Consistent(c, start) && Residual(c, eps, start, k)
    requires h.nodes[k].Q != [] && IsMaxUBAction(h.nodes[k].Q, a) && FreshUb(c, h.nodes[k].Q[a], UbVals(h.nodes))
    requires g == Graph(h.nodes[k := h.nodes[k].(ubVal := h.nodes[k].Q[a].ubVal.value)], h.lookup)
    ensures Dropped(c, eps, start, g, k)
  {
    ResidualDrops(c, eps, start, h, k, a);
    UpperOfNode(c, g, k);
  }

  // ---------- The labelling procedure ----------

  lemma CacheQStep(c: Config, s: Snap, k: NodeId, mid: Snap, t: Snap, a: nat)
    requires NodeStep(c, s, k, mid) && UpdateStep(c, s.nodes, k, mid.nodes, a)
    requires t == mid.(nodes := mid.nodes[k := mid.nodes[k].(ubVal := s.nodes[k].ubVal)])
    ensures NodeStep(c, s, k, t) && SameUb(s.nodes, t.nodes)
    ensures t.nodes[k].Q != []
    ensures forall b: nat | IsMaxUBAction(t.nodes[k].Q, b) :: FreshUb(c, t.nodes[k].Q[b], UbVals(t.nodes))
  {
    CacheQChanges(c, s.nodes, k, mid.nodes, t.nodes, a);
  }

  /** The two worklists hold different unsolved nodes. */
  ghost predicate Worklists(s: Snap, open: seq<NodeId>, closed: seq<NodeId>) {
    && |s.isSolved| == |s.nodes|
    && (forall k | k in open :: k < |s.nodes| && !s.isSolved[k] && k !in closed)
    && (forall k | k in closed :: k < |s.nodes| && !s.isSolved[k])
  }

  ghost function Into(s: Snap, open: seq<NodeId>, closed: seq<NodeId>): set<NodeId> {
    Solved(s.isSolved) + Elements(open) + Elements(closed)
  }

  /** Every closed node has a small residual and leads to solved nodes or into the worklists. */
  ghost predicate Explored(c: Config, eps: real, s: Snap, open: seq<NodeId>, closed: seq<NodeId>) {
    forall k | k in closed ::
      k < |s.nodes| && !s.nodes[k].isTerminal && LabelOk(c, s.nodes, Into(s, open, closed), k, eps)
  }

  /** What was explored stays explored while no upper value changes and the worklists only grow. */
  lemma ExploredKept(c: Config, eps: real, s: Snap, open: seq<NodeId>, closed: seq<NodeId>, t: Snap,
      open': seq<NodeId>, k: NodeId)
    requires Explored(c, eps, s, open, closed) && Worklists(s, open, closed)
    requires |t.nodes| == |t.isSolved| && SameUb(s.nodes, t.nodes) && Freezes(s, t) && k !in closed
    requires forall i | i in closed :: t.nodes[i] == s.nodes[i]
    requires forall i | i in open :: i in open' || i == k
    ensures forall i | i in closed ::
      i < |t.nodes| && !t.nodes[i].isTerminal && LabelOk(c, t.nodes, Into(t, open', closed + [k]), i, eps)
  {
    forall i | i in closed
      ensures i < |t.nodes| && !t.nodes[i].isTerminal && LabelOk(c, t.nodes, Into(t, open', closed + [k]), i, eps)
    {
      assert Into(s, open, closed) <= Into(t, open', closed + [k]);
      LabelKept(c, s.nodes, t.nodes, Into(s, open, closed), Into(t, open', closed + [k]), i, eps);
    }
  }

  /** When nothing is open, the closed nodes are closed under greedy successors, so all of them can be labelled. */
  lemma ClosedIsSolved(c: Config, eps: real, s: Snap, closed: seq<NodeId>, t: Snap)
    requires Sound(c, eps, s) && Worklists(s, [], closed) && Explored(c, eps, s, [], closed)
    requires LabelsClosed(s, closed, t)
    ensures Sound(c, eps, t) && Freezes(s, t)
  {
    assert Solved(t.isSolved) == Into(s, [], closed);
    forall i | i in Solved(t.isSolved)
      ensures i < |t.nodes| && LabelOk(c, t.nodes, Solved(t.isSolved), i, eps)
    {
      if s.isSolved[i] {
        assert i in Solved(s.isSolved);
        LabelKept(c, s.nodes, t.nodes, Solved(s.isSolved), Solved(t.isSolved), i, eps);
      } else {
        LabelKept(c, s.nodes, t.nodes, Into(s, [], closed), Solved(t.isSolved), i, eps);
      }
    }
  }

  /** One step of the exploration: node `n` moves from the open to the closed list and is backed up (`s` to `t`),
      then its successors are opened. `rv` tells whether all residuals so far were small. */
  lemma ExploreStep(c: Config, eps: real, s: Snap, open: seq<NodeId>, closed: seq<NodeId>, n: NodeId, t: Snap,
      open': seq<NodeId>, a: nat)
    requires Sound(c, eps, s) && Sound(c, eps, t) && Freezes(s, t) && SameUb(s.nodes, t.nodes) && NodeStep(c, s, n, t)
    requires Worklists(s, open, closed) && n in open && Explored(c, eps, s, open, closed)
    requires Worklists(t, open', closed + [n])
    requires forall k | k in open :: k in open' || k == n
    requires IsMaxUBAction(t.nodes[n].Q, a) && FreshUb(c, t.nodes[n].Q[a], UbVals(t.nodes))
    requires Abs(t.nodes[n].ubVal - t.nodes[n].Q[a].ubVal.value) <= eps
    requires forall o | 0 <= o < |t.nodes[n].Q[a].outcomes| && t.nodes[n].Q[a].outcomes[o].Some? ::
      t.nodes[n].Q[a].outcomes[o].value.nextState in Into(t, open', closed + [n])
    ensures Explored(c, eps, t, open', closed + [n])
  {
    ExploredKept(c, eps, s, open, closed, t, open', n);
    forall b: nat | IsMaxUBAction(t.nodes[n].Q, b)
      ensures GreedyOk(c, t.nodes, Into(t, open', closed + [n]), n, b, eps)
    {
      assert b == a;
    }
    assert LabelOk(c, t.nodes, Into(t, open', closed + [n]), n, eps);
  }

  lemma WorklistsMove(c: Config, s: Snap, open: seq<NodeId>, closed: seq<NodeId>, n: NodeId, t: Snap)
    requires Worklists(s, open + [n], closed) && Distinct(open + [n])
    requires NodeStep(c, s, n, t)
    ensures Worklists(t, open, closed + [n])
  {
    forall k | k in open
      ensures k != n
    {
      var p :| 0 <= p < |open| && open[p] == k;
      assert (open + [n])[p] != (open + [n])[|open|];
    }
    assert forall k | k in open :: k in open + [n];
    assert n in open + [n];
  }

  lemma ExploreStart(c: Config, eps: real, s: Snap, g: Graph, cn: NodeId)
    requires Sound(c, eps, s) && cn < |s.nodes| && !s.isSolved[cn]
    ensures Freezes(s, s) && Worklists(s, [] + [cn], []) && Explored(c, eps, s, [] + [cn], [])
    ensures Evolves(c, eps, g, g, false)
  {
    EvolvesRefl(c, eps, g);
  }

  /** A closed node was measured to be more than `eps` off; if the bound was uniformly improvable, it still is. */
  ghost predicate KnownBad(c: Config, eps: real, g0: Graph, g: Graph, closed: seq<NodeId>, bad: NodeId) {
    bad in closed && WasMeasured(c, eps, g0, bad, g) && (Consistent(c, g0) ==> Residual(c, eps, g, bad))
  }

  lemma PoppedNode(s: Snap, open: seq<NodeId>, rest: seq<NodeId>, closed: seq<NodeId>, n: NodeId)
    requires Worklists(s, open, closed) && open != [] && rest == open[..|open| - 1] && n == open[|open| - 1]
    ensures n in open && open == rest + [n] && n < |s.nodes| == |s.isSolved| && !s.isSolved[n] && n !in closed
    ensures forall k | k in open :: k in rest || k == n
  {
  }

  lemma KeysAndUbs(c: Config, s: Snap, k: NodeId, t: Snap)
    requires NodeStep(c, s, k, t) && SameUb(s.nodes, t.nodes)
    ensures KeepsKeys(s.nodes, t.nodes)
    ensures forall i | 0 <= i < |s.nodes| :: t.nodes[i].ubVal == s.nodes[i].ubVal
  {
  }

  lemma OutcomesInRange(c: Config, nodes: seq<MDPNode>, k: NodeId, a: nat)
    requires GraphOk(c, nodes) && k < |nodes| && a < |nodes[k].Q|
    ensures forall o | 0 <= o < |nodes[k].Q[a].outcomes| && nodes[k].Q[a].outcomes[o].Some? ::
      nodes[k].Q[a].outcomes[o].value.nextState < |nodes|
  {
    NodeWithin(c, nodes, k);
  }

  lemma BadNow(c: Config, eps: real, g: Graph, h: Graph, k: NodeId, a: nat)
    requires WellFormed(c, h) && Evolves(c, eps, g, h, false) && 0.0 <= eps
    requires k < |h.nodes| && !h.nodes[k].isTerminal
    requires h.nodes[k].Q != [] && IsMaxUBAction(h.nodes[k].Q, a) && FreshUb(c, h.nodes[k].Q[a], UbVals(h.nodes))
    requires Abs(h.nodes[k].ubVal - h.nodes[k].Q[a].ubVal.value) > eps
    ensures WasMeasured(c, eps, g, k, h) && (Consistent(c, g) ==> Residual(c, eps, h, k))
  {
    EvolvesSearched(c, eps, g, h, false);
    assert Measured(c, eps, h, k, a);
    WasMeasuredNow(c, eps, g, h, k, a);
    hide WasMeasured, Searched;
    if Consistent(c, g) {
      MeasuredResidual(c, eps, h, k, a);
    }
  }

  lemma NewlyBad(c: Config, eps: real, g0: Graph, g: Graph, h: Graph, closed: seq<NodeId>, n: NodeId)
    requires Evolves(c, eps, g0, g, false) && (Consistent(c, g) ==> Residual(c, eps, h, n))
    requires WasMeasured(c, eps, g, n, h)
    ensures KnownBad(c, eps, g0, h, closed + [n], n)
  {
    EvolvesSearched(c, eps, g0, g, false);
    hide WasMeasured, Searched;
    EarlierMeasured(c, eps, g0, g, n, h);
  }

  lemma KnownBadKept(c: Config, eps: real, g0: Graph, g: Graph, h: Graph, closed: seq<NodeId>, n: NodeId, bad: NodeId)
    requires WellFormed(c, g) && WellFormed(c, h)
    requires Evolves(c, eps, g0, g, false) && Evolves(c, eps, g, h, false) && KnownBad(c, eps, g0, g, closed, bad)
    requires KeepsKeys(g.nodes, h.nodes) && forall i | 0 <= i < |g.nodes| :: h.nodes[i].ubVal == g.nodes[i].ubVal
    ensures KnownBad(c, eps, g0, h, closed + [n], bad)
  {
    EvolvesSearched(c, eps, g, h, false);
    hide WasMeasured, Searched;
    StillMeasured(c, eps, g0, bad, g, h);
    if Consistent(c, g0) {
      ResidualKept(c, eps, g, h, bad);
    }
  }

  lemma ClosedInRange(s: Snap, open: seq<NodeId>, closed: seq<NodeId>)
    requires Worklists(s, open, closed)
    ensures forall k | k in closed :: k < |s.nodes|
  {
  }

  /** There is room for one more closed node. */
  lemma ClosedBounded(c: Config, g: Graph, closed: seq<NodeId>)
    requires WellFormed(c, g) && Distinct(closed) && forall k | k in closed :: k < |g.nodes|
    ensures |closed| <= |c.problem.states|
  {
    DistinctSize(closed);
    SubsetOfRange(Elements(closed), |g.nodes|);
    KeysBounded(c, g.nodes, g.lookup, |g.nodes|);
  }

  lemma FreshStart(c: Config, eps: real, s: Snap)
    requires NewNodesFresh(c, 0, s.nodes) && |s.isSolved| == |s.nodes|
    requires forall i | 0 <= i < |s.isSolved| :: s.isSolved[i] == s.nodes[i].isTerminal
    ensures Sound(c, eps, s)
  {
    forall i | i in Solved(s.isSolved)
      ensures i < |s.nodes| && LabelOk(c, s.nodes, Solved(s.isSolved), i, eps)
    {
      assert s.nodes[i] == FreshNode(c, s.nodes[i].s);
    }
  }

  lemma RootNearOptimal(c: Config, V: State -> real, s: Snap, eps: real, root: NodeId)
    requires GraphOk(c, s.nodes) && GraphReady(s.nodes) && Sound(c, eps, s) && 0.0 <= eps
    requires BellmanOptimal(c.problem, V) && Brackets(c, V, s.nodes)
    requires root < |s.isSolved| && s.isSolved[root]
    ensures NearOptimal(c, V, s.nodes, Solved(s.isSolved), eps, root)
  {
    SolvedNearOptimal(c, V, s.nodes, Solved(s.isSolved), eps, root);
  }

  lemma StillInRange(s: Snap, t: Snap, k: NodeId)
    requires Freezes(s, t) && k < |s.nodes|
    ensures k < |t.nodes| == |t.isSolved|
  {
  }

  // ---------- Updating the explored nodes ----------

  /** The node of large residual is yet to be updated, or it has taken its highest Q value; for a uniformly
      improvable bound that means that its upper value has dropped. */
  ghost predicate StillBad(c: Config, eps: real, g0: Graph, h: Graph, g: Graph, closed: seq<NodeId>, bad: NodeId) {
    && WasMeasured(c, eps, g0, bad, h) && (bad in closed || Corrected(c, eps, g0, g))
    && (Consistent(c, g0) ==> Residual(c, eps, h, bad))
    && (Consistent(c, g0) ==> bad in closed || Dropped(c, eps, h, g, bad))
    && Evolves(c, eps, g0, h, false)
  }

  lemma BadAtStart(c: Config, eps: real, g0: Graph, h: Graph, closed: seq<NodeId>, bad: NodeId)
    requires KnownBad(c, eps, g0, h, closed, bad) && Evolves(c, eps, g0, h, false)
    ensures StillBad(c, eps, g0, h, h, closed, bad)
  {
  }

  lemma BadCorrected(c: Config, eps: real, g0: Graph, h: Graph, k: Graph, g: Graph, all: seq<NodeId>,
                     rest: seq<NodeId>, n: NodeId, bad: NodeId)
    requires StillBad(c, eps, g0, h, k, all, bad)
    requires Evolves(c, eps, h, k, false) && Evolves(c, eps, k, g, false) && TookHighest(c, k, n, g)
    requires forall i | i in all :: i in rest || i == n
    ensures bad in rest || Corrected(c, eps, g0, g)
  {
    EvolvesSearched(c, eps, g0, h, false);
    EvolvesSearched(c, eps, h, k, false);
    EvolvesSearched(c, eps, k, g, false);
    hide Searched, WasMeasured, TookHighest, Corrected, Evolves, Dropped, Residual, Consistent;
    if bad !in all {
      SearchedTrans(c, g0, h, k);
      CorrectedBetween(c, eps, g0, k, g, true, false);
    } else if bad == n {
      StillMeasured(c, eps, g0, bad, h, k);
      CorrectedNow(c, eps, g0, bad, k, g);
    }
  }

  lemma BadUpdated(c: Config, eps: real, g0: Graph, h: Graph, k: Graph, g: Graph, all: seq<NodeId>, rest: seq<NodeId>,
      n: NodeId, bad: NodeId)
    requires WellFormed(c, h) && StillBad(c, eps, g0, h, k, all, bad)
    requires Evolves(c, eps, h, k, false) && Evolves(c, eps, k, g, false)
    requires forall i | i in all :: i in rest || i == n
    requires TookHighest(c, k, n, g)
    requires Consistent(c, h) && Residual(c, eps, h, n) ==> Dropped(c, eps, h, g, n)
    ensures StillBad(c, eps, g0, h, g, rest, bad)
  {
    BadCorrected(c, eps, g0, h, k, g, all, rest, n, bad);
    hide Upper, KeepsBrackets, WasMeasured, Searched, Corrected, TookHighest;
    if Consistent(c, g0) && Dropped(c, eps, h, k, bad) {
      assert Falls(c, k, g);
      assert NodeOk(c.problem, h.nodes, h.nodes[bad]);
    }
  }

  lemma BadDropped(c: Config, eps: real, g0: Graph, h: Graph, g: Graph, bad: NodeId)
    requires WellFormed(c, h) && StillBad(c, eps, g0, h, g, [], bad) && Evolves(c, eps, h, g, false)
    ensures Evolves(c, eps, g0, g, true)
  {
    EvolvesTrans(c, eps, g0, h, g, false, false);
    if Consistent(c, g0) {
      var s := h.nodes[bad].s;
      assert NodeOk(c.problem, h.nodes, h.nodes[bad]);
      assert Upper(c, h)(s) <= Upper(c, g0)(s);
      assert Drops(c, eps, g0, g);
    }
    DropsMakeEvolves(c, eps, g0, g);
  }

  lemma ClosedNode(s: Snap, all: seq<NodeId>, rest: seq<NodeId>, n: NodeId)
    requires Worklists(s, [], all) && all != [] && rest == all[..|all| - 1] && n == all[|all| - 1]
    ensures n < |s.isSolved| && !s.isSolved[n]
    ensures forall i | i in all :: i in rest || i == n
  {
  }

  lemma WorklistsPop(c: Config, s: Snap, all: seq<NodeId>, rest: seq<NodeId>, n: NodeId, t: Snap)
    requires Worklists(s, [], all) && all != [] && rest == all[..|all| - 1]
    requires NodeStep(c, s, n, t)
    ensures Worklists(t, [], rest)
  {
    assert forall k | k in rest :: k in all;
  }

  // ---------- What a trial does ----------

  /** The Q values of node `k` are backed up, and its upper value is restored. */
  ghost predicate CachedAs(c: Config, s: Snap, k: NodeId, t: Snap) {
    && NodeStep(c, s, k, t)
    && exists mid: seq<MDPNode>, a: nat :: UpdateStep(c, s.nodes, k, mid, a) && k < |s.nodes| && k < |mid|
         && t.nodes == mid[k := mid[k].(ubVal := s.nodes[k].ubVal)]
  }

  /** Action `a` has the highest Q value of node `k`, and whether that is more than `eps` away from the upper value. */
  ghost predicate GreedyAt(eps: real, s: Snap, k: NodeId, a: nat, large: bool) {
    && k < |s.nodes| && IsMaxUBAction(s.nodes[k].Q, a)
    && (large <==> Abs(s.nodes[k].ubVal - s.nodes[k].Q[a].ubVal.value) > eps)
  }

  /** The Q values of node `k` are backed up, and it takes the highest of them. */
  ghost predicate UpdatedTo(c: Config, s: Snap, k: NodeId, t: Snap) {
    exists m: Snap, a: nat :: CachedAs(c, s, k, m) && k < |m.nodes| && IsMaxUBAction(m.nodes[k].Q, a)
      && t == m.(nodes := m.nodes[k := m.nodes[k].(ubVal := m.nodes[k].Q[a].ubVal.value)])
  }

  /** The open list after the unsolved targets of the edges that are on neither list have been put on it. */
  ghost function Pushed(isSolved: seq<bool>, open: seq<NodeId>, closed: seq<NodeId>, es: seq<Option<Edge>>): seq<NodeId>
  {
    if es == [] then open
    else
      var e, rest := es[|es| - 1], Pushed(isSolved, open, closed, es[..|es| - 1]);
      if e.Some? && e.value.nextState < |isSolved| && !isSolved[e.value.nextState]
           && e.value.nextState !in rest && e.value.nextState !in closed
      then rest + [e.value.nextState]
      else rest
  }

  /** Every unsolved target ends up on one of the lists, once. */
  lemma {:induction false} PushedOk(s: Snap, open: seq<NodeId>, closed: seq<NodeId>, es: seq<Option<Edge>>)
    requires Worklists(s, open, closed) && Distinct(open)
    requires forall o | 0 <= o < |es| && es[o].Some? :: es[o].value.nextState < |s.isSolved|
    ensures var r := Pushed(s.isSolved, open, closed, es);
      && Worklists(s, r, closed) && Distinct(r) && open <= r
      && (forall o | 0 <= o < |es| && es[o].Some? :: es[o].value.nextState in Into(s, r, closed))
      && (forall k | k in r :: k in open || exists o :: 0 <= o < |es| && es[o].Some? && es[o].value.nextState == k)
  {
    if es != [] {
      var n := |es| - 1;
      PushedOk(s, open, closed, es[..n]);
      var before, r := Pushed(s.isSolved, open, closed, es[..n]), Pushed(s.isSolved, open, closed, es);
      forall o | 0 <= o < |es| && es[o].Some?
        ensures es[o].value.nextState in Into(s, r, closed)
      {
        if o < n {
          assert es[..n][o] == es[o];
        }
      }
      forall k | k in r
        ensures k in open || exists o :: 0 <= o < |es| && es[o].Some? && es[o].value.nextState == k
      {
        if k in before && k !in open {
          var o :| 0 <= o < n && es[..n][o].Some? && es[..n][o].value.nextState == k;
          assert es[o].Some? && es[o].value.nextState == k;
        }
      }
    }
  }

  /** A state of the labelling procedure, with its two lists. */
  datatype Work = Work(now: Snap, open: seq<NodeId>, closed: seq<NodeId>)

  /** One round of the worklist loop: the last open node is closed and its Q values are backed up; if its residual is
      small, the outcomes of its greedy action are opened. */
  ghost predicate IsRound(c: Config, eps: real, w: Work, v: Work, ok: bool) {
    && w.open != []
    && var n, rest := w.open[|w.open| - 1], w.open[..|w.open| - 1];
       && v.closed == w.closed + [n] && CachedAs(c, w.now, n, v.now)
       && exists a: nat :: GreedyAt(eps, v.now, n, a, !ok)
            && v.open == if ok then Pushed(v.now.isSolved, rest, v.closed, v.now.nodes[n].Q[a].outcomes) else rest
  }

  /** A number of rounds; `rv` tells whether all residuals were small. */
  ghost predicate Rounds(c: Config, eps: real, first: Work, ws: seq<Work>, oks: seq<bool>, rv: bool) {
    && |ws| == |oks| + 1 && ws[0] == first
    && (forall i | 0 <= i < |oks| :: IsRound(c, eps, ws[i], ws[i + 1], oks[i]))
    && (rv <==> forall i | 0 <= i < |oks| :: oks[i])
  }

  /** The closed nodes are labelled, and nothing else happens. */
  ghost predicate LabelsClosed(s: Snap, closed: seq<NodeId>, t: Snap) {
    && t.nodes == s.nodes && |t.isSolved| == |s.isSolved|
    && forall i | 0 <= i < |t.isSolved| :: t.isSolved[i] == (s.isSolved[i] || i in closed)
  }

  /** The first `n` updates of closed nodes, last closed first. */
  ghost predicate UpdatesClosed(c: Config, closed: seq<NodeId>, ss: seq<Snap>, n: nat) {
    && n <= |closed| && |ss| == n + 1
    && forall i | 0 <= i < n :: UpdatedTo(c, ss[i], closed[|closed| - 1 - i], ss[i + 1])
  }

  /** The exploration by the labelling procedure, and the states between its updates if there are any. */
  datatype Check = Check(works: seq<Work>, oks: seq<bool>, updates: seq<Snap>)

  /** The labelling procedure at node `cn` leads from `s` to `t`: it explores until nothing is open, and then labels
      every closed node if all residuals were small, and updates every closed node otherwise. */
  ghost predicate IsCheck(c: Config, eps: real, s: Snap, cn: NodeId, k: Check, t: Snap, rv: bool) {
    && cn < |s.isSolved|
    && if s.isSolved[cn] then t == s && rv
       else
         && Rounds(c, eps, Work(s, [cn], []), k.works, k.oks, rv)
         && var w := k.works[|k.works| - 1];
            && w.open == []
            && if rv then LabelsClosed(w.now, w.closed, t)
               else
                 && UpdatesClosed(c, w.closed, k.updates, |w.closed|)
                 && k.updates[0] == w.now && k.updates[|w.closed|] == t
  }

  /** The unsolved node `k` is backed up, and the draw `r` chooses the outcome `next` of the reported action. */
  ghost predicate StepDown(c: Config, s: Snap, k: NodeId, r: real, t: Snap, next: NodeId) {
    && k < |s.isSolved| && !s.isSolved[k] && NodeStep(c, s, k, t)
    && exists a, o :: UpdateStep(c, s.nodes, k, t.nodes, a) && Draws(t.nodes, k, a, r, o, next)
  }

  ghost predicate Draws(nodes: seq<MDPNode>, k: NodeId, a: nat, r: real, o: nat, next: NodeId) {
    && k < |nodes| && a < |nodes[k].Q| && Simulated(nodes[k].Q[a].outcomes, r, o)
    && nodes[k].Q[a].outcomes[o].value.nextState == next
  }

  /** On the way back, the labelling procedure is called for a node if the next one on the way was reported solved. */
  ghost predicate StepUp(c: Config, eps: real, s: Snap, nextSolved: bool, k: NodeId, check: Check, t: Snap,
      solved: bool) {
    if nextSolved then IsCheck(c, eps, s, k, check, t, solved) else t == s && !solved
  }

  /** The nodes on the way of a trial, the states in which they are reached and left, and what was reported of each. */
  datatype Path = Path(ks: seq<NodeId>, down: seq<Snap>, up: seq<Snap>, checks: seq<Check>, solved: seq<bool>)

  /** A trial from the first node of a path, from `s` to `t`. It goes down until a node is solved or there are no more
      draws. */
  ghost predicate IsTrial(c: Config, eps: real, draws: seq<real>, s: Snap, p: Path, t: Snap, finished: bool) {
    var n := |p.ks|;
    && 0 < n <= |draws| + 1 && |p.down| == |p.up| == |p.checks| == |p.solved| == n
    && p.down[0] == s && p.up[n - 1] == p.down[n - 1] && p.up[0] == t
    && p.ks[n - 1] < |p.down[n - 1].isSolved|
    && finished == p.down[n - 1].isSolved[p.ks[n - 1]] == p.solved[n - 1] && (!finished ==> n == |draws| + 1)
    && (forall i | 0 <= i < n - 1 :: StepDown(c, p.down[i], p.ks[i], draws[i], p.down[i + 1], p.ks[i + 1]))
    && (forall i | 0 <= i < n - 1 ::
          StepUp(c, eps, p.up[i + 1], p.solved[i + 1], p.ks[i], p.checks[i], p.up[i], p.solved[i]))
  }

  lemma TrialStops(c: Config, eps: real, draws: seq<real>, s: Snap, k: NodeId, check: Check, finished: bool)
    requires k < |s.isSolved| && finished == s.isSolved[k] && (!finished ==> draws == [])
    ensures IsTrial(c, eps, draws, s, Path([k], [s], [s], [check], [finished]), s, finished)
  {
  }

  lemma TrialGoesOn(c: Config, eps: real, draws: seq<real>, s: Snap, k: NodeId, t: Snap, p: Path, u: Snap,
      finished: bool, check: Check, v: Snap, solved: bool)
    requires draws != [] && p.ks != [] && p.solved != [] && StepDown(c, s, k, draws[0], t, p.ks[0])
    requires IsTrial(c, eps, draws[1..], t, p, u, finished) && StepUp(c, eps, u, p.solved[0], k, check, v, solved)
    ensures IsTrial(c, eps, draws, s,
      Path([k] + p.ks, [s] + p.down, [v] + p.up, [check] + p.checks, [solved] + p.solved), v, finished)
  {
    hide StepDown, StepUp;
    var q := Path([k] + p.ks, [s] + p.down, [v] + p.up, [check] + p.checks, [solved] + p.solved);
    var n := |p.ks|;
    assert q.ks[n] == p.ks[n - 1] && q.down[n] == p.down[n - 1] && q.up[n] == p.up[n - 1];
    assert q.solved[n] == p.solved[n - 1];
    forall i | 0 <= i < n
      ensures StepDown(c, q.down[i], q.ks[i], draws[i], q.down[i + 1], q.ks[i + 1])
      ensures StepUp(c, eps, q.up[i + 1], q.solved[i + 1], q.ks[i], q.checks[i], q.up[i], q.solved[i])
    {
      if i > 0 {
        assert StepDown(c, p.down[i - 1], p.ks[i - 1], draws[1..][i - 1], p.down[i], p.ks[i]);
        assert StepUp(c, eps, p.up[i], p.solved[i], p.ks[i - 1], p.checks[i - 1], p.up[i - 1], p.solved[i - 1]);
      }
    }
  }

  lemma OneMoreRound(c: Config, eps: real, first: Work, ws: seq<Work>, oks: seq<bool>, rv: bool, w: Work, ok: bool)
    requires Rounds(c, eps, first, ws, oks, rv) && IsRound(c, eps, ws[|ws| - 1], w, ok)
    ensures Rounds(c, eps, first, ws + [w], oks + [ok], rv && ok)
  {
    hide IsRound;
    var vs, all := ws + [w], oks + [ok];
    forall i | 0 <= i < |all|
      ensures IsRound(c, eps, vs[i], vs[i + 1], all[i])
    {
      if i < |oks| {
        assert IsRound(c, eps, ws[i], ws[i + 1], oks[i]);
      }
    }
    if rv && ok {
      assert forall i | 0 <= i < |all| :: all[i];
    } else if !ok {
      assert !all[|oks|];
    } else {
      var i :| 0 <= i < |oks| && !oks[i];
      assert !all[i];
    }
  }

  lemma OneMoreUpdate(c: Config, closed: seq<NodeId>, ss: seq<Snap>, n: nat, t: Snap)
    requires UpdatesClosed(c, closed, ss, n) && n < |closed| && UpdatedTo(c, ss[n], closed[|closed| - 1 - n], t)
    ensures UpdatesClosed(c, closed, ss + [t], n + 1)
  {
    hide UpdatedTo;
    var all := ss + [t];
    forall i | 0 <= i < n + 1
      ensures UpdatedTo(c, all[i], closed[|closed| - 1 - i], all[i + 1])
    {
      if i < n {
        assert UpdatedTo(c, ss[i], closed[|closed| - 1 - i], ss[i + 1]);
      }
    }
  }

  lemma PushedNone(isSolved: seq<bool>, open: seq<NodeId>, closed: seq<NodeId>)
    ensures Pushed(isSolved, open, closed, []) == open
  {
  }

  lemma PushOne(isSolved: seq<bool>, open: seq<NodeId>, closed: seq<NodeId>, es: seq<Option<Edge>>, o: nat)
    requires o < |es|
    ensures Pushed(isSolved, open, closed, es[..o + 1]) ==
      var e, rest := es[o], Pushed(isSolved, open, closed, es[..o]);
      if e.Some? && e.value.nextState < |isSolved| && !isSolved[e.value.nextState]
           && e.value.nextState !in rest && e.value.nextState !in closed
      then rest + [e.value.nextState]
      else rest
  {
    assert es[..o + 1][..o] == es[..o];
  }

  class LRTDP {
    const bounds: BoundPair
    const targetPrecision: real
    var isSolved: seq<bool>
    var numTrials: nat

    ghost function Now(): Snap
      reads this, bounds
    {
      Snap(bounds.nodes, isSolved)
    }

    ghost function Bounds(): Graph
      reads this, bounds
    {
      Graph(bounds.nodes, bounds.lookup)
    }

    /** Holds at every point of every run. */
    ghost predicate Valid()
      reads this, bounds
    {
      && bounds.Valid() && |isSolved| == |bounds.nodes| && 0.0 <= targetPrecision
      && Sound(bounds.c, targetPrecision, Now())
    }

    constructor (boundPair: BoundPair, precision: real)
      requires boundPair.Valid() && boundPair.nodes == [] && 0.0 <= precision
      ensures Valid() && bounds == boundPair && targetPrecision == precision && isSolved == []
    {
      bounds := boundPair;
      targetPrecision := precision;
      isSolved, numTrials := [], 0;
    }

    /** Gives the nodes that were just created their search data: terminal nodes start out solved. */
    method GetNodeHandlers(ghost before: nat)
      requires before == |isSolved| <= |bounds.nodes|
      modifies this`isSolved
      ensures |isSolved| == |bounds.nodes| && old(isSolved) <= isSolved
      ensures forall i | before <= i < |isSolved| :: isSolved[i] == bounds.nodes[i].isTerminal
    {
      while |isSolved| < |bounds.nodes|
        invariant before <= |isSolved| <= |bounds.nodes| && old(isSolved) <= isSolved
        invariant forall i | before <= i < |isSolved| :: isSolved[i] == bounds.nodes[i].isTerminal
      {
        isSolved := isSolved + [bounds.nodes[|isSolved|].isTerminal];
      }
    }

    /** Backs up an unsolved node, which may create its successors. */
    method Backup(cn: NodeId) returns (a: nat)
      requires Valid() && cn < |isSolved| && !isSolved[cn]
      modifies this`isSolved, bounds
      ensures Valid() && NodeStep(bounds.c, old(Now()), cn, Now()) && Freezes(old(Now()), Now())
      ensures UpdateStep(bounds.c, old(bounds.nodes), cn, bounds.nodes, a)
      ensures Evolves(bounds.c, targetPrecision, old(Bounds()), Bounds(), false)
    {
      hide Evolves, Labelled;
      ghost var s, g := Now(), Bounds();
      a := bounds.Update(cn);
      GetNodeHandlers(|isSolved|);
      NodeStepKeeps(bounds.c, targetPrecision, s, cn, Now());
      EvolvesByUpdate(bounds.c, targetPrecision, g, cn, Bounds(), a);
    }

    /** Backs up the Q values of an unsolved node, but keeps its upper value. */
    method CacheQ(cn: NodeId)
      requires Valid() && cn < |isSolved| && !isSolved[cn]
      modifies this`isSolved, bounds
      ensures Valid() && NodeStep(bounds.c, old(Now()), cn, Now()) && Freezes(old(Now()), Now())
      ensures CachedAs(bounds.c, old(Now()), cn, Now())
      ensures SameUb(old(bounds.nodes), bounds.nodes)
      ensures cn < |isSolved| && !isSolved[cn] && old(isSolved) <= isSolved
      ensures bounds.nodes[cn].Q != [] && Defined(bounds.nodes[cn].Q) && !bounds.nodes[cn].isTerminal
      ensures forall a: nat | IsMaxUBAction(bounds.nodes[cn].Q, a) ::
        FreshUb(bounds.c, bounds.nodes[cn].Q[a], UbVals(bounds.nodes))
      ensures Evolves(bounds.c, targetPrecision, old(Bounds()), Bounds(), false)
    {
      hide Evolves, Labelled;
      ghost var s, g := Now(), Bounds();
      var oldUBVal := bounds.nodes[cn].ubVal;
      var a := Backup(cn);
      ghost var t, m := Now(), Bounds();
      bounds.SetUb(cn, oldUBVal);
      EvolvesByCacheQ(bounds.c, targetPrecision, g, cn, m, Bounds(), a);
      CacheQStep(bounds.c, s, cn, t, Now(), a);
      NodeStepKeeps(bounds.c, targetPrecision, s, cn, Now());
    }

    /** Backs up an unsolved node and sets its upper value to the highest Q value. `start` is an earlier bound
        from which a large residual at `cn` may be known. */
    method UpdateInternal(cn: NodeId, ghost start: Graph)
      requires Valid() && cn < |isSolved| && !isSolved[cn]
      requires WellFormed(bounds.c, start) && KeepsKeys(start.nodes, bounds.nodes)
      requires Evolves(bounds.c, targetPrecision, start, Bounds(), false)
      modifies this`isSolved, bounds
      ensures Valid() && NodeStep(bounds.c, old(Now()), cn, Now()) && Freezes(old(Now()), Now())
      ensures KeepsKeys(start.nodes, bounds.nodes)
      ensures TookHighest(bounds.c, old(Bounds()), cn, Bounds())
      ensures UpdatedTo(bounds.c, old(Now()), cn, Now())
      ensures Evolves(bounds.c, targetPrecision, old(Bounds()), Bounds(), false)
      ensures Evolves(bounds.c, targetPrecision, start, Bounds(), false)
      ensures Consistent(bounds.c, start) && Residual(bounds.c, targetPrecision, start, cn) ==>
        Dropped(bounds.c, targetPrecision, start, Bounds(), cn)
    {
      hide Evolves, Labelled, NodeStep, Sound, Dropped, Consistent, Residual, Searched, TakesHighest, Overwritten;
      hide CachedAs;
      ghost var c, eps, s, g := bounds.c, targetPrecision, Now(), Bounds();
      CacheQ(cn);
      ghost var t, h := Now(), Bounds();
      EvolvesSearched(c, eps, g, h, false);
      EvolvesTrans(c, eps, start, g, h, false, false);
      var maxUBAction := bounds.GetMaxUBAction(cn);
      bounds.SetUb(cn, bounds.nodes[cn].Q[maxUBAction].ubVal.value);
      UbSet(c, eps, s, t, cn, Now());
      assert UpdatedTo(c, s, cn, Now());
      EvolvesBySetMax(c, eps, h, cn, Bounds(), maxUBAction, false);
      EvolvesTrans(c, eps, start, h, Bounds(), false, false);
      EvolvesTrans(c, eps, g, h, Bounds(), false, false);
      if Consistent(c, start) && Residual(c, eps, start, cn) {
        SetMaxDrops(c, eps, start, h, Bounds(), cn, maxUBAction);
      }
    }

    /** Puts the unsolved successors that are on neither worklist on the open list. */
    method PushSuccessors(es: seq<Option<Edge>>, open: NodeStack, closed: NodeStack)
      requires Valid() && open.Valid() && closed.Valid() && open != closed
      requires Worklists(Now(), open.data, closed.data)
      requires forall o | 0 <= o < |es| && es[o].Some? :: es[o].value.nextState < |isSolved|
      modifies open
      ensures open.data == Pushed(isSolved, old(open.data), closed.data, es)
      ensures open.Valid() && Worklists(Now(), open.data, closed.data) && old(open.data) <= open.data
      ensures forall o | 0 <= o < |es| && es[o].Some? ::
        es[o].value.nextState in Into(Now(), open.data, closed.data)
    {
      hide Pushed, Sound, GraphOk, GraphReady, LookupOk, Worklists, Into, Distinct;
      PushedNone(isSolved, open.data, closed.data);
      assert es[..0] == [];
      for o := 0 to |es|
        invariant open.Valid() && open.data == Pushed(isSolved, old(open.data), closed.data, es[..o])
      {
        PushOne(isSolved, old(open.data), closed.data, es, o);
        if es[o].Some? {
          var sn := es[o].value.nextState;
          if !isSolved[sn] {
            var isOpen := open.Contains(sn);
            var isClosed := closed.Contains(sn);
            if !isOpen && !isClosed {
              open.Push(sn);
            }
          }
        }
      }
      assert es[..|es|] == es;
      PushedOk(Now(), old(open.data), closed.data, es);
    }

    /** Explores the greedy graph from `cn` over nodes with small residuals. */
    method Explore(cn: NodeId)
      returns (rv: bool, closed: NodeStack, ghost bad: NodeId, ghost works: seq<Work>, ghost oks: seq<bool>)
      requires Valid() && cn < |isSolved| && !isSolved[cn]
      modifies this`isSolved, bounds
      ensures Valid() && Freezes(old(Now()), Now())
      ensures fresh(closed) && closed.Valid() && cn in closed.data
      ensures Worklists(Now(), [], closed.data)
      ensures Rounds(bounds.c, targetPrecision, Work(old(Now()), [cn], []), works, oks, rv)
      ensures works[|works| - 1] == Work(Now(), [], closed.data)
      ensures rv ==> Explored(bounds.c, targetPrecision, Now(), [], closed.data)
      ensures Evolves(bounds.c, targetPrecision, old(Bounds()), Bounds(), false)
      ensures !rv ==> KnownBad(bounds.c, targetPrecision, old(Bounds()), Bounds(), closed.data, bad)
    {
      hide Evolves, Sound, NodeStep, KnownBad, Freezes, Explored, SameUb, Worklists, GraphOk, GraphReady, LookupOk;
      hide WasMeasured, Rounds, IsRound;
      ghost var c, eps, s0, g0 := bounds.c, targetPrecision, Now(), Bounds();
      var open := new NodeStack();
      closed := new NodeStack();
      rv, bad := true, 0;
      open.Push(cn);
      ghost var first := Work(s0, [cn], []);
      works, oks := [first], [];
      NoRounds(c, eps, first);
      ExploreStart(c, eps, s0, g0, cn);
      while open.data != []
        invariant fresh(open) && fresh(closed) && open != closed && open.Valid() && closed.Valid()
        invariant Valid() && Freezes(s0, Now()) && (cn in open.data || cn in closed.data)
        invariant Worklists(Now(), open.data, closed.data)
        invariant Rounds(c, eps, first, works, oks, rv)
        invariant |works| > 0 && works[|works| - 1] == Work(Now(), open.data, closed.data)
        invariant rv ==> Explored(c, eps, Now(), open.data, closed.data)
        invariant Evolves(c, eps, g0, Bounds(), false)
        invariant !rv ==> KnownBad(c, eps, g0, Bounds(), closed.data, bad)
        invariant |closed.data| <= |c.problem.states|
        decreases |c.problem.states| - |closed.data|
      {
        var ok;
        ghost var n;
        ghost var g, was := Bounds(), closed.data;
        ghost var s := Now();
        ok, n := ExploreNext(open, closed, rv);
        OneMoreRound(c, eps, first, works, oks, rv, Work(Now(), open.data, closed.data), ok);
        works, oks := works + [Work(Now(), open.data, closed.data)], oks + [ok];
        FreezesTrans(s0, s, Now());
        EvolvesTrans(c, eps, g0, g, Bounds(), false, false);
        ClosedInRange(Now(), open.data, closed.data);
        ClosedBounded(c, Bounds(), closed.data);
        if !ok {
          NewlyBad(c, eps, g0, g, Bounds(), was, n);
          rv, bad := false, n;
        } else if !rv {
          KnownBadKept(c, eps, g0, g, Bounds(), was, n, bad);
        }
      }
    }

    /** Moves one node from the open to the closed list; returns whether its residual is small. */
    method ExploreNext(open: NodeStack, closed: NodeStack, ghost rv: bool) returns (ok: bool, ghost n: NodeId)
      requires Valid() && open.Valid() && closed.Valid() && open != closed && open.data != []
      requires Worklists(Now(), open.data, closed.data)
      requires rv ==> Explored(bounds.c, targetPrecision, Now(), open.data, closed.data)
      modifies this`isSolved, bounds, open, closed
      ensures Valid() && Freezes(old(Now()), Now()) && open.Valid() && closed.Valid()
      ensures closed.data == old(closed.data) + [n]
      ensures IsRound(bounds.c, targetPrecision, Work(old(Now()), old(open.data), old(closed.data)),
        Work(Now(), open.data, closed.data), ok)
      ensures forall k | k in old(open.data) :: k in open.data || k == n
      ensures Worklists(Now(), open.data, closed.data)
      ensures ok && rv ==> Explored(bounds.c, targetPrecision, Now(), open.data, closed.data)
      ensures Evolves(bounds.c, targetPrecision, old(Bounds()), Bounds(), false)
      ensures KeepsKeys(old(bounds.nodes), bounds.nodes)
      ensures forall i | 0 <= i < |old(bounds.nodes)| :: bounds.nodes[i].ubVal == old(bounds.nodes)[i].ubVal
      ensures !ok ==> WasMeasured(bounds.c, targetPrecision, old(Bounds()), n, Bounds())
      ensures !ok && Consistent(bounds.c, old(Bounds())) ==> Residual(bounds.c, targetPrecision, Bounds(), n)
    {
      hide Evolves, Sound, NodeStep, Freezes, Explored, Worklists, GraphOk, GraphReady, LookupOk, Consistent, Residual;
      hide Into, Distinct, SameUb, WasMeasured, CachedAs, Pushed, IsRound;
      ghost var c, eps, s, g := bounds.c, targetPrecision, Now(), Bounds();
      ghost var open0, closed0 := open.data, closed.data;
      var node := open.Pop();
      n := node;
      PoppedNode(s, open0, open.data, closed0, node);
      closed.Push(node);
      CacheQ(node);
      ghost var t, h := Now(), Bounds();
      WorklistsMove(c, s, open.data, closed0, n, t);
      KeysAndUbs(c, s, n, t);
      var a := bounds.GetMaxUBAction(node);
      var q := bounds.nodes[node].Q[a];
      if Abs(bounds.nodes[node].ubVal - q.ubVal.value) > targetPrecision {
        BadNow(c, eps, g, h, node, a);
        RoundDone(c, eps, Work(s, open0, closed0), Work(Now(), open.data, closed.data), a, false);
        return false, n;
      }
      OutcomesInRange(c, bounds.nodes, node, a);
      PushSuccessors(q.outcomes, open, closed);
      if rv {
        ExploreStep(c, eps, s, open0, closed0, n, t, open.data, a);
      }
      RoundDone(c, eps, Work(s, open0, closed0), Work(Now(), open.data, closed.data), a, true);
      ok := true;
    }

    /** Labels a closed set of small residuals as solved, or updates every node that was explored. */
    method CheckSolved(cn: NodeId) returns (rv: bool, ghost check: Check)
      requires Valid() && cn < |isSolved|
      modifies this`isSolved, bounds
      ensures Valid() && Freezes(old(Now()), Now())
      ensures IsCheck(bounds.c, targetPrecision, old(Now()), cn, check, Now(), rv)
      ensures rv ==> cn < |isSolved| && isSolved[cn]
      ensures Evolves(bounds.c, targetPrecision, old(Bounds()), Bounds(), !rv)
    {
      hide Evolves, Sound, Freezes, Explored, Worklists, GraphOk, GraphReady, LookupOk, KnownBad;
      hide Rounds, LabelsClosed, UpdatesClosed;
      ghost var c, eps, s, g := bounds.c, targetPrecision, Now(), Bounds();
      check := Check([], [], []);
      if isSolved[cn] {
        EvolvesRefl(c, eps, g);
        FreezesRefl(s);
        return true, check;
      }
      var closed;
      ghost var bad, works, oks, updates;
      rv, closed, bad, works, oks := Explore(cn);
      ghost var t := Now();
      if rv {
        LabelAll(closed);
        check := Check(works, oks, []);
      } else {
        updates := UpdateAll(closed, g, bad);
        check := Check(works, oks, updates);
      }
      FreezesTrans(s, t, Now());
    }

    /** Labels every closed node as solved. */
    method LabelAll(closed: NodeStack)
      requires Valid() && closed.Valid()
      requires Worklists(Now(), [], closed.data) && Explored(bounds.c, targetPrecision, Now(), [], closed.data)
      modifies this`isSolved, closed
      ensures Valid() && Freezes(old(Now()), Now()) && LabelsClosed(old(Now()), old(closed.data), Now())
      ensures forall k | k in old(closed.data) :: k < |isSolved| && isSolved[k]
    {
      hide Sound, Explored, GraphOk, GraphReady, LookupOk;
      ghost var s, all := Now(), closed.data;
      while closed.data != []
        invariant closed.Valid() && |isSolved| == |s.isSolved| && closed.data <= all
        invariant forall i | 0 <= i < |isSolved| :: isSolved[i] == (s.isSolved[i] || i in all[|closed.data|..])
        decreases |closed.data|
      {
        ghost var m := |closed.data|;
        var n := closed.Pop();
        assert n == all[m - 1] && all[m - 1..] == [n] + all[m..];
        assert n in all;
        isSolved := isSolved[n := true];
      }
      assert all[0..] == all;
      ClosedIsSolved(bounds.c, targetPrecision, s, all, Now());
    }

    /** Updates every closed node, last closed first. */
    method UpdateAll(closed: NodeStack, ghost g0: Graph, ghost bad: NodeId) returns (ghost updates: seq<Snap>)
      requires Valid() && closed.Valid() && Worklists(Now(), [], closed.data)
      requires Evolves(bounds.c, targetPrecision, g0, Bounds(), false)
      requires KnownBad(bounds.c, targetPrecision, g0, Bounds(), closed.data, bad)
      modifies this`isSolved, bounds, closed
      ensures Valid() && Freezes(old(Now()), Now())
      ensures UpdatesClosed(bounds.c, old(closed.data), updates, |old(closed.data)|)
      ensures updates[0] == old(Now()) && updates[|old(closed.data)|] == Now()
      ensures Evolves(bounds.c, targetPrecision, g0, Bounds(), true)
    {
      hide Evolves, Sound, Freezes, Worklists, GraphOk, GraphReady, LookupOk, KnownBad, NodeStep, Dropped, Consistent;
      hide Residual, StillBad, TookHighest, UpdatedTo;
      ghost var c, eps, s, h := bounds.c, targetPrecision, Now(), Bounds();
      ghost var was := closed.data;
      updates := [s];
      FreezesRefl(s);
      EvolvesRefl(c, eps, h);
      BadAtStart(c, eps, g0, h, closed.data, bad);
      while closed.data != []
        invariant Valid() && closed.Valid() && Worklists(Now(), [], closed.data)
        invariant Freezes(s, Now()) && KeepsKeys(h.nodes, bounds.nodes)
        invariant Evolves(c, eps, h, Bounds(), false)
        invariant StillBad(c, eps, g0, h, Bounds(), closed.data, bad)
        invariant closed.data <= was && UpdatesClosed(c, was, updates, |was| - |closed.data|)
        invariant updates[0] == s && updates[|was| - |closed.data|] == Now()
        decreases |closed.data|
      {
        ghost var all, t, k := closed.data, Now(), Bounds();
        var n := closed.Pop();
        ClosedNode(t, all, closed.data, n);
        UpdateInternal(n, h);
        WorklistsPop(c, t, all, closed.data, n, Now());
        FreezesTrans(s, t, Now());
        assert n == was[|all| - 1];
        OneMoreUpdate(c, was, updates, |was| - |all|, Now());
        updates := updates + [Now()];
        BadUpdated(c, eps, g0, h, k, Bounds(), all, closed.data, n, bad);
      }
      BadDropped(c, eps, g0, h, Bounds(), bad);
    }

    /** One simulated trial from `cn`; `draws` are the random numbers still to come. The trial is unfinished
        if it needs more of them. Otherwise it reports whether `cn` is solved. The ghost result is the way it takes. */
    method TrialRecurse(cn: NodeId, draws: seq<real>) returns (finished: bool, solved: bool, ghost path: Path)
      requires Valid() && cn < |isSolved| && forall i | 0 <= i < |draws| :: 0.0 <= draws[i] <= 1.0
      modifies this`isSolved, bounds
      ensures Valid() && Freezes(old(Now()), Now())
      ensures IsTrial(bounds.c, targetPrecision, draws, old(Now()), path, Now(), finished)
      ensures path.ks[0] == cn && solved == path.solved[0]
      ensures finished && solved ==> cn < |isSolved| && isSolved[cn]
      ensures Evolves(bounds.c, targetPrecision, old(Bounds()), Bounds(), finished && !solved)
      decreases |draws|
    {
      hide Evolves, Sound, Freezes, NodeStep, GraphOk, GraphReady, LookupOk, IsTrial, IsCheck, UpdateStep, Simulated;
      ghost var c, eps, s, g := bounds.c, targetPrecision, Now(), Bounds();
      ghost var check := Check([], [], []);
      FreezesRefl(s);
      EvolvesRefl(c, eps, g);
      if isSolved[cn] {
        TrialStops(c, eps, draws, s, cn, check, true);
        return true, true, Path([cn], [s], [s], [check], [true]);
      }
      if draws == [] {
        TrialStops(c, eps, draws, s, cn, check, false);
        return false, false, Path([cn], [s], [s], [check], [false]);
      }
      var maxUBAction := Backup(cn);
      ghost var t, h := Now(), Bounds();
      StillInRange(s, t, cn);
      UpdatedAction(c, s.nodes, cn, t.nodes, maxUBAction);
      var o := bounds.GetSimulatedOutcome(cn, maxUBAction, draws[0]);
      OutcomesInRange(c, bounds.nodes, cn, maxUBAction);
      var solvedAtNextDepth;
      var sn := bounds.nodes[cn].Q[maxUBAction].outcomes[o].value.nextState;
      assert Draws(bounds.nodes, cn, maxUBAction, draws[0], o, sn);
      finished, solvedAtNextDepth, path := TrialRecurse(sn, draws[1..]);
      ghost var u, k := Now(), Bounds();
      FreezesTrans(s, t, u);
      StillInRange(s, u, cn);
      EvolvesTrans(c, eps, g, h, k, false, finished && !solvedAtNextDepth);
      solved := false;
      if finished && solvedAtNextDepth {
        solved, check := CheckSolved(cn);
        FreezesTrans(s, u, Now());
        EvolvesTrans(c, eps, g, k, Bounds(), false, !solved);
      }
      OnlyFinishedIsSolved(c, eps, draws[1..], t, path, u, finished);
      TrialGoesOn(c, eps, draws, s, cn, t, path, u, finished, check, Now(), solved);
      path := Path([cn] + path.ks, [s] + path.down, [Now()] + path.up, [check] + path.checks, [solved] + path.solved);
    }

    /** The node of the initial state of the problem. */
    method GetRootNode() returns (root: NodeId)
      requires Valid() && bounds.nodes == []
      modifies this`isSolved, bounds
      ensures Valid()
      ensures root < |isSolved| && bounds.nodes[root].s == bounds.c.problem.initial
      ensures NewNodesFresh(bounds.c, 0, bounds.nodes)
    {
      hide Labelled, GraphReady, LookupOk, GraphOk, Solved, NewNodesFresh, GetNodeStep, Config.Valid, Mdp.Valid, Sound;
      EmptyGraph(bounds.c, bounds.lookup, bounds.c.problem.initial);
      root := bounds.GetNode(bounds.c.problem.initial);
      OneFresh(bounds.c, bounds.nodes, bounds.c.problem.initial);
      GetNodeHandlers(0);
      FreshStart(bounds.c, targetPrecision, Now());
    }

    /** One trial from the node `cn`; reports whether `cn` is solved. */
    method DoTrial(cn: NodeId, draws: seq<real>) returns (finished: bool, done: bool, ghost path: Path)
      requires Valid() && cn < |isSolved| && forall i | 0 <= i < |draws| :: 0.0 <= draws[i] <= 1.0
      modifies this, bounds
      ensures Valid() && Freezes(old(Now()), Now())
      ensures IsTrial(bounds.c, targetPrecision, draws, old(Now()), path, Now(), finished) && path.ks[0] == cn
      ensures done <==> isSolved[cn]
      ensures numTrials == old(numTrials) + 1
      ensures Evolves(bounds.c, targetPrecision, old(Bounds()), Bounds(), finished && !done)
    {
      hide Evolves, Sound, GraphOk, GraphReady, LookupOk, IsTrial;
      ghost var g := Bounds();
      var solved;
      finished, solved, path := TrialRecurse(cn, draws);
      numTrials := numTrials + 1;
      done := isSolved[cn];
      EvolvesWeaken(bounds.c, targetPrecision, g, Bounds(), finished && !solved, finished && !done);
    }

    /** Runs trials from the initial state until it is solved or a trial stays unfinished. Every finished trial
        that does not solve it uses up room, so once there are more finished trials than there is room, it is solved,
        and the greedy policy is then within `targetPrecision / (1 - discount)` of optimal. */
    method Solve(trials: seq<seq<real>>, ghost V: State -> real) returns (root: NodeId, allFinished: bool, done: bool)
      requires Valid() && bounds.nodes == [] && targetPrecision > 0.0
      requires forall t, i | 0 <= t < |trials| && 0 <= i < |trials[t]| :: 0.0 <= trials[t][i] <= 1.0
      requires BellmanOptimal(bounds.c.problem, V) && InitialBracket(bounds.c, V) && InitiallyImprovable(bounds.c)
      modifies this, bounds
      ensures Valid() && root < |isSolved| && bounds.nodes[root].s == bounds.c.problem.initial
      ensures done <==> isSolved[root]
      ensures allFinished && |trials| > RoomFor(bounds.c, targetPrecision, Graph([], map[]), V) ==> done
      ensures done ==> NearOptimal(bounds.c, V, bounds.nodes, Solved(isSolved), targetPrecision, root)
    {
      hide Labelled, GraphOk, GraphReady, LookupOk, Solved, BellmanOptimal, InitialBracket, InitiallyImprovable;
      hide Consistent, Falls, Drops, Brackets, NewNodesFresh, Evolves, RoomFor, NearOptimal, Sound;
      ghost var c, eps := bounds.c, targetPrecision;
      root := GetRootNode();
      FringeConsistent(c, Bounds());
      FringeBrackets(c, V, Bounds());
      RoomNonNegative(c, eps, Bounds(), V);
      FringeRoom(c, eps, Bounds(), V);
      ghost var room := RoomFor(c, eps, Bounds(), V);
      done, allFinished := isSolved[root], true;
      var i := 0;
      while i < |trials| && !done && allFinished
        invariant 0 <= i <= |trials|
        invariant Valid() && root < |isSolved| && bounds.nodes[root].s == c.problem.initial
        invariant Consistent(c, Bounds()) && Brackets(c, V, bounds.nodes)
        invariant 0 <= RoomFor(c, eps, Bounds(), V)
        invariant allFinished && !done ==> RoomFor(c, eps, Bounds(), V) <= room - i
        invariant done <==> isSolved[root]
      {
        ghost var g := Bounds();
        assert forall j | 0 <= j < |trials[i]| :: 0.0 <= trials[i][j] <= 1.0;
        ghost var path;
        allFinished, done, path := DoTrial(root, trials[i]);
        SearchProgress(c, eps, g, Bounds(), V, allFinished && !done);
        i := i + 1;
      }
      if done {
        RootNearOptimal(c, V, Now(), eps, root);
      }
    }
  }

  lemma NoRounds(c: Config, eps: real, first: Work)
    ensures Rounds(c, eps, first, [first], [], true)
  {
  }

  lemma RoundDone(c: Config, eps: real, w: Work, v: Work, a: nat, ok: bool)
    requires w.open != [] && v.closed == w.closed + [w.open[|w.open| - 1]]
    requires CachedAs(c, w.now, w.open[|w.open| - 1], v.now) && GreedyAt(eps, v.now, w.open[|w.open| - 1], a, !ok)
    requires var n, rest := w.open[|w.open| - 1], w.open[..|w.open| - 1];
      v.open == if ok then Pushed(v.now.isSolved, rest, v.closed, v.now.nodes[n].Q[a].outcomes) else rest
    ensures IsRound(c, eps, w, v, ok)
  {
    hide CachedAs, Pushed, IsMaxUBAction;
  }

  /** A node is reported solved only in a trial that was finished. */
  lemma {:induction false} OnlyFinishedIsSolved(c: Config, eps: real, draws: seq<real>, s: Snap, p: Path, t: Snap,
      finished: bool)
    requires IsTrial(c, eps, draws, s, p, t, finished)
    ensures p.ks != [] && p.solved != [] && (p.solved[0] ==> finished)
  {
    hide IsCheck, StepDown;
    var i := |p.ks| - 1;
    while i > 0
      invariant 0 <= i < |p.ks| && (!finished ==> !p.solved[i])
    {
      i := i - 1;
      assert StepUp(c, eps, p.up[i + 1], p.solved[i + 1], p.ks[i], p.checks[i], p.up[i], p.solved[i]);
    }
  }
}
