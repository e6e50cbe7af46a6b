/** The search graph shared by all search strategies: nodes with a lower and an upper bound, created on demand. */
module BoundPairs {
  import opened Wrappers
  import opened RealArith
  import opened Mdp

  /** `ubVal` is None while the Q value is undefined. */
  datatype QEntry = QEntry(immediateReward: real, outcomes: seq<Option<Edge>>, lbVal: real, ubVal: Option<real>)

  datatype MDPNode = MDPNode(s: State, isTerminal: bool, Q: seq<QEntry>, lbVal: real, ubVal: real)

  /** The problem, the two initial bounds, and which bounds are maintained and how. */
  datatype Config = Config(
    problem: Mdp,
    initLower: State -> real,
    initUpper: State -> real,
    maintainLowerBound: bool,
    dualPointBounds: bool)
  {
    ghost predicate Valid() {
      problem.Valid() && (dualPointBounds ==> maintainLowerBound)
    }
  }

  lemma MaxIs(x: real, y: real)
    ensures x <= Max(x, y) && y <= Max(x, y) && (Max(x, y) == x || Max(x, y) == y)
  {
  }

  function InitialUb(c: Config, s: State): real {
    if c.problem.isTerminal(s) then 0.0 else c.initUpper(s)
  }

  function InitialLb(c: Config, s: State): real {
    if !c.maintainLowerBound then -1.0
    else if c.problem.isTerminal(s) then 0.0
    else c.initLower(s)
  }

  function FreshNode(c: Config, s: State): MDPNode {
    MDPNode(s, c.problem.isTerminal(s), [], InitialLb(c, s), InitialUb(c, s))
  }

  ghost function UbVals(nodes: seq<MDPNode>): (v: seq<real>)
    ensures |v| == |nodes|
    ensures forall i | 0 <= i < |nodes| :: v[i] == nodes[i].ubVal
  {
    seq(|nodes|, i requires 0 <= i < |nodes| => nodes[i].ubVal)
  }

  ghost function LbVals(nodes: seq<MDPNode>): (v: seq<real>)
    ensures |v| == |nodes|
    ensures forall i | 0 <= i < |nodes| :: v[i] == nodes[i].lbVal
  {
    seq(|nodes|, i requires 0 <= i < |nodes| => nodes[i].lbVal)
  }

  // ---------- The shape of the graph ----------

  ghost predicate EdgeOk(nodes: seq<MDPNode>, out: Outcome, e: Option<Edge>) {
    if out.prob > 0.0 then
      && e.Some?
      && e.value.obsProb == out.prob
      && e.value.nextState < |nodes|
      && nodes[e.value.nextState].s == out.next
    else e.None?
  }

  ghost predicate EdgesOk(nodes: seq<MDPNode>, outs: seq<Outcome>, es: seq<Option<Edge>>) {
    |es| == |outs| && forall o | 0 <= o < |es| :: EdgeOk(nodes, outs[o], es[o])
  }

  ghost predicate QOk(m: Mdp, nodes: seq<MDPNode>, s: State, a: nat, q: QEntry) {
    q.immediateReward == m.reward(s, a) && EdgesOk(nodes, m.outcomes(s, a), q.outcomes)
  }

  ghost predicate QsOk(m: Mdp, nodes: seq<MDPNode>, s: State, q: seq<QEntry>) {
    |q| == m.numActions && forall a | 0 <= a < |q| :: QOk(m, nodes, s, a, q[a])
  }

  ghost predicate Defined(q: seq<QEntry>) {
    forall a | 0 <= a < |q| :: q[a].ubVal.Some?
  }

  ghost predicate NodeOk(m: Mdp, nodes: seq<MDPNode>, n: MDPNode) {
    && n.s in m.states
    && n.isTerminal == m.isTerminal(n.s)
    && (n.Q != [] ==> QsOk(m, nodes, n.s, n.Q))
  }

  ghost predicate GraphOk(c: Config, nodes: seq<MDPNode>) {
    && c.Valid()
    && forall i | 0 <= i < |nodes| :: NodeOk(c.problem, nodes, nodes[i])
  }

  /** The nodes of a graph whose Q values have all been computed at least once. */
  ghost predicate GraphReady(nodes: seq<MDPNode>) {
    forall i | 0 <= i < |nodes| :: Defined(nodes[i].Q)
  }

  /** The key table and the arena are inverse to each other: one node per key, and every node is found. */
  ghost predicate LookupOk(nodes: seq<MDPNode>, lookup: map<State, NodeId>) {
    && (forall i | 0 <= i < |nodes| :: nodes[i].s in lookup && lookup[nodes[i].s] == i)
    && (forall s | s in lookup :: lookup[s] < |nodes| && nodes[lookup[s]].s == s)
  }

  /** Existing nodes keep their place and their key. */
  ghost predicate KeepsKeys(before: seq<MDPNode>, after: seq<MDPNode>) {
    |before| <= |after| && forall i | 0 <= i < |before| :: after[i].s == before[i].s
  }

  lemma QsOkKept(m: Mdp, before: seq<MDPNode>, after: seq<MDPNode>, s: State, q: seq<QEntry>)
    requires QsOk(m, before, s, q) && KeepsKeys(before, after)
    ensures QsOk(m, after, s, q)
  {
    forall a | 0 <= a < |q|
      ensures QOk(m, after, s, a, q[a])
    {
      QOkKept(m, before, after, s, a, q[a]);
    }
  }

  /** New nodes, all of them fringe nodes, have been put at the end. */
  ghost predicate Extends(c: Config, before: seq<MDPNode>, after: seq<MDPNode>) {
    before <= after && NewNodesFresh(c, |before|, after)
  }

  lemma ExtendsRefl(c: Config, nodes: seq<MDPNode>)
    ensures Extends(c, nodes, nodes)
  {
  }

  lemma ExtendsTrans(c: Config, g: seq<MDPNode>, h: seq<MDPNode>, k: seq<MDPNode>)
    requires Extends(c, g, h) && Extends(c, h, k)
    ensures Extends(c, g, k)
  {
    forall i | |g| <= i < |k|
      ensures k[i] == FreshNode(c, k[i].s)
    {
      assert i < |h| ==> k[i] == h[i];
    }
  }

  lemma ExtendsIs(c: Config, before: seq<MDPNode>, after: seq<MDPNode>)
    requires Extends(c, before, after)
    ensures |before| <= |after| && after[..|before|] == before && NewNodesFresh(c, |before|, after)
    ensures KeepsKeys(before, after)
  {
  }

  lemma NoEdges(nodes: seq<MDPNode>, outs: seq<Outcome>)
    ensures EdgesOk(nodes, outs[..0], [])
  {
  }

  lemma OneMoreEdge(before: seq<MDPNode>, after: seq<MDPNode>, outs: seq<Outcome>, es: seq<Option<Edge>>,
                    e: Option<Edge>)
    requires |es| < |outs| && EdgesOk(before, outs[..|es|], es) && KeepsKeys(before, after)
    requires EdgeOk(after, outs[|es|], e)
    ensures EdgesOk(after, outs[..|es| + 1], es + [e])
  {
    var n := |es|;
    forall o | 0 <= o < n
      ensures EdgeOk(after, outs[o], es[o])
    {
      assert EdgeOk(before, outs[..n][o], es[o]);
    }
  }

  lemma NewQOk(m: Mdp, nodes: seq<MDPNode>, s: State, a: nat, q: QEntry)
    requires q.immediateReward == m.reward(s, a) && EdgesOk(nodes, m.outcomes(s, a), q.outcomes)
    ensures QOk(m, nodes, s, a, q)
  {
  }

  lemma LookupKept(before: seq<MDPNode>, after: seq<MDPNode>, lookup: map<State, NodeId>)
    requires LookupOk(before, lookup) && |after| == |before| && KeepsKeys(before, after)
    ensures LookupOk(after, lookup)
  {
  }

  /** Giving a node edges for every action keeps the graph well formed. */
  lemma ExpandedOk(c: Config, before: seq<MDPNode>, k: NodeId, q: seq<QEntry>, after: seq<MDPNode>)
    requires GraphOk(c, before) && k < |before| && after == before[k := before[k].(Q := q)]
    requires QsOk(c.problem, before, before[k].s, q)
    ensures GraphOk(c, after)
  {
    hide QsOk;
    forall i | 0 <= i < |after|
      ensures NodeOk(c.problem, after, after[i])
    {
      assert NodeOk(c.problem, before, before[i]);
      if after[i].Q != [] {
        QsOkKept(c.problem, before, after, before[i].s, after[i].Q);
      }
    }
  }

  lemma QOkKept(m: Mdp, before: seq<MDPNode>, after: seq<MDPNode>, s: State, a: nat, q: QEntry)
    requires QOk(m, before, s, a, q) && KeepsKeys(before, after)
    ensures QOk(m, after, s, a, q)
  {
    var outs := m.outcomes(s, a);
    forall o | 0 <= o < |q.outcomes|
      ensures EdgeOk(after, outs[o], q.outcomes[o])
    {
      assert EdgeOk(before, outs[o], q.outcomes[o]);
    }
  }

  lemma EveryQOkKept(m: Mdp, before: seq<MDPNode>, after: seq<MDPNode>)
    requires KeepsKeys(before, after)
    ensures forall s, a: nat, q | QOk(m, before, s, a, q) :: QOk(m, after, s, a, q)
  {
    hide QOk, KeepsKeys;
    forall s, a: nat, q | QOk(m, before, s, a, q)
      ensures QOk(m, after, s, a, q)
    {
      QOkKept(m, before, after, s, a, q);
    }
  }

  lemma GraphOkKept(c: Config, before: seq<MDPNode>, after: seq<MDPNode>)
    requires GraphOk(c, before) && KeepsKeys(before, after)
    requires forall i | 0 <= i < |before| :: after[i].isTerminal == before[i].isTerminal && after[i].Q == before[i].Q
    requires forall i | |before| <= i < |after| :: NodeOk(c.problem, after, after[i])
    ensures GraphOk(c, after)
  {
    forall i | 0 <= i < |after|
      ensures NodeOk(c.problem, after, after[i])
    {
      if i < |before| {
        assert NodeOk(c.problem, before, before[i]);
        if before[i].Q != [] {
          QsOkKept(c.problem, before, after, before[i].s, before[i].Q);
        }
      }
    }
  }

  lemma EdgesWithin(nodes: seq<MDPNode>, outs: seq<Outcome>, es: seq<Option<Edge>>)
    requires EdgesOk(nodes, outs, es)
    ensures Within(es, |nodes|)
  {
    forall o | 0 <= o < |es| && es[o].Some?
      ensures es[o].value.nextState < |nodes| && es[o].value.obsProb > 0.0
    {
      assert EdgeOk(nodes, outs[o], es[o]);
    }
  }

  // ---------- Backups ----------

  /** The backed-up value of one action when the successors have the values `v`. */
  ghost function Backup(c: Config, q: QEntry, v: seq<real>): real
    requires Within(q.outcomes, |v|)
  {
    q.immediateReward + c.problem.discount * Exp(q.outcomes, v)
  }

  ghost predicate AllWithin(q: seq<QEntry>, n: nat) {
    forall a | 0 <= a < |q| :: Within(q[a].outcomes, n)
  }

  lemma NodeWithin(c: Config, nodes: seq<MDPNode>, i: nat)
    requires GraphOk(c, nodes) && i < |nodes|
    ensures AllWithin(nodes[i].Q, |nodes|)
  {
    assert NodeOk(c.problem, nodes, nodes[i]);
    forall a | 0 <= a < |nodes[i].Q|
      ensures Within(nodes[i].Q[a].outcomes, |nodes|)
    {
      assert QOk(c.problem, nodes, nodes[i].s, a, nodes[i].Q[a]);
      EdgesWithin(nodes, c.problem.outcomes(nodes[i].s, a), nodes[i].Q[a].outcomes);
    }
  }

  /** The edges of an action carry probability mass 1. */
  lemma EdgeMass(c: Config, nodes: seq<MDPNode>, s: State, a: nat, q: QEntry)
    requires c.Valid() && s in c.problem.states && a < c.problem.numActions
    requires QOk(c.problem, nodes, s, a, q)
    ensures Within(q.outcomes, |nodes|) && Mass(q.outcomes) == 1.0
  {
    var v := seq(|nodes|, i => 0.0);
    BackupOfModel(c, nodes, s, a, q, v, s' => 0.0);
  }

  /** A backup over the graph is the model's one-step lookahead. */
  lemma BackupOfModel(c: Config, nodes: seq<MDPNode>, s: State, a: nat, q: QEntry, v: seq<real>, U: State -> real)
    requires c.Valid() && s in c.problem.states && a < c.problem.numActions
    requires QOk(c.problem, nodes, s, a, q)
    requires |v| == |nodes| && forall i | 0 <= i < |v| :: v[i] == U(nodes[i].s)
    ensures Within(q.outcomes, |v|)
    ensures Backup(c, q, v) == Lookahead(c.problem, U, s, a)
    ensures Mass(q.outcomes) == 1.0
  {
    var outs := c.problem.outcomes(s, a);
    EdgesWithin(nodes, outs, q.outcomes);
    assert c.problem.Distribution(outs);
    forall o | 0 <= o < |outs|
      ensures if outs[o].prob > 0.0
        then q.outcomes[o].Some? && q.outcomes[o].value.obsProb == outs[o].prob
          && v[q.outcomes[o].value.nextState] == U(outs[o].next)
        else q.outcomes[o].None? && outs[o].prob == 0.0
    {
      assert EdgeOk(nodes, outs[o], q.outcomes[o]);
    }
    ExpOfModel(outs, q.outcomes, v, U);
  }

  /** Backups are monotone, and shift by at most the discount. */
  lemma BackupShift(c: Config, q: QEntry, v: seq<real>, w: seq<real>, d: real)
    requires c.Valid() && Within(q.outcomes, |v|) && Within(q.outcomes, |w|) && Mass(q.outcomes) == 1.0
    requires forall o | 0 <= o < |q.outcomes| && q.outcomes[o].Some? ::
      v[q.outcomes[o].value.nextState] <= w[q.outcomes[o].value.nextState] + d
    ensures Backup(c, q, v) <= Backup(c, q, w) + Times(c.problem.discount, d)
  {
    assert 0.0 <= c.problem.discount;
    hide *;
    ExpShift(q.outcomes, v, w, d);
    TimesUnit(d, Mass(q.outcomes));
    BackupIs(c, q, v);
    BackupIs(c, q, w);
    TimesMono(c.problem.discount, Exp(q.outcomes, v), Exp(q.outcomes, w) + d);
    TimesPlus(c.problem.discount, Exp(q.outcomes, w), d);
  }

  lemma BackupIs(c: Config, q: QEntry, v: seq<real>)
    requires Within(q.outcomes, |v|)
    ensures Backup(c, q, v) == q.immediateReward + Times(c.problem.discount, Exp(q.outcomes, v))
  {
  }

  // ---------- What one update does ----------

  /** `a` is the first action of highest cached upper bound. */
  ghost predicate IsMaxUBAction(q: seq<QEntry>, a: nat) {
    && a < |q|
    && Defined(q)
    && (forall b | 0 <= b < |q| :: q[b].ubVal.value <= q[a].ubVal.value)
    && (forall b | 0 <= b < a :: q[b].ubVal.value < q[a].ubVal.value)
  }

  /** The first `n` entries of `q` are those of `q0` backed up, on both sides as asked; the others are unchanged. */
  ghost predicate BackedUp(c: Config, q0: seq<QEntry>, q: seq<QEntry>, n: nat, lv: seq<real>, uv: seq<real>,
      lower: bool, upper: bool)
    requires AllWithin(q0, |lv|) && |lv| == |uv|
  {
    && |q| == |q0|
    && (forall b | 0 <= b < n && b < |q| :: q[b] == BackedUpEntry(c, q0[b], lv, uv, lower, upper))
    && (forall b | n <= b < |q| :: q[b] == q0[b])
  }

  ghost function BackedUpEntry(c: Config, q: QEntry, lv: seq<real>, uv: seq<real>, lower: bool, upper: bool): QEntry
    requires Within(q.outcomes, |lv|) && |lv| == |uv|
  {
    q.(lbVal := if lower then Backup(c, q, lv) else q.lbVal, ubVal := if upper then Some(Backup(c, q, uv)) else q.ubVal)
  }

  lemma NoneBackedUp(c: Config, q0: seq<QEntry>, v: seq<real>)
    requires AllWithin(q0, |v|)
    ensures BackedUp(c, q0, q0, 0, v, v, false, true)
  {
  }

  lemma NextEntry(c: Config, q0: seq<QEntry>, q: seq<QEntry>, n: nat, v: seq<real>)
    requires AllWithin(q0, |v|) && BackedUp(c, q0, q, n, v, v, false, true) && n < |q|
    ensures |q| == |q0| && q[n] == q0[n] && Within(q[n].outcomes, |v|)
  {
  }

  lemma NextBackedUp(c: Config, q0: seq<QEntry>, q: seq<QEntry>, n: nat, v: seq<real>, q': seq<QEntry>)
    requires AllWithin(q0, |v|) && BackedUp(c, q0, q, n, v, v, false, true) && n < |q| == |q0|
    requires Within(q0[n].outcomes, |v|) && q' == q[n := q0[n].(ubVal := Some(Backup(c, q0[n], v)))]
    ensures BackedUp(c, q0, q', n + 1, v, v, false, true)
  {
    assert q'[n] == BackedUpEntry(c, q0[n], v, v, false, true);
  }

  lemma BackedUpFresh(c: Config, q0: seq<QEntry>, q: seq<QEntry>, lv: seq<real>, uv: seq<real>, lower: bool,
      upper: bool)
    requires AllWithin(q0, |lv|) && |lv| == |uv| && BackedUp(c, q0, q, |q|, lv, uv, lower, upper)
    ensures SameEdges(q0, q)
    ensures lower ==> forall b | 0 <= b < |q| :: FreshLb(c, q[b], lv)
    ensures upper ==> forall b | 0 <= b < |q| :: FreshUb(c, q[b], uv)
    ensures !lower ==> forall b | 0 <= b < |q| :: q[b].lbVal == q0[b].lbVal
    ensures !upper ==> forall b | 0 <= b < |q| :: q[b].ubVal == q0[b].ubVal
  {
    forall b | 0 <= b < |q|
      ensures q[b].immediateReward == q0[b].immediateReward && q[b].outcomes == q0[b].outcomes
      ensures lower ==> FreshLb(c, q[b], lv)
      ensures upper ==> FreshUb(c, q[b], uv)
    {
      assert q[b] == BackedUpEntry(c, q0[b], lv, uv, lower, upper);
      assert Backup(c, q[b], uv) == Backup(c, q0[b], uv) && Backup(c, q[b], lv) == Backup(c, q0[b], lv);
    }
  }

  ghost predicate FreshUb(c: Config, q: QEntry, v: seq<real>) {
    Within(q.outcomes, |v|) && q.ubVal == Some(Backup(c, q, v))
  }

  ghost predicate FreshLb(c: Config, q: QEntry, v: seq<real>) {
    Within(q.outcomes, |v|) && q.lbVal == Backup(c, q, v)
  }

  ghost predicate SameEdges(p: seq<QEntry>, q: seq<QEntry>) {
    |p| == |q| && forall a | 0 <= a < |p| ::
      p[a].immediateReward == q[a].immediateReward && p[a].outcomes == q[a].outcomes
  }

  /** The part of an update that concerns the upper bound: `v` are the node values that the update reads. */
  ghost predicate UpperUpdated(c: Config, before: MDPNode, after: MDPNode, v: seq<real>, a: nat) {
    && IsMaxUBAction(after.Q, a)
    && FreshUb(c, after.Q[a], v)
    && (forall b | 0 <= b < |after.Q| :: FreshUb(c, after.Q[b], v)
          || (!c.dualPointBounds && b < |before.Q| && after.Q[b].ubVal == before.Q[b].ubVal))
    && after.ubVal == Min(before.ubVal, after.Q[a].ubVal.value)
  }

  /** Entry `b` after the actions in `order` have been backed up. */
  ghost function Recomputed(c: Config, q0: seq<QEntry>, v: seq<real>, order: seq<nat>, b: nat): QEntry
    requires AllWithin(q0, |v|) && b < |q0|
  {
    if b in order then BackedUpEntry(c, q0[b], v, v, false, true) else q0[b]
  }

  ghost function AllRecomputed(c: Config, q0: seq<QEntry>, v: seq<real>, order: seq<nat>): (q: seq<QEntry>)
    requires AllWithin(q0, |v|)
    ensures |q| == |q0| && forall b | 0 <= b < |q| :: q[b] == Recomputed(c, q0, v, order, b)
  {
    seq(|q0|, b requires 0 <= b < |q0| => Recomputed(c, q0, v, order, b))
  }

  /** Each action in `order` has not been backed up before, and has the highest cached value when its turn comes. */
  ghost predicate IsLazy(c: Config, q0: seq<QEntry>, v: seq<real>, order: seq<nat>)
    requires AllWithin(q0, |v|)
  {
    forall i | 0 <= i < |order| ::
      order[i] !in order[..i] && IsMaxUBAction(AllRecomputed(c, q0, v, order[..i]), order[i])
  }

  lemma OneMoreLazy(c: Config, q0: seq<QEntry>, v: seq<real>, order: seq<nat>, q: seq<QEntry>, a: nat)
    requires AllWithin(q0, |v|) && IsLazy(c, q0, v, order) && a !in order && a < |q0|
    requires forall b | b in order :: b < |q0|
    requires |q| == |q0| && (forall b: nat | b < |q| :: q[b] == Recomputed(c, q0, v, order, b)) && IsMaxUBAction(q, a)
    ensures IsLazy(c, q0, v, order + [a]) && |order| < |q0|
  {
    hide IsMaxUBAction, Recomputed;
    var all := order + [a];
    assert AllRecomputed(c, q0, v, order) == q;
    forall i | 0 <= i < |all|
      ensures all[i] !in all[..i] && IsMaxUBAction(AllRecomputed(c, q0, v, all[..i]), all[i])
    {
      if i < |order| {
        assert all[..i] == order[..i] && all[i] == order[i];
      } else {
        assert all[..i] == order;
      }
    }
    LazyIsShort(c, q0, v, all);
  }

  ghost function Items(s: seq<nat>): (r: set<nat>)
    ensures forall i :: i in r <==> i in s
  {
    set i | i in s
  }

  /** No action is backed up twice. */
  lemma LazyIsShort(c: Config, q0: seq<QEntry>, v: seq<real>, order: seq<nat>)
    requires AllWithin(q0, |v|) && IsLazy(c, q0, v, order) && forall b | b in order :: b < |q0|
    ensures |order| <= |q0|
  {
    hide IsMaxUBAction, AllRecomputed;
    ItemsSize(order);
    SubsetOfRange(Items(order), |q0|);
  }

  lemma {:induction false} ItemsSize(order: seq<nat>)
    requires forall i | 0 <= i < |order| :: order[i] !in order[..i]
    ensures |Items(order)| == |order|
  {
    if order != [] {
      var n := |order| - 1;
      forall i | 0 <= i < n
        ensures order[..n][i] !in order[..n][..i]
      {
        assert order[..n][..i] == order[..i];
      }
      ItemsSize(order[..n]);
      assert Items(order) == Items(order[..n]) + {order[n]};
    }
  }

  /** `best` is the first of the highest upper values among the first `n` entries, -1 if there are none. */
  ghost predicate FirstHighest(q: seq<QEntry>, n: nat, best: int, maxVal: real) {
    && n <= |q| && -1 <= best < n && (best == -1 ==> n == 0)
    && (best >= 0 ==> q[best].ubVal == Some(maxVal))
    && (forall b | 0 <= b < n :: q[b].ubVal.Some? && q[b].ubVal.value <= maxVal)
    && (forall b | 0 <= b < best :: q[b].ubVal.value < maxVal)
  }

  lemma NoneYet(q: seq<QEntry>)
    ensures FirstHighest(q, 0, -1, 0.0)
  {
  }

  lemma HighestStep(q: seq<QEntry>, n: nat, best: int, maxVal: real, q': seq<QEntry>, val: real)
    requires FirstHighest(q, n, best, maxVal) && n < |q| == |q'| && q' == q[n := q'[n]] && q'[n].ubVal == Some(val)
    ensures if best == -1 || val > maxVal then FirstHighest(q', n + 1, n, val)
            else FirstHighest(q', n + 1, best, maxVal)
  {
  }

  lemma HighestIsMax(q: seq<QEntry>, best: int, maxVal: real)
    requires q != [] && FirstHighest(q, |q|, best, maxVal)
    ensures best >= 0 && IsMaxUBAction(q, best) && q[best].ubVal == Some(maxVal)
  {
  }

  lemma LazyFresh(c: Config, q0: seq<QEntry>, q: seq<QEntry>, v: seq<real>, order: seq<nat>, a: nat)
    requires |q| == |q0| && AllWithin(q0, |v|) && a < |q| && a in order
    requires forall b | 0 <= b < |q| :: q[b] == Recomputed(c, q0, v, order, b)
    ensures SameEdges(q0, q)
    ensures FreshUb(c, q[a], v)
    ensures forall b | 0 <= b < |q| :: FreshUb(c, q[b], v) || q[b].ubVal == q0[b].ubVal
    ensures forall b | 0 <= b < |q| :: q[b].lbVal == q0[b].lbVal
  {
    forall b | 0 <= b < |q|
      ensures q[b].immediateReward == q0[b].immediateReward && q[b].outcomes == q0[b].outcomes
      ensures Within(q[b].outcomes, |v|) && Backup(c, q[b], v) == Backup(c, q0[b], v)
    {
      assert q[b] == Recomputed(c, q0, v, order, b);
    }
  }

  ghost predicate LowerUpdated(c: Config, before: MDPNode, after: MDPNode, v: seq<real>) {
    if !c.maintainLowerBound then after.lbVal == before.lbVal
    else
      && (forall b | 0 <= b < |after.Q| :: FreshLb(c, after.Q[b], v) && after.Q[b].lbVal <= after.lbVal)
      && before.lbVal <= after.lbVal
      && (after.lbVal == before.lbVal || exists b :: 0 <= b < |after.Q| && after.lbVal == after.Q[b].lbVal)
  }

  /** Updating the lower and then the upper bound is the same as updating both. */
  lemma UpdatesCompose(c: Config, start: MDPNode, mid: MDPNode, end: MDPNode, lv: seq<real>, uv: seq<real>, a: nat)
    requires mid == start || mid == start.(Q := mid.Q, lbVal := mid.lbVal)
    requires |mid.Q| == |start.Q| && |end.Q| == |mid.Q|
    requires forall b | 0 <= b < |mid.Q| :: mid.Q[b].ubVal == start.Q[b].ubVal
    requires end == mid.(Q := end.Q, ubVal := end.ubVal)
    requires SameEdges(start.Q, mid.Q) && SameEdges(mid.Q, end.Q)
    requires forall b | 0 <= b < |mid.Q| :: end.Q[b].lbVal == mid.Q[b].lbVal
    requires LowerUpdated(c, start, mid, lv) && UpperUpdated(c, mid, end, uv, a)
    ensures SameEdges(start.Q, end.Q)
    ensures LowerUpdated(c, start, end, lv) && UpperUpdated(c, start, end, uv, a)
  {
    if c.maintainLowerBound {
      forall b | 0 <= b < |end.Q|
        ensures FreshLb(c, end.Q[b], lv)
      {
        assert FreshLb(c, mid.Q[b], lv);
        assert Backup(c, end.Q[b], lv) == Backup(c, mid.Q[b], lv);
      }
    }
  }

  /** New nodes are fringe nodes with their initial bounds. */
  ghost predicate NewNodesFresh(c: Config, n: nat, after: seq<MDPNode>) {
    forall i | n <= i < |after| :: after[i] == FreshNode(c, after[i].s)
  }

  /** One call of `Update` on node `k` that reports action `a`. */
  ghost predicate UpdateStep(c: Config, before: seq<MDPNode>, k: NodeId, after: seq<MDPNode>, a: nat) {
    && k < |before| <= |after|
    && (forall i | 0 <= i < |before| && i != k :: after[i] == before[i])
    && NewNodesFresh(c, |before|, after)
    && after[k].s == before[k].s
    && after[k].isTerminal == before[k].isTerminal
    && after[k].Q != []
    && (before[k].Q != [] ==> SameEdges(before[k].Q, after[k].Q))
    && UpperUpdated(c, before[k], after[k], UbVals(after)[k := before[k].ubVal], a)
    && LowerUpdated(c, before[k], after[k], LbVals(after)[k := before[k].lbVal])
  }

  /** Expanding and then backing up is one update step. */
  lemma UpdateStepIntro(c: Config, before: seq<MDPNode>, mid: seq<MDPNode>, k: NodeId, after: seq<MDPNode>, a: nat)
    requires k < |before| <= |mid| == |after| && after == mid[k := after[k]]
    requires forall i | 0 <= i < |before| && i != k :: mid[i] == before[i]
    requires NewNodesFresh(c, |before|, mid)
    requires mid[k] == before[k].(Q := mid[k].Q) && mid[k].Q != []
    requires before[k].Q != [] ==> mid[k].Q == before[k].Q
    requires before[k].Q == [] ==> forall b | 0 <= b < |mid[k].Q| :: mid[k].Q[b].ubVal.None?
    requires after[k].s == mid[k].s && after[k].isTerminal == mid[k].isTerminal
    requires SameEdges(mid[k].Q, after[k].Q)
    requires UpperUpdated(c, mid[k], after[k], UbVals(mid), a) && LowerUpdated(c, mid[k], after[k], LbVals(mid))
    ensures UpdateStep(c, before, k, after, a)
  {
    assert UbVals(mid) == UbVals(after)[k := before[k].ubVal];
    assert LbVals(mid) == LbVals(after)[k := before[k].lbVal];
    assert forall b | 0 <= b < |after[k].Q| :: after[k].Q[b].ubVal.Some?;
  }

  /** One call of `GetNode`. */
  ghost predicate GetNodeStep(c: Config, before: seq<MDPNode>, after: seq<MDPNode>) {
    after == before || exists s :: s in c.problem.states && after == before + [FreshNode(c, s)]
  }

  class BoundPair {
    const c: Config
    var nodes: seq<MDPNode>
    var lookup: map<State, NodeId>
    var numStatesTouched: nat
    var numStatesExpanded: nat
    var numBackups: nat

    ghost predicate Valid()
      reads this
    {
      && GraphOk(c, nodes)
      && GraphReady(nodes)
      && LookupOk(nodes, lookup)
      && numStatesTouched == |nodes|
    }

    constructor (config: Config)
      requires config.Valid()
      ensures Valid() && c == config && nodes == []
    {
      c := config;
      nodes, lookup := [], map[];
      numStatesTouched, numStatesExpanded, numBackups := 0, 0, 0;
    }

    /** The unique node for the key of `s`, created as a fringe node with its initial bounds if there is none. */
    method GetNode(s: State) returns (k: NodeId)
      requires Valid() && s in c.problem.states
      modifies this`nodes, this`lookup, this`numStatesTouched
      ensures Valid()
      ensures k < |nodes| && nodes[k].s == s
      ensures nodes == if s in old(lookup) then old(nodes) else old(nodes) + [FreshNode(c, s)]
      ensures GetNodeStep(c, old(nodes), nodes)
    {
      if s in lookup {
        k := lookup[s];
      } else {
        var ubVal := if c.problem.isTerminal(s) then 0.0 else c.initUpper(s);
        var lbVal := if !c.maintainLowerBound then -1.0
                     else if c.problem.isTerminal(s) then 0.0
                     else c.initLower(s);
        k := |nodes|;
        nodes := nodes + [MDPNode(s, c.problem.isTerminal(s), [], lbVal, ubVal)];
        lookup := lookup[s := k];
        numStatesTouched := numStatesTouched + 1;
        assert nodes == old(nodes) + [FreshNode(c, s)];
        GraphOkKept(c, old(nodes), nodes);
      }
    }

    /** Sets up the successors of a fringe node; every edge points to the unique node of the state it leads to. */
    method Expand(k: NodeId)
      requires Valid() && k < |nodes| && nodes[k].Q == []
      modifies this`nodes, this`lookup, this`numStatesTouched, this`numStatesExpanded
      ensures GraphOk(c, nodes) && LookupOk(nodes, lookup) && numStatesTouched == |nodes|
      ensures |old(nodes)| <= |nodes| && NewNodesFresh(c, |old(nodes)|, nodes)
      ensures forall i | 0 <= i < |old(nodes)| && i != k :: nodes[i] == old(nodes)[i]
      ensures nodes[k] == old(nodes)[k].(Q := nodes[k].Q)
      ensures |nodes[k].Q| == c.problem.numActions && numStatesExpanded == old(numStatesExpanded) + 1
      ensures forall a | 0 <= a < |nodes[k].Q| :: nodes[k].Q[a].ubVal.None?
    {
      var s := nodes[k].s;
      var q: seq<QEntry> := [];
      assert NodeOk(c.problem, nodes, nodes[k]);
      hide QOk, EdgesOk, GraphOk, GraphReady, LookupOk;
      for a := 0 to c.problem.numActions
        invariant Valid() && |q| == a
        invariant |old(nodes)| <= |nodes| && nodes[..|old(nodes)|] == old(nodes)
        invariant NewNodesFresh(c, |old(nodes)|, nodes)
        invariant numStatesExpanded == old(numStatesExpanded)
        invariant forall b | 0 <= b < a :: QOk(c.problem, nodes, s, b, q[b]) && q[b].ubVal.None?
      {
        var outcomes := ExpandAction(s, a);
        q := q + [QEntry(c.problem.reward(s, a), outcomes, 0.0, None)];
        NewQOk(c.problem, nodes, s, a, q[a]);
      }
      ghost var mid := nodes;
      nodes := nodes[k := nodes[k].(Q := q)];
      numStatesExpanded := numStatesExpanded + 1;
      ExpandedOk(c, mid, k, q, nodes);
      LookupKept(mid, nodes, lookup);
    }

    /** The edges of one action of `Expand`. */
    method ExpandAction(s: State, a: nat) returns (outcomes: seq<Option<Edge>>)
      requires Valid() && s in c.problem.states && a < c.problem.numActions
      modifies this`nodes, this`lookup, this`numStatesTouched
      ensures Valid()
      ensures EdgesOk(nodes, c.problem.outcomes(s, a), outcomes)
      ensures |old(nodes)| <= |nodes| && nodes[..|old(nodes)|] == old(nodes)
      ensures NewNodesFresh(c, |old(nodes)|, nodes)
      ensures KeepsKeys(old(nodes), nodes)
      ensures forall s, b: nat, q | QOk(c.problem, old(nodes), s, b, q) :: QOk(c.problem, nodes, s, b, q)
    {
      outcomes := [];
      var opv := c.problem.outcomes(s, a);
      assert c.problem.Distribution(opv);
      hide QOk, GraphOk, GraphReady, LookupOk, EdgesOk, EdgeOk, Extends;
      ghost var start := nodes;
      ExtendsRefl(c, start);
      NoEdges(nodes, opv);
      for o := 0 to |opv|
        invariant Valid() && |outcomes| == o && EdgesOk(nodes, opv[..o], outcomes) && Extends(c, start, nodes)
      {
        ghost var before, es := nodes, outcomes;
        var e := ExpandOutcome(opv[o]);
        outcomes := outcomes + [e];
        OneMoreEdge(before, nodes, opv, es, e);
        ExtendsTrans(c, start, before, nodes);
      }
      assert opv[..|opv|] == opv;
      ExtendsIs(c, start, nodes);
      EveryQOkKept(c.problem, start, nodes);
    }

    /** The edge for one outcome, if it has positive probability. */
    method ExpandOutcome(out: Outcome) returns (e: Option<Edge>)
      requires Valid() && (out.prob > 0.0 ==> out.next in c.problem.states)
      modifies this`nodes, this`lookup, this`numStatesTouched
      ensures Valid() && EdgeOk(nodes, out, e) && KeepsKeys(old(nodes), nodes) && Extends(c, old(nodes), nodes)
    {
      hide QOk, GraphOk, GraphReady, LookupOk;
      e := None;
      if out.prob > 0.0 {
        var k := GetNode(out.next);
        e := Some(Edge(out.prob, k));
      }
    }

    /** The backed-up bounds of one action. */
    method QBounds(q: QEntry) returns (lbVal: real, ubVal: real)
      requires Within(q.outcomes, |nodes|)
      ensures lbVal == Backup(c, q, LbVals(nodes)) && ubVal == Backup(c, q, UbVals(nodes))
    {
      var es := q.outcomes;
      lbVal, ubVal := 0.0, 0.0;
      for o := 0 to |es|
        invariant lbVal == Exp(es[..o], LbVals(nodes))
        invariant ubVal == Exp(es[..o], UbVals(nodes))
      {
        assert es[..o + 1][..o] == es[..o];
        if es[o].Some? {
          var e := es[o].value;
          lbVal := lbVal + e.obsProb * nodes[e.nextState].lbVal;
          ubVal := ubVal + e.obsProb * nodes[e.nextState].ubVal;
        }
      }
      assert es[..|es|] == es;
      lbVal := q.immediateReward + c.problem.discount * lbVal;
      ubVal := q.immediateReward + c.problem.discount * ubVal;
    }

    /** Backs up both bounds of an expanded node for every action, when both bounds are point bounds. */
    method UpdateDualPointBounds(k: NodeId) returns (maxUBAction: nat)
      requires GraphOk(c, nodes) && k < |nodes| && nodes[k].Q != [] && c.dualPointBounds
      modifies this`nodes
      ensures |nodes| == |old(nodes)| && nodes == old(nodes)[k := nodes[k]]
      ensures nodes[k] == old(nodes[k]).(Q := nodes[k].Q, lbVal := nodes[k].lbVal, ubVal := nodes[k].ubVal)
      ensures |nodes[k].Q| == |old(nodes[k].Q)| && SameEdges(old(nodes[k].Q), nodes[k].Q)
      ensures UpperUpdated(c, old(nodes[k]), nodes[k], UbVals(old(nodes)), maxUBAction)
      ensures LowerUpdated(c, old(nodes[k]), nodes[k], LbVals(old(nodes)))
    {
      NodeWithin(c, nodes, k);
      assert NodeOk(c.problem, nodes, nodes[k]);
      ghost var lv, uv, start := LbVals(nodes), UbVals(nodes), nodes[k];
      hide GraphOk, BackedUp, FreshUb, FreshLb;
      var q, maxLBVal, maxUBVal, best := DualBackups(nodes[k].Q);
      maxUBAction := best;
      BackedUpFresh(c, start.Q, q, lv, uv, true, true);
      var lbVal, ubVal := Max(nodes[k].lbVal, maxLBVal), Min(nodes[k].ubVal, maxUBVal);
      nodes := nodes[k := nodes[k].(Q := q, lbVal := lbVal, ubVal := ubVal)];
    }

    /** The loop over the actions: backs up both bounds of each, and keeps the best ones. */
    method DualBackups(q0: seq<QEntry>) returns (q: seq<QEntry>, maxLBVal: real, maxUBVal: real, best: int)
      requires AllWithin(q0, |nodes|) && q0 != []
      ensures BackedUp(c, q0, q, |q|, LbVals(nodes), UbVals(nodes), true, true)
      ensures 0 <= best < |q| && IsMaxUBAction(q, best) && q[best].ubVal == Some(maxUBVal)
      ensures forall b | 0 <= b < |q| :: q[b].lbVal <= maxLBVal
      ensures exists b :: 0 <= b < |q| && q[b].lbVal == maxLBVal
    {
      hide Backup, Max, Within;
      q, maxLBVal, maxUBVal, best := q0, 0.0, 0.0, -1;
      ghost var lv, uv := LbVals(nodes), UbVals(nodes);
      for a := 0 to |q|
        invariant |q| == |q0| && BackedUp(c, q0, q, a, lv, uv, true, true)
        invariant forall b | 0 <= b < a :: q[b].ubVal.Some?
        invariant a == 0 <==> best == -1
        invariant a > 0 ==> 0 <= best < a && q[best].ubVal == Some(maxUBVal)
        invariant forall b | 0 <= b < a :: q[b].ubVal.value <= maxUBVal && q[b].lbVal <= maxLBVal
        invariant forall b | 0 <= b < best :: q[b].ubVal.value < maxUBVal
        invariant a > 0 ==> exists b :: 0 <= b < a && q[b].lbVal == maxLBVal
      {
        assert Within(q0[a].outcomes, |nodes|);
        var lbVal, ubVal := QBounds(q[a]);
        q := q[a := q[a].(lbVal := lbVal, ubVal := Some(ubVal))];
        assert q[a].lbVal == lbVal;
        MaxIs(maxLBVal, lbVal);
        maxLBVal := if best == -1 then lbVal else Max(maxLBVal, lbVal);
        if best == -1 || ubVal > maxUBVal {
          maxUBVal, best := ubVal, a;
        }
      }
    }

    /** The lower half of an update when the two bounds are updated separately. */
    method LowerBoundUpdate(k: NodeId)
      requires GraphOk(c, nodes) && k < |nodes| && nodes[k].Q != [] && c.maintainLowerBound
      modifies this`nodes
      ensures |nodes| == |old(nodes)| && nodes == old(nodes)[k := nodes[k]]
      ensures nodes[k] == old(nodes[k]).(Q := nodes[k].Q, lbVal := nodes[k].lbVal)
      ensures |nodes[k].Q| == |old(nodes[k].Q)| && SameEdges(old(nodes[k].Q), nodes[k].Q)
      ensures forall b | 0 <= b < |nodes[k].Q| :: nodes[k].Q[b].ubVal == old(nodes[k].Q)[b].ubVal
      ensures LowerUpdated(c, old(nodes[k]), nodes[k], LbVals(old(nodes)))
    {
      NodeWithin(c, nodes, k);
      assert NodeOk(c.problem, nodes, nodes[k]);
      var q := nodes[k].Q;
      ghost var lv := LbVals(nodes);
      var maxLBVal := 0.0;
      for a := 0 to |q|
        invariant nodes == old(nodes) && |q| == |nodes[k].Q|
        invariant BackedUp(c, nodes[k].Q, q, a, lv, UbVals(nodes), true, false)
        invariant forall b | 0 <= b < a :: q[b].lbVal <= maxLBVal
        invariant a > 0 ==> exists b :: 0 <= b < a && q[b].lbVal == maxLBVal
      {
        assert Within(nodes[k].Q[a].outcomes, |nodes|);
        var lbVal, _ := QBounds(q[a]);
        q := q[a := q[a].(lbVal := lbVal)];
        if a == 0 || maxLBVal < lbVal {
          maxLBVal := lbVal;
          assert q[a].lbVal == maxLBVal;
        }
      }
      BackedUpFresh(c, nodes[k].Q, q, lv, UbVals(nodes), true, false);
      nodes := nodes[k := nodes[k].(Q := q, lbVal := Max(nodes[k].lbVal, maxLBVal))];
    }

    /** Recomputes and caches the upper bound of one action. */
    method GetNewUBValueQ(k: NodeId, a: nat) returns (ubVal: real)
      requires k < |nodes| && a < |nodes[k].Q| && Within(nodes[k].Q[a].outcomes, |nodes|)
      modifies this`nodes
      ensures nodes ==
        old(nodes)[k := old(nodes[k]).(Q := old(nodes[k].Q)[a := old(nodes[k].Q[a]).(ubVal := Some(ubVal))])]
      ensures ubVal == Backup(c, old(nodes[k].Q[a]), UbVals(old(nodes))) && UbVals(nodes) == UbVals(old(nodes))
    {
      var _, val := QBounds(nodes[k].Q[a]);
      ubVal := val;
      nodes := nodes[k := nodes[k].(Q := nodes[k].Q[a := nodes[k].Q[a].(ubVal := Some(ubVal))])];
    }

    /** The upper half of an update, recomputing every action. */
    method UpdateSimple(k: NodeId) returns (maxUBAction: nat)
      requires GraphOk(c, nodes) && k < |nodes| && nodes[k].Q != []
      modifies this`nodes
      ensures |nodes| == |old(nodes)| && nodes == old(nodes)[k := nodes[k]]
      ensures nodes[k] == old(nodes[k]).(Q := nodes[k].Q, ubVal := nodes[k].ubVal)
      ensures |nodes[k].Q| == |old(nodes[k].Q)| && SameEdges(old(nodes[k].Q), nodes[k].Q)
      ensures forall b | 0 <= b < |nodes[k].Q| :: nodes[k].Q[b].lbVal == old(nodes[k].Q)[b].lbVal
      ensures UpperUpdated(c, old(nodes[k]), nodes[k], UbVals(old(nodes)), maxUBAction)
    {
      NodeWithin(c, nodes, k);
      assert NodeOk(c.problem, nodes, nodes[k]);
      hide GraphOk, NodeOk, Backup, FirstHighest, IsMaxUBAction, UbVals, BackedUp, Within, SameEdges;
      ghost var uv, q0 := UbVals(nodes), nodes[k].Q;
      NoneYet(q0);
      NoneBackedUp(c, q0, uv);
      var maxUBVal := 0.0;
      var best := -1;
      for a := 0 to |nodes[k].Q|
        invariant |nodes| == |old(nodes)| && nodes == old(nodes)[k := old(nodes[k]).(Q := nodes[k].Q)]
        invariant UbVals(nodes) == uv
        invariant BackedUp(c, q0, nodes[k].Q, a, uv, uv, false, true)
        invariant FirstHighest(nodes[k].Q, a, best, maxUBVal)
      {
        ghost var before := nodes[k].Q;
        NextEntry(c, q0, before, a, uv);
        var ubVal := GetNewUBValueQ(k, a);
        NextBackedUp(c, q0, before, a, uv, nodes[k].Q);
        HighestStep(before, a, best, maxUBVal, nodes[k].Q, ubVal);
        if best == -1 || ubVal > maxUBVal {
          maxUBVal, best := ubVal, a;
        }
      }
      HighestIsMax(nodes[k].Q, best, maxUBVal);
      maxUBAction := best;
      BackedUpFresh(c, q0, nodes[k].Q, uv, uv, false, true);
      nodes := nodes[k := nodes[k].(ubVal := Min(nodes[k].ubVal, maxUBVal))];
    }

    /** Recomputes only actions whose cached value is the highest, until the highest is a recomputed one.
        It stops after at most one backup per action; the ghost result is the order in which they are backed up. */
    method LazyBackups(q0: seq<QEntry>) returns (q: seq<QEntry>, maxUBAction: nat, ghost order: seq<nat>)
      requires q0 != [] && Defined(q0) && AllWithin(q0, |nodes|)
      ensures |q| == |q0| && IsMaxUBAction(q, maxUBAction)
      ensures IsLazy(c, q0, UbVals(nodes), order) && maxUBAction in order && 1 <= |order| <= |q0|
      ensures forall b | 0 <= b < |q| :: q[b] == Recomputed(c, q0, UbVals(nodes), order, b)
    {
      hide Backup, Within, UbVals, LbVals, IsArgmax, IsMaxUBAction;
      q := q0;
      ghost var uv := UbVals(nodes);
      var n := |q|;
      var cached := seq(n, a requires 0 <= a < |q0| && q0[a].ubVal.Some? => q0[a].ubVal.value);
      var updated := seq(n, a => false);
      order := [];
      maxUBAction := ArgmaxElt(cached);
      while !updated[maxUBAction]
        invariant |cached| == |updated| == n == |q|
        invariant UbVals(nodes) == uv
        invariant forall b | 0 <= b < n :: q[b].ubVal == Some(cached[b])
        invariant forall b: nat | b < n :: q[b] == Recomputed(c, q0, uv, order, b)
        invariant forall b: nat :: b in order <==> b < n && updated[b]
        invariant maxUBAction < n && IsArgmax(cached, maxUBAction) && IsLazy(c, q0, uv, order) && |order| <= n
        decreases n - |order|
      {
        CachedMax(q, cached, maxUBAction);
        OneMoreLazy(c, q0, uv, order, q, maxUBAction);
        var _, val := QBounds(q[maxUBAction]);
        q := q[maxUBAction := q[maxUBAction].(ubVal := Some(val))];
        cached := cached[maxUBAction := val];
        updated := updated[maxUBAction := true];
        order := order + [maxUBAction];
        maxUBAction := ArgmaxElt(cached);
      }
      CachedMax(q, cached, maxUBAction);
    }

    /** The upper half of an update with cached Q values. */
    method UpdateUseCache(k: NodeId) returns (maxUBAction: nat)
      requires GraphOk(c, nodes) && k < |nodes| && nodes[k].Q != [] && Defined(nodes[k].Q) && !c.dualPointBounds
      modifies this`nodes
      ensures |nodes| == |old(nodes)| && nodes == old(nodes)[k := nodes[k]]
      ensures nodes[k] == old(nodes[k]).(Q := nodes[k].Q, ubVal := nodes[k].ubVal)
      ensures |nodes[k].Q| == |old(nodes[k].Q)| && SameEdges(old(nodes[k].Q), nodes[k].Q)
      ensures forall b | 0 <= b < |nodes[k].Q| :: nodes[k].Q[b].lbVal == old(nodes[k].Q)[b].lbVal
      ensures UpperUpdated(c, old(nodes[k]), nodes[k], UbVals(old(nodes)), maxUBAction)
    {
      NodeWithin(c, nodes, k);
      assert NodeOk(c.problem, nodes, nodes[k]);
      var q;
      ghost var order;
      q, maxUBAction, order := LazyBackups(nodes[k].Q);
      LazyFresh(c, nodes[k].Q, q, UbVals(nodes), order, maxUBAction);
      nodes := nodes[k := nodes[k].(Q := q, ubVal := Min(nodes[k].ubVal, q[maxUBAction].ubVal.value))];
    }

    /** Backs up whichever bounds are maintained. */
    method UpdateBounds(k: NodeId) returns (maxUBAction: nat)
      requires GraphOk(c, nodes) && k < |nodes| && nodes[k].Q != []
      requires Defined(nodes[k].Q) || forall b | 0 <= b < |nodes[k].Q| :: nodes[k].Q[b].ubVal.None?
      modifies this`nodes
      ensures |nodes| == |old(nodes)| && nodes == old(nodes)[k := nodes[k]]
      ensures nodes[k].s == old(nodes[k].s) && nodes[k].isTerminal == old(nodes[k].isTerminal)
      ensures |nodes[k].Q| == |old(nodes[k].Q)| && SameEdges(old(nodes[k].Q), nodes[k].Q)
      ensures UpperUpdated(c, old(nodes[k]), nodes[k], UbVals(old(nodes)), maxUBAction)
      ensures LowerUpdated(c, old(nodes[k]), nodes[k], LbVals(old(nodes)))
    {
      hide GraphOk, SameEdges, UpperUpdated, LowerUpdated;
      if c.dualPointBounds {
        maxUBAction := UpdateDualPointBounds(k);
      } else {
        ghost var start := nodes;
        if c.maintainLowerBound {
          LowerBoundUpdate(k);
          GraphOkAfter(c, start, k, nodes);
          assert UbVals(nodes) == UbVals(start);
        }
        ghost var mid := nodes[k];
        if nodes[k].Q[0].ubVal == None {
          maxUBAction := UpdateSimple(k);
        } else {
          maxUBAction := UpdateUseCache(k);
        }
        UpdatesCompose(c, start[k], mid, nodes[k], LbVals(start), UbVals(start), maxUBAction);
      }
    }

    /** Expands a fringe node, then backs it up. */
    method Update(k: NodeId) returns (maxUBAction: nat)
      requires Valid() && k < |nodes|
      modifies this
      ensures Valid()
      ensures UpdateStep(c, old(nodes), k, nodes, maxUBAction)
      ensures numBackups == old(numBackups) + 1
      ensures numStatesExpanded == old(numStatesExpanded) + if old(nodes[k].Q) == [] then 1 else 0
    {
      hide FreshUb, LowerUpdated, QOk, EdgeOk, UpdateStep, Within, Backup;
      if nodes[k].Q == [] {
        Expand(k);
      }
      ghost var mid := nodes;
      assert forall i | 0 <= i < |mid| && i != k :: Defined(mid[i].Q);
      hide Defined, UpperUpdated, LookupOk, GraphOk, GraphReady;
      maxUBAction := UpdateBounds(k);
      numBackups := numBackups + 1;
      GraphOkAfter(c, mid, k, nodes);
      ReadyAfter(c, mid, k, nodes, lookup, UbVals(mid), maxUBAction);
      UpdateStepIntro(c, old(nodes), mid, k, nodes, maxUBAction);
    }

    /** The first action of highest cached upper bound; relies on the Q values being cached. */
    method GetMaxUBAction(k: NodeId) returns (bestAction: nat)
      requires k < |nodes| && nodes[k].Q != [] && Defined(nodes[k].Q)
      ensures IsMaxUBAction(nodes[k].Q, bestAction)
    {
      var bestVal := 0.0;
      var best := -1;
      var q := nodes[k].Q;
      for a := 0 to |q|
        invariant FirstHighest(q, a, best, bestVal)
      {
        HighestStep(q, a, best, bestVal, q, q[a].ubVal.value);
        if best == -1 || q[a].ubVal.value > bestVal {
          bestVal, best := q[a].ubVal.value, a;
        }
      }
      HighestIsMax(q, best, bestVal);
      bestAction := best;
    }

    /** Chooses an outcome of an action from a random draw `r` between 0 and 1: the first edge at which the running
        probability reaches `r`. There always is one. */
    method GetSimulatedOutcome(k: NodeId, a: nat, r: real) returns (o: nat)
      requires Valid() && k < |nodes| && a < |nodes[k].Q| && 0.0 <= r <= 1.0
      ensures Simulated(nodes[k].Q[a].outcomes, r, o)
    {
      assert NodeOk(c.problem, nodes, nodes[k]);
      assert QOk(c.problem, nodes, nodes[k].s, a, nodes[k].Q[a]);
      EdgeMass(c, nodes, nodes[k].s, a, nodes[k].Q[a]);
      o := ChooseEdge(nodes[k].Q[a].outcomes, r);
    }

    /** Overwrites the upper bound of a node, as the labelling searches do. */
    method SetUb(k: NodeId, val: real)
      requires Valid() && k < |nodes|
      modifies this`nodes
      ensures Valid()
      ensures nodes == old(nodes)[k := old(nodes)[k].(ubVal := val)]
    {
      nodes := nodes[k := nodes[k].(ubVal := val)];
      GraphOkAfter(c, old(nodes), k, nodes);
    }
  }

  lemma MassPrefix(es: seq<Option<Edge>>, i: nat)
    requires i < |es|
    ensures Mass(es[..i + 1]) == Mass(es[..i]) + if es[i].Some? then es[i].value.obsProb else 0.0
  {
    assert es[..i + 1][..i] == es[..i];
  }

  /** At edge `o`, and at none before it, the running probability reaches `r`. */
  ghost predicate Simulated(es: seq<Option<Edge>>, r: real, o: nat) {
    && o < |es| && es[o].Some? && r <= Mass(es[..o + 1])
    && forall p | 0 <= p < o && es[p].Some? :: Mass(es[..p + 1]) < r
  }

  /** The edge present at which the running probability first reaches `r`. */
  method ChooseEdge(es: seq<Option<Edge>>, r: real) returns (o: nat)
    requires 0.0 <= r <= Mass(es) && Mass(es) > 0.0
    ensures Simulated(es, r, o)
  {
    var rest, found := r, false;
    o := 0;
    assert es[..|es|] == es && Mass(es[..0]) == 0.0;
    hide Mass;
    for i := 0 to |es|
      invariant !found && rest == r - Mass(es[..i]) && (rest > 0.0 || Mass(es[..i]) == 0.0)
      invariant forall p | 0 <= p < i && es[p].Some? :: Mass(es[..p + 1]) < r
    {
      MassPrefix(es, i);
      if es[i].Some? {
        rest := rest - es[i].value.obsProb;
        if rest <= 0.0 {
          o, found := i, true;
          break;
        }
      }
    }
    assert found;
  }

  ghost predicate IsArgmax(v: seq<real>, i: nat) {
    && i < |v|
    && (forall j | 0 <= j < |v| :: v[j] <= v[i])
    && (forall j | 0 <= j < i :: v[j] < v[i])
  }

  lemma CachedMax(q: seq<QEntry>, v: seq<real>, a: nat)
    requires |q| == |v| && IsArgmax(v, a) && forall b | 0 <= b < |q| :: q[b].ubVal == Some(v[b])
    ensures IsMaxUBAction(q, a)
  {
  }

  /** The index of the first maximal element. */
  method ArgmaxElt(v: seq<real>) returns (maxInd: nat)
    requires |v| > 0
    ensures maxInd < |v| && IsArgmax(v, maxInd)
  {
    var maxval := v[0];
    maxInd := 0;
    for i := 1 to |v|
      invariant maxInd < i && maxval == v[maxInd]
      invariant forall j | 0 <= j < i :: v[j] <= maxval
      invariant forall j | 0 <= j < maxInd :: v[j] < maxval
    {
      if v[i] > maxval {
        maxInd, maxval := i, v[i];
      }
    }
  }

  ghost function Range(n: nat): (r: set<nat>)
    ensures |r| == n && forall i: nat :: i in r <==> i < n
  {
    if n == 0 then {} else Range(n - 1) + {n - 1}
  }

  lemma SubsetOfRange(s: set<nat>, n: nat)
    requires forall i | i in s :: i < n
    ensures |s| <= n
  {
    SubsetSize(s, Range(n));
  }

  lemma SubsetSize<T>(s: set<T>, r: set<T>)
    requires s <= r
    ensures |s| <= |r|
  {
    assert r == s + (r - s);
  }

  lemma ReadyAfter(c: Config, before: seq<MDPNode>, k: NodeId, after: seq<MDPNode>, lookup: map<State, NodeId>,
                   v: seq<real>, a: nat)
    requires LookupOk(before, lookup) && k < |before| == |after| && after == before[k := after[k]]
    requires after[k].s == before[k].s && UpperUpdated(c, before[k], after[k], v, a)
    requires forall i | 0 <= i < |before| && i != k :: Defined(before[i].Q)
    ensures LookupOk(after, lookup) && GraphReady(after)
  {
  }

  lemma GraphOkAfter(c: Config, before: seq<MDPNode>, k: NodeId, after: seq<MDPNode>)
    requires GraphOk(c, before) && k < |before|
    requires |after| == |before| && after == before[k := after[k]]
    requires after[k].s == before[k].s && after[k].isTerminal == before[k].isTerminal
    requires SameEdges(before[k].Q, after[k].Q)
    ensures GraphOk(c, after)
  {
    forall i | 0 <= i < |after|
      ensures NodeOk(c.problem, after, after[i])
    {
      assert NodeOk(c.problem, before, before[i]);
      if before[i].Q != [] {
        QsOkKept(c.problem, before, after, before[i].s, before[i].Q);
        if i == k {
          forall a | 0 <= a < |after[k].Q|
            ensures QOk(c.problem, after, after[k].s, a, after[k].Q[a])
          {
            assert QOk(c.problem, after, before[k].s, a, before[k].Q[a]);
          }
        }
      }
    }
  }
}
