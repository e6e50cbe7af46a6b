/** What holds of the bounds over every interleaving of node creations and updates. */
module BoundTheory {
  import opened Wrappers
  import opened RealArith
  import opened Mdp
  import opened BoundPairs

  // ---------- The bounds bracket the optimal value ----------

  /** The initial bounds bracket `V`. */
  ghost predicate InitialBracket(c: Config, V: State -> real) {
    forall s | s in c.problem.states ::
      V(s) <= InitialUb(c, s) && (c.maintainLowerBound ==> InitialLb(c, s) <= V(s))
  }

  ghost predicate NodeBrackets(c: Config, V: State -> real, n: MDPNode) {
    && V(n.s) <= n.ubVal
    && (c.maintainLowerBound ==> n.lbVal <= V(n.s))
    && forall b | 0 <= b < |n.Q| && n.Q[b].ubVal.Some? :: Lookahead(c.problem, V, n.s, b) <= n.Q[b].ubVal.value
  }

  /** Every bound brackets `V`, and every cached Q value, stale or not, is above the lookahead value. */
  ghost predicate Brackets(c: Config, V: State -> real, nodes: seq<MDPNode>) {
    forall i | 0 <= i < |nodes| :: NodeBrackets(c, V, nodes[i])
  }

  ghost function ValuesOf(V: State -> real, nodes: seq<MDPNode>): (v: seq<real>)
    ensures |v| == |nodes| && forall i | 0 <= i < |v| :: v[i] == V(nodes[i].s)
  {
    seq(|nodes|, i requires 0 <= i < |nodes| => V(nodes[i].s))
  }

  /** A backup from values above `V` is above the lookahead on `V`, and likewise below. */
  lemma BackupBrackets(c: Config, V: State -> real, nodes: seq<MDPNode>, s: State, b: nat, q: QEntry, v: seq<real>)
    requires c.Valid() && s in c.problem.states && b < c.problem.numActions && QOk(c.problem, nodes, s, b, q)
    requires |v| == |nodes|
    ensures Within(q.outcomes, |v|)
    ensures (forall i | 0 <= i < |v| :: V(nodes[i].s) <= v[i]) ==> Lookahead(c.problem, V, s, b) <= Backup(c, q, v)
    ensures (forall i | 0 <= i < |v| :: v[i] <= V(nodes[i].s)) ==> Backup(c, q, v) <= Lookahead(c.problem, V, s, b)
  {
    var vv := ValuesOf(V, nodes);
    BackupOfModel(c, nodes, s, b, q, vv, V);
    if forall i | 0 <= i < |v| :: V(nodes[i].s) <= v[i] {
      BackupShift(c, q, vv, v, 0.0);
      TimesIs(c.problem.discount, 0.0);
    }
    if forall i | 0 <= i < |v| :: v[i] <= V(nodes[i].s) {
      BackupShift(c, q, v, vv, 0.0);
      TimesIs(c.problem.discount, 0.0);
    }
  }

  /** One update keeps `lbVal <= V <= ubVal` at every node. */
  lemma UpdateBrackets(c: Config, V: State -> real, before: seq<MDPNode>, k: NodeId, after: seq<MDPNode>, a: nat)
    requires GraphOk(c, before) && GraphOk(c, after) && UpdateStep(c, before, k, after, a)
    requires BellmanOptimal(c.problem, V) && InitialBracket(c, V) && Brackets(c, V, before)
    ensures Brackets(c, V, after)
  {
    forall i | 0 <= i < |after| && i != k
      ensures NodeBrackets(c, V, after[i])
    {
      assert NodeOk(c.problem, after, after[i]);
      if i < |before| {
        assert NodeBrackets(c, V, before[i]);
      } else {
        assert after[i] == FreshNode(c, after[i].s);
      }
    }
    assert NodeBrackets(c, V, before[k]);
    UpdatedNodeBrackets(c, V, before[k], after, k, a);
  }

  lemma UpdatedNodeBrackets(c: Config, V: State -> real, before: MDPNode, nodes: seq<MDPNode>, k: NodeId, a: nat)
    requires GraphOk(c, nodes) && k < |nodes| && nodes[k].s == before.s && nodes[k].Q != []
    requires BellmanOptimal(c.problem, V) && NodeBrackets(c, V, before)
    requires forall i | 0 <= i < |nodes| && i != k :: NodeBrackets(c, V, nodes[i])
    requires UpperUpdated(c, before, nodes[k], UbVals(nodes)[k := before.ubVal], a)
    requires LowerUpdated(c, before, nodes[k], LbVals(nodes)[k := before.lbVal])
    ensures NodeBrackets(c, V, nodes[k])
  {
    var n, s := nodes[k], nodes[k].s;
    assert NodeOk(c.problem, nodes, n);
    var uv, lv := UbVals(nodes)[k := before.ubVal], LbVals(nodes)[k := before.lbVal];
    forall b | 0 <= b < |n.Q|
      ensures n.Q[b].ubVal.Some? ==> Lookahead(c.problem, V, s, b) <= n.Q[b].ubVal.value
      ensures c.maintainLowerBound ==> n.Q[b].lbVal <= Lookahead(c.problem, V, s, b)
    {
      assert QOk(c.problem, nodes, s, b, n.Q[b]);
      BackupBrackets(c, V, nodes, s, b, n.Q[b], uv);
      BackupBrackets(c, V, nodes, s, b, n.Q[b], lv);
    }
    hide Lookahead, Backup, GraphOk, QOk;
    var best: nat :| best < c.problem.numActions && V(s) == Lookahead(c.problem, V, s, best);
    assert n.Q[best].ubVal.value <= n.Q[a].ubVal.value;
  }

  // ---------- Every run ----------

  /** One step of a run: a node is looked up (and perhaps created), or a node is updated. */
  ghost predicate RunStep(c: Config, before: seq<MDPNode>, after: seq<MDPNode>) {
    GetNodeStep(c, before, after) || exists k, a :: UpdateStep(c, before, k, after, a)
  }

  /** A run starts with an empty graph; every graph along it is well formed. */
  ghost predicate Run(c: Config, h: seq<seq<MDPNode>>) {
    && h != []
    && h[0] == []
    && (forall t | 0 <= t < |h| :: GraphOk(c, h[t]))
    && (forall t | 0 < t < |h| :: RunStep(c, h[t - 1], h[t]))
  }

  /** Lower values never fall and upper values never rise; nodes keep their keys. */
  ghost predicate Tightens(before: seq<MDPNode>, after: seq<MDPNode>) {
    && KeepsKeys(before, after)
    && forall i | 0 <= i < |before| :: before[i].lbVal <= after[i].lbVal && after[i].ubVal <= before[i].ubVal
  }

  lemma StepTightens(c: Config, before: seq<MDPNode>, after: seq<MDPNode>)
    requires RunStep(c, before, after)
    ensures Tightens(before, after)
  {
  }

  lemma RunPrefix(c: Config, h: seq<seq<MDPNode>>, n: nat)
    requires Run(c, h) && 0 < n <= |h|
    ensures Run(c, h[..n])
  {
    hide GraphOk, RunStep;
    var g := h[..n];
    forall t | 0 < t < |g|
      ensures RunStep(c, g[t - 1], g[t])
    {
      assert g[t - 1] == h[t - 1] && g[t] == h[t];
    }
  }

  lemma StepBrackets(c: Config, V: State -> real, before: seq<MDPNode>, after: seq<MDPNode>)
    requires GraphOk(c, before) && GraphOk(c, after) && RunStep(c, before, after)
    requires BellmanOptimal(c.problem, V) && InitialBracket(c, V) && Brackets(c, V, before)
    ensures Brackets(c, V, after)
  {
    hide UpdateStep, BellmanOptimal;
    if k, a :| UpdateStep(c, before, k, after, a) {
      UpdateBrackets(c, V, before, k, after, a);
    } else {
      assert GetNodeStep(c, before, after);
      forall i | 0 <= i < |after| ensures NodeBrackets(c, V, after[i]) {
        assert NodeOk(c.problem, after, after[i]);
        if i < |before| { assert NodeBrackets(c, V, before[i]); }
      }
    }
  }

  /** In every run, at every moment, the bounds bracket the optimal value. */
  lemma {:induction false} RunBrackets(c: Config, V: State -> real, h: seq<seq<MDPNode>>)
    requires Run(c, h) && BellmanOptimal(c.problem, V) && InitialBracket(c, V)
    ensures Brackets(c, V, h[|h| - 1])
    decreases |h|
  {
    hide GraphOk, RunStep, BellmanOptimal, InitialBracket;
    var n := |h| - 1;
    if n > 0 {
      RunPrefix(c, h, n);
      RunBrackets(c, V, h[..n]);
      assert h[..n][n - 1] == h[n - 1] && RunStep(c, h[n - 1], h[n]);
      StepBrackets(c, V, h[n - 1], h[n]);
    }
  }

  /** Between any two moments of a run the bounds only tighten. */
  lemma {:induction false} RunTightens(c: Config, h: seq<seq<MDPNode>>, t: nat, u: nat)
    requires Run(c, h) && t <= u < |h|
    ensures Tightens(h[t], h[u])
    decreases u - t
  {
    if t < u {
      RunTightens(c, h, t, u - 1);
      assert RunStep(c, h[u - 1], h[u]);
      StepTightens(c, h[u - 1], h[u]);
    }
  }

  // ---------- The lazy upper bound ----------

  ghost predicate CacheSoundAt(c: Config, nodes: seq<MDPNode>, i: nat)
    requires i < |nodes|
  {
    forall b | 0 <= b < |nodes[i].Q| && nodes[i].Q[b].ubVal.Some? ::
      && Within(nodes[i].Q[b].outcomes, |nodes|)
      && Backup(c, nodes[i].Q[b], UbVals(nodes)) <= nodes[i].Q[b].ubVal.value
  }

  /** Every cached Q value is at least its fresh backup. */
  ghost predicate CacheSound(c: Config, nodes: seq<MDPNode>) {
    forall i | 0 <= i < |nodes| :: CacheSoundAt(c, nodes, i)
  }

  /** Backups only fall when upper values only fall. */
  lemma BackupFalls(c: Config, before: seq<MDPNode>, after: seq<MDPNode>, s: State, b: nat, q: QEntry, v: seq<real>,
      w: seq<real>)
    requires c.Valid() && s in c.problem.states && b < c.problem.numActions
    requires QOk(c.problem, after, s, b, q)
    requires |w| == |after| && Within(q.outcomes, |v|) && |v| <= |w|
    requires forall i | 0 <= i < |v| :: w[i] <= v[i]
    ensures Within(q.outcomes, |w|) && Backup(c, q, w) <= Backup(c, q, v)
  {
    hide Backup, Times;
    EdgeMass(c, after, s, b, q);
    BackupShift(c, q, w, v, 0.0);
    TimesIs(c.problem.discount, 0.0);
  }

  /** Updates keep cached Q values at or above their fresh backups. */
  lemma UpdateKeepsCacheSound(c: Config, before: seq<MDPNode>, k: NodeId, after: seq<MDPNode>, a: nat)
    requires GraphOk(c, before) && GraphOk(c, after) && UpdateStep(c, before, k, after, a) && CacheSound(c, before)
    ensures CacheSound(c, after)
  {
    var w := UbVals(after);
    forall i | 0 <= i < |after|
      ensures CacheSoundAt(c, after, i)
    {
      assert NodeOk(c.problem, after, after[i]);
      assert i >= |before| ==> after[i] == FreshNode(c, after[i].s);
      forall b | 0 <= b < |after[i].Q| && after[i].Q[b].ubVal.Some?
        ensures Within(after[i].Q[b].outcomes, |after|)
        ensures Backup(c, after[i].Q[b], w) <= after[i].Q[b].ubVal.value
      {
        KeptSound(c, before, k, after, a, i, b);
      }
    }
  }

  lemma SameBackup(c: Config, q: QEntry, r: QEntry, v: seq<real>)
    requires q.immediateReward == r.immediateReward && q.outcomes == r.outcomes && Within(q.outcomes, |v|)
    ensures Backup(c, q, v) == Backup(c, r, v)
  {
  }

  lemma KeptSound(c: Config, before: seq<MDPNode>, k: NodeId, after: seq<MDPNode>, a: nat, i: nat, b: nat)
    requires GraphOk(c, before) && GraphOk(c, after) && UpdateStep(c, before, k, after, a) && CacheSound(c, before)
    requires i < |after| && (i >= |before| ==> after[i] == FreshNode(c, after[i].s))
    requires b < |after[i].Q| && after[i].Q[b].ubVal.Some?
    ensures Within(after[i].Q[b].outcomes, |after|)
    ensures Backup(c, after[i].Q[b], UbVals(after)) <= after[i].Q[b].ubVal.value
  {
    var q, w := after[i].Q[b], UbVals(after);
    assert NodeOk(c.problem, after, after[i]) && QOk(c.problem, after, after[i].s, b, q);
    var mid := w[k := before[k].ubVal];
    hide Exp;
    if i == k && FreshUb(c, q, mid) {
      hide Backup, QOk, CacheSound;
      BackupFalls(c, before, after, after[i].s, b, q, mid, w);
    } else {
      assert CacheSoundAt(c, before, i);
      var was := before[i].Q[b];
      SameBackup(c, q, was, UbVals(before));
      hide Backup;
      BackupFalls(c, before, after, after[i].s, b, q, UbVals(before), w);
    }
  }

  lemma StepKeepsCacheSound(c: Config, before: seq<MDPNode>, after: seq<MDPNode>)
    requires GraphOk(c, before) && GraphOk(c, after) && RunStep(c, before, after) && CacheSound(c, before)
    ensures CacheSound(c, after)
  {
    hide GraphOk, UpdateStep, CacheSound;
    if k, a :| UpdateStep(c, before, k, after, a) {
      UpdateKeepsCacheSound(c, before, k, after, a);
    } else {
      GetNodeKeepsCacheSound(c, before, after);
    }
  }

  /** In every run the cached Q values are at least their fresh backups. */
  lemma {:induction false} RunCacheSound(c: Config, h: seq<seq<MDPNode>>)
    requires Run(c, h)
    ensures CacheSound(c, h[|h| - 1])
    decreases |h|
  {
    hide GraphOk, RunStep;
    var n := |h| - 1;
    if n > 0 {
      RunPrefix(c, h, n);
      RunCacheSound(c, h[..n]);
      assert h[..n][n - 1] == h[n - 1] && RunStep(c, h[n - 1], h[n]);
      StepKeepsCacheSound(c, h[n - 1], h[n]);
    }
  }

  lemma GetNodeKeepsCacheSound(c: Config, before: seq<MDPNode>, after: seq<MDPNode>)
    requires GraphOk(c, after) && GetNodeStep(c, before, after) && CacheSound(c, before)
    ensures CacheSound(c, after)
  {
    forall i | 0 <= i < |after|
      ensures CacheSoundAt(c, after, i)
    {
      assert NodeOk(c.problem, after, after[i]);
      if i < |before| {
        assert CacheSoundAt(c, before, i);
        forall b | 0 <= b < |after[i].Q| && after[i].Q[b].ubVal.Some?
          ensures Within(after[i].Q[b].outcomes, |after|)
          ensures Backup(c, after[i].Q[b], UbVals(after)) <= after[i].Q[b].ubVal.value
        {
          assert QOk(c.problem, after, after[i].s, b, after[i].Q[b]);
          BackupFalls(c, before, after, after[i].s, b, after[i].Q[b], UbVals(before), UbVals(after));
        }
      }
    }
  }

  /** With sound caches, an update, lazy or not, finds the highest of all fresh backups and an action attaining it. */
  lemma LazyUpdateIsExact(c: Config, before: seq<MDPNode>, k: NodeId, after: seq<MDPNode>, a: nat)
    requires GraphOk(c, before) && GraphOk(c, after) && UpdateStep(c, before, k, after, a) && CacheSound(c, before)
    ensures AllWithin(after[k].Q, |after|)
    ensures var v := UbVals(after)[k := before[k].ubVal];
      && a < c.problem.numActions
      && (forall b | 0 <= b < |after[k].Q| :: Backup(c, after[k].Q[b], v) <= Backup(c, after[k].Q[a], v))
      && after[k].ubVal == Min(before[k].ubVal, Backup(c, after[k].Q[a], v))
  {
    NodeWithin(c, after, k);
    assert NodeOk(c.problem, after, after[k]);
    var v := UbVals(after)[k := before[k].ubVal];
    forall b | 0 <= b < |after[k].Q|
      ensures Backup(c, after[k].Q[b], v) <= after[k].Q[b].ubVal.value
    {
      CachedAboveFresh(c, before, k, after, a, b);
    }
    hide GraphOk, CacheSound, Backup, Within, SameEdges, NewNodesFresh;
  }

  /** After an update, a cached Q value of the node is at least its backup from the values that the update read. */
  lemma CachedAboveFresh(c: Config, before: seq<MDPNode>, k: NodeId, after: seq<MDPNode>, a: nat, b: nat)
    requires GraphOk(c, before) && GraphOk(c, after) && UpdateStep(c, before, k, after, a) && CacheSound(c, before)
    requires AllWithin(after[k].Q, |after|) && b < |after[k].Q|
    ensures after[k].Q[b].ubVal.Some?
    ensures Backup(c, after[k].Q[b], UbVals(after)[k := before[k].ubVal]) <= after[k].Q[b].ubVal.value
  {
    var v, q := UbVals(after)[k := before[k].ubVal], after[k].Q[b];
    if !FreshUb(c, q, v) {
      assert CacheSoundAt(c, before, k);
      assert NodeOk(c.problem, after, after[k]) && QOk(c.problem, after, after[k].s, b, q);
      hide Exp;
      SameBackup(c, q, before[k].Q[b], UbVals(before));
      hide Backup;
      BackupFalls(c, before, after, after[k].s, b, q, UbVals(before), v);
    }
  }

  // ---------- Widths ----------

  function Width(n: MDPNode): real { n.ubVal - n.lbVal }

  /** The width of node `i` as an update of node `k` reads it. */
  function WidthRead(before: seq<MDPNode>, k: NodeId, after: seq<MDPNode>, i: NodeId): real
    requires k < |before| && i < |after|
  {
    if i == k then Width(before[k]) else Width(after[i])
  }

  /** With two point bounds, an update leaves a node at most `discount * w` wide
      when every successor under the reported action was at most `w` wide. */
  lemma UpdateNarrows(c: Config, before: seq<MDPNode>, k: NodeId, after: seq<MDPNode>, a: nat, w: real)
    requires GraphOk(c, after) && UpdateStep(c, before, k, after, a) && c.dualPointBounds
    requires AllWithin(after[k].Q, |after|)
    requires forall o | 0 <= o < |after[k].Q[a].outcomes| && after[k].Q[a].outcomes[o].Some? ::
      WidthRead(before, k, after, after[k].Q[a].outcomes[o].value.nextState) <= w
    ensures Width(after[k]) <= Times(c.problem.discount, w)
  {
    var n := after[k];
    var q := n.Q[a];
    var uv, lv := UbVals(after)[k := before[k].ubVal], LbVals(after)[k := before[k].lbVal];
    assert NodeOk(c.problem, after, n);
    assert QOk(c.problem, after, n.s, a, q);
    EdgeMass(c, after, n.s, a, q);
    assert FreshLb(c, q, lv);
    hide Backup, Times;
    BackupShift(c, q, uv, lv, w);
  }

  /** Some edge is present under every action. */
  lemma SomeEdge(c: Config, nodes: seq<MDPNode>, k: NodeId, a: nat) returns (o: nat)
    requires GraphOk(c, nodes) && k < |nodes| && a < |nodes[k].Q|
    ensures o < |nodes[k].Q[a].outcomes| && nodes[k].Q[a].outcomes[o].Some?
  {
    assert NodeOk(c.problem, nodes, nodes[k]);
    var q := nodes[k].Q[a];
    assert QOk(c.problem, nodes, nodes[k].s, a, q);
    EdgeMass(c, nodes, nodes[k].s, a, q);
    o := EdgeOfMass(q.outcomes);
  }

  lemma EdgeOfMass(es: seq<Option<Edge>>) returns (o: nat)
    requires Mass(es) > 0.0
    ensures o < |es| && es[o].Some?
  {
    o := |es| - 1;
    if es[o].None? {
      o := EdgeOfMass(es[..o]);
    }
  }

  // ---------- What any stretch of bound updates does ----------

  /** The edges of an expanded node never change. */
  ghost predicate KeepsEdges(before: seq<MDPNode>, after: seq<MDPNode>) {
    |before| <= |after| && forall i | 0 <= i < |before| && before[i].Q != [] :: SameEdges(before[i].Q, after[i].Q)
  }

  /** The bounds tighten, new nodes start no wider than their initial bounds, and every bracket is kept. */
  ghost predicate Refines(c: Config, before: seq<MDPNode>, after: seq<MDPNode>) {
    && Tightens(before, after)
    && KeepsEdges(before, after)
    && (forall i | |before| <= i < |after| ::
          InitialLb(c, after[i].s) <= after[i].lbVal && after[i].ubVal <= InitialUb(c, after[i].s))
    && forall V: State -> real | BellmanOptimal(c.problem, V) && InitialBracket(c, V) && Brackets(c, V, before) ::
         Brackets(c, V, after)
  }

  lemma RefinesRefl(c: Config, g: seq<MDPNode>)
    ensures Refines(c, g, g)
  {
  }

  lemma RefinesTrans(c: Config, g: seq<MDPNode>, h: seq<MDPNode>, k: seq<MDPNode>)
    requires Refines(c, g, h) && Refines(c, h, k)
    ensures Refines(c, g, k)
  {
    hide Brackets, BellmanOptimal, InitialBracket;
    forall i | 0 <= i < |g| && g[i].Q != []
      ensures SameEdges(g[i].Q, k[i].Q)
    {
      assert SameEdges(g[i].Q, h[i].Q) && SameEdges(h[i].Q, k[i].Q);
    }
  }

  lemma UpdateRefines(c: Config, before: seq<MDPNode>, k: NodeId, after: seq<MDPNode>, a: nat)
    requires GraphOk(c, before) && GraphOk(c, after) && UpdateStep(c, before, k, after, a)
    ensures Refines(c, before, after)
  {
    forall i | |before| <= i < |after|
      ensures InitialLb(c, after[i].s) <= after[i].lbVal && after[i].ubVal <= InitialUb(c, after[i].s)
    {
      assert after[i] == FreshNode(c, after[i].s);
    }
    forall V: State -> real | BellmanOptimal(c.problem, V) && InitialBracket(c, V) && Brackets(c, V, before)
      ensures Brackets(c, V, after)
    {
      UpdateBrackets(c, V, before, k, after, a);
    }
  }

  lemma RefinesGrows(c: Config, g: seq<MDPNode>, h: seq<MDPNode>)
    requires Refines(c, g, h)
    ensures |g| <= |h|
  {
  }

  lemma UpdatedOthers(c: Config, before: seq<MDPNode>, k: NodeId, after: seq<MDPNode>, a: nat)
    requires UpdateStep(c, before, k, after, a)
    ensures |before| <= |after| && forall i | 0 <= i < |before| && i != k :: after[i] == before[i]
  {
  }

  lemma UpdatedAction(c: Config, before: seq<MDPNode>, k: NodeId, after: seq<MDPNode>, a: nat)
    requires UpdateStep(c, before, k, after, a)
    ensures k < |after| && a < |after[k].Q|
  {
  }

  /** A stretch of search whose last step is a backup of node `k`. */
  ghost predicate EndsWithUpdate(c: Config, before: seq<MDPNode>, k: NodeId, after: seq<MDPNode>) {
    exists mid, a :: Refines(c, before, mid) && UpdateStep(c, mid, k, after, a)
  }

  lemma EndedWithUpdate(c: Config, before: seq<MDPNode>, mid: seq<MDPNode>, k: NodeId, after: seq<MDPNode>, a: nat)
    requires Refines(c, before, mid) && UpdateStep(c, mid, k, after, a)
    ensures EndsWithUpdate(c, before, k, after)
  {
  }
}
