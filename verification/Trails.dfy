/** The steps that a labelling search takes, and what can be said of the states in between. */
module Trails {
  import opened Wrappers
  import opened RealArith
  import opened Mdp
  import opened BoundPairs
  import opened BoundTheory
  import opened Labels

  datatype Graph = Graph(nodes: seq<MDPNode>, lookup: map<State, NodeId>)

  /** Action `a` has the highest upper Q value of the expanded node `k`, and that value is up to date. */
  ghost predicate Highest(c: Config, g: Graph, k: NodeId, a: nat) {
    && k < |g.nodes| && !g.nodes[k].isTerminal && g.nodes[k].Q != []
    && IsMaxUBAction(g.nodes[k].Q, a) && FreshUb(c, g.nodes[k].Q[a], UbVals(g.nodes))
  }

  /** The upper value of node `k` is more than `eps` away from its highest Q value. */
  ghost predicate Measured(c: Config, eps: real, g: Graph, k: NodeId, a: nat) {
    Highest(c, g, k, a) && Abs(g.nodes[k].ubVal - g.nodes[k].Q[a].ubVal.value) > eps
  }

  /** The upper value of node `k` is overwritten by its highest Q value. */
  ghost predicate TakesHighest(c: Config, g: Graph, k: NodeId, a: nat, h: Graph) {
    Highest(c, g, k, a) && h == Graph(g.nodes[k := g.nodes[k].(ubVal := g.nodes[k].Q[a].ubVal.value)], g.lookup)
  }

  /** The Q values of node `k` are backed up, and its upper value is restored. */
  ghost predicate CachesQ(c: Config, g: Graph, k: NodeId, m: seq<MDPNode>, a: nat, h: Graph) {
    && UpdateStep(c, g.nodes, k, m, a) && k < |g.nodes| && k < |m|
    && h.nodes == m[k := m[k].(ubVal := g.nodes[k].ubVal)]
  }

  /** A backup, a backup whose change of the upper value is undone, or the overwriting of an upper value. */
  ghost predicate SearchStep(c: Config, g: Graph, h: Graph) {
    || (exists k, a :: UpdateStep(c, g.nodes, k, h.nodes, a))
    || (exists k, m, a :: CachesQ(c, g, k, m, a, h))
    || (exists k, a :: TakesHighest(c, g, k, a, h))
  }

  ghost predicate Trail(c: Config, trail: seq<Graph>) {
    |trail| > 0 && forall i | 0 <= i < |trail| - 1 :: SearchStep(c, trail[i], trail[i + 1])
  }

  /** A sequence of search steps leads from `g` to `h`. */
  ghost predicate Searched(c: Config, g: Graph, h: Graph) {
    exists trail :: Trail(c, trail) && trail[0] == g && trail[|trail| - 1] == h
  }

  lemma SearchedRefl(c: Config, g: Graph)
    ensures Searched(c, g, g)
  {
    assert Trail(c, [g]);
  }

  lemma SearchedStep(c: Config, g: Graph, h: Graph)
    requires SearchStep(c, g, h)
    ensures Searched(c, g, h)
  {
    hide SearchStep;
    assert Trail(c, [g, h]);
  }

  lemma SearchedTrans(c: Config, g: Graph, h: Graph, k: Graph)
    requires Searched(c, g, h) && Searched(c, h, k)
    ensures Searched(c, g, k)
  {
    hide SearchStep;
    var first :| Trail(c, first) && first[0] == g && first[|first| - 1] == h;
    var second :| Trail(c, second) && second[0] == h && second[|second| - 1] == k;
    var trail := first + second[1..];
    forall i | 0 <= i < |trail| - 1
      ensures SearchStep(c, trail[i], trail[i + 1])
    {
      if i < |first| - 1 {
        assert trail[i] == first[i] && trail[i + 1] == first[i + 1];
      } else {
        var j := i - (|first| - 1);
        assert trail[i] == second[j] && trail[i + 1] == second[j + 1];
      }
    }
    assert trail[|trail| - 1] == k;
  }

  /** At some moment between `g` and `h` an upper value was overwritten by an up-to-date highest Q value
      more than `eps` away from it. */
  ghost predicate Overwritten(c: Config, eps: real, g: Graph, h: Graph) {
    exists p, r, k, a :: Searched(c, g, p) && Measured(c, eps, p, k, a) && TakesHighest(c, p, k, a, r)
      && Searched(c, r, h)
  }

  lemma OverwrittenNow(c: Config, eps: real, g: Graph, k: NodeId, a: nat, h: Graph)
    requires Measured(c, eps, g, k, a) && TakesHighest(c, g, k, a, h)
    ensures Overwritten(c, eps, g, h)
  {
    hide *;
    SearchedRefl(c, g);
    SearchedRefl(c, h);
    WitnessOverwritten(c, eps, g, g, k, a, h, h);
  }

  lemma WitnessOverwritten(c: Config, eps: real, g: Graph, p: Graph, k: NodeId, a: nat, r: Graph, h: Graph)
    requires Searched(c, g, p) && Measured(c, eps, p, k, a) && TakesHighest(c, p, k, a, r) && Searched(c, r, h)
    ensures Overwritten(c, eps, g, h)
  {
    hide Searched, Measured, TakesHighest;
  }

  /** An overwriting stays on record when the search goes on, or when it started earlier. */
  lemma OverwrittenBetween(c: Config, eps: real, g: Graph, h: Graph, k: Graph, d: bool, e: bool)
    requires Searched(c, g, h) && Searched(c, h, k)
    requires (d ==> Overwritten(c, eps, g, h)) && (e ==> Overwritten(c, eps, h, k))
    ensures d || e ==> Overwritten(c, eps, g, k)
  {
    hide Searched, Measured, TakesHighest;
    if d {
      var p, r, n, a :| Searched(c, g, p) && Measured(c, eps, p, n, a) && TakesHighest(c, p, n, a, r)
        && Searched(c, r, h);
      SearchedTrans(c, r, h, k);
    } else if e {
      var p, r, n, a :| Searched(c, h, p) && Measured(c, eps, p, n, a) && TakesHighest(c, p, n, a, r)
        && Searched(c, r, k);
      SearchedTrans(c, g, h, p);
    }
  }

  /** Between `g` and `h` node `k` was measured to be more than `eps` off. */
  ghost predicate WasMeasured(c: Config, eps: real, g: Graph, k: NodeId, h: Graph) {
    exists p, a :: Searched(c, g, p) && Measured(c, eps, p, k, a) && Searched(c, p, h)
  }

  /** The last step lets node `k` take its highest Q value. */
  ghost predicate TookHighest(c: Config, g: Graph, k: NodeId, h: Graph) {
    exists q, a :: Searched(c, g, q) && TakesHighest(c, q, k, a, h)
  }

  /** Between `g` and `h` some node was measured to be more than `eps` off, and then took its highest Q value. */
  ghost predicate Corrected(c: Config, eps: real, g: Graph, h: Graph) {
    exists p, q, r, k :: WasMeasured(c, eps, g, k, p) && Searched(c, p, q) && TookHighest(c, q, k, r)
      && Searched(c, r, h)
  }

  lemma WasMeasuredNow(c: Config, eps: real, g: Graph, h: Graph, k: NodeId, a: nat)
    requires Searched(c, g, h) && Measured(c, eps, h, k, a)
    ensures WasMeasured(c, eps, g, k, h)
  {
    hide Searched, Measured;
    SearchedRefl(c, h);
  }

  lemma StillMeasured(c: Config, eps: real, g: Graph, k: NodeId, h: Graph, l: Graph)
    requires WasMeasured(c, eps, g, k, h) && Searched(c, h, l)
    ensures WasMeasured(c, eps, g, k, l)
  {
    hide Searched, Measured;
    var p, a :| Searched(c, g, p) && Measured(c, eps, p, k, a) && Searched(c, p, h);
    SearchedTrans(c, p, h, l);
  }

  lemma EarlierMeasured(c: Config, eps: real, g0: Graph, g: Graph, k: NodeId, h: Graph)
    requires WasMeasured(c, eps, g, k, h) && Searched(c, g0, g)
    ensures WasMeasured(c, eps, g0, k, h)
  {
    hide Searched, Measured;
    var p, a :| Searched(c, g, p) && Measured(c, eps, p, k, a) && Searched(c, p, h);
    SearchedTrans(c, g0, g, p);
  }

  lemma CorrectedNow(c: Config, eps: real, g: Graph, k: NodeId, p: Graph, h: Graph)
    requires WasMeasured(c, eps, g, k, p) && TookHighest(c, p, k, h)
    ensures Corrected(c, eps, g, h)
  {
    hide Searched, WasMeasured, TookHighest;
    SearchedRefl(c, p);
    SearchedRefl(c, h);
  }

  lemma CorrectedBetween(c: Config, eps: real, g: Graph, h: Graph, k: Graph, d: bool, e: bool)
    requires Searched(c, g, h) && Searched(c, h, k)
    requires (d ==> Corrected(c, eps, g, h)) && (e ==> Corrected(c, eps, h, k))
    ensures d || e ==> Corrected(c, eps, g, k)
  {
    hide Searched, WasMeasured, TookHighest;
    if d {
      var p, q, r, n :| WasMeasured(c, eps, g, n, p) && Searched(c, p, q) && TookHighest(c, q, n, r)
        && Searched(c, r, h);
      SearchedTrans(c, r, h, k);
    } else if e {
      var p, q, r, n :| WasMeasured(c, eps, h, n, p) && Searched(c, p, q) && TookHighest(c, q, n, r)
        && Searched(c, r, k);
      EarlierMeasured(c, eps, g, h, n, p);
    }
  }

  /** An overwriting by more than `eps` is the special case in which no step comes in between. */
  lemma OverwrittenIsCorrected(c: Config, eps: real, g: Graph, h: Graph)
    requires Overwritten(c, eps, g, h)
    ensures Corrected(c, eps, g, h)
  {
    hide Searched, Measured, TakesHighest;
    var p, r, k, a :| Searched(c, g, p) && Measured(c, eps, p, k, a) && TakesHighest(c, p, k, a, r)
      && Searched(c, r, h);
    WasMeasuredNow(c, eps, g, p, k, a);
    SearchedRefl(c, p);
    assert TookHighest(c, p, k, r);
  }

  /** The nodes there were keep their upper values. */
  ghost predicate SameUb(before: seq<MDPNode>, after: seq<MDPNode>) {
    |before| <= |after| && forall i | 0 <= i < |before| :: after[i].ubVal == before[i].ubVal
  }

  /** Nothing has happened but to node `k`, and that new fringe nodes have been added. */
  ghost predicate OneChanged(c: Config, before: seq<MDPNode>, k: NodeId, after: seq<MDPNode>) {
    && k < |before|
    && KeepsKeys(before, after)
    && (forall i | 0 <= i < |before| && i != k :: after[i] == before[i])
    && after[k].isTerminal == before[k].isTerminal
    && NewNodesFresh(c, |before|, after)
  }

  /** A backup whose change of the upper value is undone leaves the Q value of the greedy action up to date. */
  lemma CacheQChanges(c: Config, before: seq<MDPNode>, k: NodeId, mid: seq<MDPNode>, after: seq<MDPNode>, a: nat)
    requires OneChanged(c, before, k, mid) && UpdateStep(c, before, k, mid, a)
    requires after == mid[k := mid[k].(ubVal := before[k].ubVal)]
    ensures OneChanged(c, before, k, after) && SameUb(before, after) && after[k].Q != []
    ensures forall b: nat | IsMaxUBAction(after[k].Q, b) :: FreshUb(c, after[k].Q[b], UbVals(after))
  {
    assert UbVals(after) == UbVals(mid)[k := before[k].ubVal];
    forall b: nat | IsMaxUBAction(after[k].Q, b)
      ensures b == a
    {
    }
  }
}
