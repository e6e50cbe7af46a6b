/** How the labelling searches move the upper bound: they back up Q values, and they overwrite an
    upper value by the highest Q value of its node. */
module Evolution {
  import opened Wrappers
  import opened RealArith
  import opened Mdp
  import opened BoundPairs
  import opened BoundTheory
  import opened Labels
  import opened Trails

  ghost predicate WellFormed(c: Config, g: Graph) {
    GraphOk(c, g.nodes) && LookupOk(g.nodes, g.lookup)
  }

  /** The upper bound as a function of all states: a state without a node has its initial value. */
  ghost function Upper(c: Config, g: Graph): State -> real {
    (s: State) => if s in g.lookup && g.lookup[s] < |g.nodes| then g.nodes[g.lookup[s]].ubVal else InitialUb(c, s)
  }

  ghost predicate ImprovableAt(c: Config, U: State -> real, s: State) {
    forall b: nat | b < c.problem.numActions :: Lookahead(c.problem, U, s, b) <= U(s)
  }

  /** The upper bound is uniformly improvable: no backup would raise it anywhere, and no cached Q value is too low. */
  ghost predicate Consistent(c: Config, g: Graph) {
    && CacheSound(c, g.nodes)
    && forall s | s in c.problem.states && !c.problem.isTerminal(s) :: ImprovableAt(c, Upper(c, g), s)
  }

  ghost predicate Falls(c: Config, g: Graph, h: Graph) {
    forall s | s in c.problem.states :: Upper(c, h)(s) <= Upper(c, g)(s)
  }

  /** Somewhere the upper bound is lower by more than `eps`. */
  ghost predicate Drops(c: Config, eps: real, g: Graph, h: Graph) {
    exists s :: s in c.problem.states && Upper(c, h)(s) < Upper(c, g)(s) - eps
  }

  ghost predicate KeepsBrackets(c: Config, g: Graph, h: Graph) {
    forall V: State -> real | BellmanOptimal(c.problem, V) && InitialBracket(c, V) && Brackets(c, V, g.nodes) ::
      Brackets(c, V, h.nodes)
  }

  /** What every stretch of a labelling search does to the bounds: it keeps every bracket of the optimal value;
      it keeps a uniformly improvable bound uniformly improvable and only lowers it. If `drop` holds, some node was
      measured to be more than `eps` off and then took its highest Q value, and a uniformly improvable bound is
      somewhere lower by more than `eps`. */
  ghost predicate Evolves(c: Config, eps: real, g: Graph, h: Graph, drop: bool) {
    && Searched(c, g, h) && (drop ==> Corrected(c, eps, g, h)) && KeepsBrackets(c, g, h)
    && (Consistent(c, g) ==> Consistent(c, h) && Falls(c, g, h) && (drop ==> Drops(c, eps, g, h)))
  }

  lemma EvolvesRefl(c: Config, eps: real, g: Graph)
    ensures Evolves(c, eps, g, g, false)
  {
    SearchedRefl(c, g);
  }

  lemma EvolvesTrans(c: Config, eps: real, g: Graph, h: Graph, k: Graph, d: bool, e: bool)
    requires Evolves(c, eps, g, h, d) && Evolves(c, eps, h, k, e)
    ensures Evolves(c, eps, g, k, d || e)
  {
    hide Upper, CacheSound, ImprovableAt, Brackets, BellmanOptimal, InitialBracket, Searched, Corrected;
    SearchedTrans(c, g, h, k);
    CorrectedBetween(c, eps, g, h, k, d, e);
    if Consistent(c, g) {
      if d {
        var s :| s in c.problem.states && Upper(c, h)(s) < Upper(c, g)(s) - eps;
        assert Upper(c, k)(s) <= Upper(c, h)(s);
      } else if e {
        var s :| s in c.problem.states && Upper(c, k)(s) < Upper(c, h)(s) - eps;
        assert Upper(c, h)(s) <= Upper(c, g)(s);
      }
    }
  }

  // ---------- One-step lookahead on all states ----------

  lemma {:induction false} OutcomeExpMono(outs: seq<Outcome>, U: State -> real, W: State -> real)
    requires forall o | 0 <= o < |outs| ::
      outs[o].prob >= 0.0 && (outs[o].prob > 0.0 ==> U(outs[o].next) <= W(outs[o].next))
    ensures OutcomeExp(outs, U) <= OutcomeExp(outs, W)
  {
    if outs != [] {
      var o := outs[|outs| - 1];
      OutcomeExpMono(outs[..|outs| - 1], U, W);
      WeightedMono(o.prob, U(o.next), W(o.next));
    }
  }

  lemma LookaheadMono(m: Mdp, U: State -> real, W: State -> real, s: State, a: nat)
    requires m.Valid() && s in m.states && a < m.numActions
    requires forall t | t in m.states :: U(t) <= W(t)
    ensures Lookahead(m, U, s, a) <= Lookahead(m, W, s, a)
  {
    assert m.Distribution(m.outcomes(s, a));
    OutcomeExpMono(m.outcomes(s, a), U, W);
    ScaleMono(m.discount, OutcomeExp(m.outcomes(s, a), U), OutcomeExp(m.outcomes(s, a), W));
  }

  /** The upper bound at the state of a node is the node's upper value. */
  lemma UpperOfNode(c: Config, g: Graph, i: nat)
    requires WellFormed(c, g) && i < |g.nodes|
    ensures Upper(c, g)(g.nodes[i].s) == g.nodes[i].ubVal && g.nodes[i].s in c.problem.states
  {
    assert NodeOk(c.problem, g.nodes, g.nodes[i]);
  }

  /** `h` is `g` with perhaps new fringe nodes, a new Q vector at node `k`, and the upper value `val` there. */
  ghost predicate OneNode(c: Config, g: Graph, k: NodeId, h: Graph) {
    && k < |g.nodes|
    && KeepsKeys(g.nodes, h.nodes)
    && (forall i | 0 <= i < |g.nodes| && i != k :: h.nodes[i] == g.nodes[i])
    && NewNodesFresh(c, |g.nodes|, h.nodes)
  }

  lemma UpperOfOneNode(c: Config, g: Graph, k: NodeId, h: Graph, s: State)
    requires WellFormed(c, g) && WellFormed(c, h) && OneNode(c, g, k, h)
    ensures Upper(c, h)(s) == if s == g.nodes[k].s then h.nodes[k].ubVal else Upper(c, g)(s)
  {
    if s in g.lookup {
      var j := g.lookup[s];
      assert h.nodes[j].s == s && s in h.lookup && h.lookup[s] == j;
    } else if s in h.lookup {
      var i := h.lookup[s];
      assert i >= |g.nodes|;
      assert h.nodes[i] == FreshNode(c, s);
    }
  }

  /** The backup of a Q entry of node `k`, from the upper values before the step, is the lookahead on them. */
  lemma BackupIsLookahead(c: Config, g: Graph, k: NodeId, h: Graph, b: nat)
    requires WellFormed(c, g) && WellFormed(c, h) && OneNode(c, g, k, h) && b < |h.nodes[k].Q|
    ensures Within(h.nodes[k].Q[b].outcomes, |h.nodes|) && b < c.problem.numActions
    ensures Backup(c, h.nodes[k].Q[b], UbVals(h.nodes)[k := g.nodes[k].ubVal])
      == Lookahead(c.problem, Upper(c, g), h.nodes[k].s, b)
  {
    var v := UbVals(h.nodes)[k := g.nodes[k].ubVal];
    assert NodeOk(c.problem, h.nodes, h.nodes[k]);
    assert QOk(c.problem, h.nodes, h.nodes[k].s, b, h.nodes[k].Q[b]);
    forall i | 0 <= i < |v|
      ensures v[i] == Upper(c, g)(h.nodes[i].s)
    {
      UpperOfNode(c, h, i);
      UpperOfNode(c, g, k);
      UpperOfOneNode(c, g, k, h, h.nodes[i].s);
    }
    BackupOfModel(c, h.nodes, h.nodes[k].s, b, h.nodes[k].Q[b], v, Upper(c, g));
  }

  /** Lowering one upper value to something no lower than every lookahead keeps a bound uniformly improvable. */
  lemma LoweredImprovable(c: Config, g: Graph, k: NodeId, h: Graph)
    requires WellFormed(c, g) && WellFormed(c, h) && OneNode(c, g, k, h)
    requires Consistent(c, g) && CacheSound(c, h.nodes)
    requires h.nodes[k].ubVal <= g.nodes[k].ubVal
    requires !g.nodes[k].isTerminal ==> forall b: nat | b < c.problem.numActions ::
      Lookahead(c.problem, Upper(c, g), g.nodes[k].s, b) <= h.nodes[k].ubVal
    ensures Consistent(c, h) && Falls(c, g, h)
    ensures Upper(c, h)(g.nodes[k].s) == h.nodes[k].ubVal && Upper(c, g)(g.nodes[k].s) == g.nodes[k].ubVal
  {
    var U, W := Upper(c, g), Upper(c, h);
    UpperOfNode(c, g, k);
    forall s
      ensures W(s) <= U(s) && (s != g.nodes[k].s ==> W(s) == U(s)) && W(g.nodes[k].s) == h.nodes[k].ubVal
    {
      UpperOfOneNode(c, g, k, h, s);
      UpperOfOneNode(c, g, k, h, g.nodes[k].s);
    }
    assert NodeOk(c.problem, g.nodes, g.nodes[k]);
    assert forall s | s in c.problem.states && !c.problem.isTerminal(s) :: ImprovableAt(c, U, s);
    hide Upper, GraphOk, LookupOk, CacheSound, Lookahead;
    forall s | s in c.problem.states && !c.problem.isTerminal(s)
      ensures ImprovableAt(c, W, s)
    {
      assert ImprovableAt(c, U, s);
      forall b: nat | b < c.problem.numActions
        ensures Lookahead(c.problem, W, s, b) <= W(s)
      {
        LookaheadMono(c.problem, W, U, s, b);
      }
    }
  }

  // ---------- The three kinds of step ----------

  lemma UpdateIsOneNode(c: Config, g: Graph, k: NodeId, h: Graph, a: nat)
    requires UpdateStep(c, g.nodes, k, h.nodes, a)
    ensures OneNode(c, g, k, h)
  {
  }

  /** A plain backup. */
  lemma EvolvesByUpdate(c: Config, eps: real, g: Graph, k: NodeId, h: Graph, a: nat)
    requires WellFormed(c, g) && WellFormed(c, h) && UpdateStep(c, g.nodes, k, h.nodes, a)
    ensures Evolves(c, eps, g, h, false)
  {
    SearchedStep(c, g, h);
    UpdateIsOneNode(c, g, k, h, a);
    hide Searched, Corrected;
    assert KeepsBrackets(c, g, h) by {
      forall V: State -> real | BellmanOptimal(c.problem, V) && InitialBracket(c, V) && Brackets(c, V, g.nodes)
        ensures Brackets(c, V, h.nodes)
      {
        UpdateBrackets(c, V, g.nodes, k, h.nodes, a);
      }
    }
    if Consistent(c, g) {
      UpdateKeepsCacheSound(c, g.nodes, k, h.nodes, a);
      UpdateImproves(c, g, k, h, a);
      LoweredImprovable(c, g, k, h);
    }
  }

  /** The highest Q value after a backup is above every lookahead. */
  lemma HighestQIsAbove(c: Config, g: Graph, k: NodeId, h: Graph, a: nat, b: nat)
    requires WellFormed(c, g) && WellFormed(c, h) && UpdateStep(c, g.nodes, k, h.nodes, a) && CacheSound(c, g.nodes)
    requires b < c.problem.numActions
    ensures Lookahead(c.problem, Upper(c, g), g.nodes[k].s, b) <= h.nodes[k].Q[a].ubVal.value
  {
    UpdateIsOneNode(c, g, k, h, a);
    LazyUpdateIsExact(c, g.nodes, k, h.nodes, a);
    assert NodeOk(c.problem, h.nodes, h.nodes[k]);
    BackupIsLookahead(c, g, k, h, b);
    BackupIsLookahead(c, g, k, h, a);
  }

  lemma UpdateImproves(c: Config, g: Graph, k: NodeId, h: Graph, a: nat)
    requires WellFormed(c, g) && WellFormed(c, h) && UpdateStep(c, g.nodes, k, h.nodes, a) && Consistent(c, g)
    ensures h.nodes[k].ubVal <= g.nodes[k].ubVal
    ensures !g.nodes[k].isTerminal ==> forall b: nat | b < c.problem.numActions ::
      Lookahead(c.problem, Upper(c, g), g.nodes[k].s, b) <= h.nodes[k].ubVal
  {
    if !g.nodes[k].isTerminal {
      UpperOfNode(c, g, k);
      assert NodeOk(c.problem, g.nodes, g.nodes[k]);
      assert ImprovableAt(c, Upper(c, g), g.nodes[k].s);
      forall b: nat | b < c.problem.numActions
        ensures Lookahead(c.problem, Upper(c, g), g.nodes[k].s, b) <= h.nodes[k].ubVal
      {
        HighestQIsAbove(c, g, k, h, a, b);
      }
    }
  }

  /** A backup whose change of the upper value is undone. */
  lemma EvolvesByCacheQ(c: Config, eps: real, g: Graph, k: NodeId, m: Graph, h: Graph, a: nat)
    requires WellFormed(c, g) && WellFormed(c, m) && WellFormed(c, h) && UpdateStep(c, g.nodes, k, m.nodes, a)
    requires h == Graph(m.nodes[k := m.nodes[k].(ubVal := g.nodes[k].ubVal)], m.lookup)
    ensures Evolves(c, eps, g, h, false)
  {
    assert CachesQ(c, g, k, m.nodes, a, h);
    SearchedStep(c, g, h);
    hide Searched, Corrected;
    CacheQKeepsBrackets(c, g, k, m, h, a);
    if Consistent(c, g) {
      CacheQKeepsCacheSound(c, g, k, m, h, a);
      CacheQImproves(c, g, k, m, h, a);
    }
  }

  lemma CacheQKeepsBrackets(c: Config, g: Graph, k: NodeId, m: Graph, h: Graph, a: nat)
    requires WellFormed(c, g) && WellFormed(c, m) && UpdateStep(c, g.nodes, k, m.nodes, a)
    requires h == Graph(m.nodes[k := m.nodes[k].(ubVal := g.nodes[k].ubVal)], m.lookup)
    ensures KeepsBrackets(c, g, h)
  {
    hide GraphOk, LookupOk, BellmanOptimal, InitialBracket;
    forall V: State -> real | BellmanOptimal(c.problem, V) && InitialBracket(c, V) && Brackets(c, V, g.nodes)
      ensures Brackets(c, V, h.nodes)
    {
      UpdateBrackets(c, V, g.nodes, k, m.nodes, a);
      assert NodeBrackets(c, V, g.nodes[k]) && NodeBrackets(c, V, m.nodes[k]);
      forall i | 0 <= i < |h.nodes| ensures NodeBrackets(c, V, h.nodes[i]) {
        assert NodeBrackets(c, V, m.nodes[i]);
      }
    }
  }

  lemma CacheQImproves(c: Config, g: Graph, k: NodeId, m: Graph, h: Graph, a: nat)
    requires WellFormed(c, g) && WellFormed(c, h) && UpdateStep(c, g.nodes, k, m.nodes, a)
    requires h == Graph(m.nodes[k := m.nodes[k].(ubVal := g.nodes[k].ubVal)], m.lookup)
    requires Consistent(c, g) && CacheSound(c, h.nodes)
    ensures Consistent(c, h) && Falls(c, g, h)
  {
    assert OneNode(c, g, k, h);
    if !g.nodes[k].isTerminal {
      UpperOfNode(c, g, k);
      assert NodeOk(c.problem, g.nodes, g.nodes[k]);
      assert ImprovableAt(c, Upper(c, g), g.nodes[k].s);
    }
    hide GraphOk, LookupOk, CacheSound;
    LoweredImprovable(c, g, k, h);
  }

  lemma CacheQKeepsCacheSound(c: Config, g: Graph, k: NodeId, m: Graph, h: Graph, a: nat)
    requires WellFormed(c, g) && WellFormed(c, h) && UpdateStep(c, g.nodes, k, m.nodes, a)
    requires h == Graph(m.nodes[k := m.nodes[k].(ubVal := g.nodes[k].ubVal)], m.lookup)
    requires CacheSound(c, g.nodes)
    ensures CacheSound(c, h.nodes)
  {
    assert UbVals(h.nodes) == UbVals(m.nodes)[k := g.nodes[k].ubVal];
    forall i | 0 <= i < |h.nodes|
      ensures CacheSoundAt(c, h.nodes, i)
    {
      assert i >= |g.nodes| ==> m.nodes[i] == FreshNode(c, m.nodes[i].s);
      forall b | 0 <= b < |h.nodes[i].Q| && h.nodes[i].Q[b].ubVal.Some?
        ensures Within(h.nodes[i].Q[b].outcomes, |h.nodes|)
        ensures Backup(c, h.nodes[i].Q[b], UbVals(h.nodes)) <= h.nodes[i].Q[b].ubVal.value
      {
        hide CacheSound, Backup;
        if !(i == k && FreshUb(c, h.nodes[i].Q[b], UbVals(h.nodes))) {
          OldQSound(c, g, h, i, b);
        }
      }
    }
  }

  /** A Q value that a step left alone stays sound when no upper value changed. */
  lemma OldQSound(c: Config, g: Graph, h: Graph, i: nat, b: nat)
    requires CacheSound(c, g.nodes) && i < |g.nodes| <= |h.nodes| && b < |h.nodes[i].Q| == |g.nodes[i].Q|
    requires forall j | 0 <= j < |g.nodes| :: h.nodes[j].ubVal == g.nodes[j].ubVal
    requires h.nodes[i].Q[b].ubVal == g.nodes[i].Q[b].ubVal && h.nodes[i].Q[b].ubVal.Some?
    requires h.nodes[i].Q[b].outcomes == g.nodes[i].Q[b].outcomes
    requires h.nodes[i].Q[b].immediateReward == g.nodes[i].Q[b].immediateReward
    ensures Within(h.nodes[i].Q[b].outcomes, |h.nodes|)
    ensures Backup(c, h.nodes[i].Q[b], UbVals(h.nodes)) <= h.nodes[i].Q[b].ubVal.value
  {
    assert CacheSoundAt(c, g.nodes, i);
    var q := h.nodes[i].Q[b];
    assert Backup(c, q, UbVals(g.nodes)) == Backup(c, g.nodes[i].Q[b], UbVals(g.nodes));
    BackupAgrees(c, q, UbVals(g.nodes), UbVals(h.nodes));
  }

  /** Overwriting the upper value of a node by its highest Q value, all Q values being cached and the highest fresh. */
  lemma EvolvesBySetMax(c: Config, eps: real, g: Graph, k: NodeId, h: Graph, a: nat, drop: bool)
    requires WellFormed(c, g) && WellFormed(c, h) && k < |g.nodes| && !g.nodes[k].isTerminal
    requires g.nodes[k].Q != [] && IsMaxUBAction(g.nodes[k].Q, a) && FreshUb(c, g.nodes[k].Q[a], UbVals(g.nodes))
    requires h == Graph(g.nodes[k := g.nodes[k].(ubVal := g.nodes[k].Q[a].ubVal.value)], g.lookup)
    requires drop ==> Abs(g.nodes[k].ubVal - h.nodes[k].ubVal) > eps
    ensures Evolves(c, eps, g, h, drop) && TakesHighest(c, g, k, a, h)
    ensures drop ==> Overwritten(c, eps, g, h)
  {
    SetMaxIsStep(c, eps, g, k, h, a, drop);
    hide Searched, Corrected, Overwritten, TakesHighest;
    SetMaxKeepsBrackets(c, g, k, h, a);
    hide *;
    EvolvesIs(c, eps, g, h, drop);
    if Consistent(c, g) {
      SetMaxProgresses(c, eps, g, k, h, a, drop);
    }
  }

  lemma EvolvesIs(c: Config, eps: real, g: Graph, h: Graph, drop: bool)
    requires Searched(c, g, h) && (drop ==> Corrected(c, eps, g, h)) && KeepsBrackets(c, g, h)
    ensures Evolves(c, eps, g, h, drop) <==>
      (Consistent(c, g) ==> Consistent(c, h) && Falls(c, g, h) && (drop ==> Drops(c, eps, g, h)))
  {
  }

  lemma SetMaxProgresses(c: Config, eps: real, g: Graph, k: NodeId, h: Graph, a: nat, drop: bool)
    requires WellFormed(c, g) && WellFormed(c, h) && k < |g.nodes| && !g.nodes[k].isTerminal && Consistent(c, g)
    requires g.nodes[k].Q != [] && IsMaxUBAction(g.nodes[k].Q, a) && FreshUb(c, g.nodes[k].Q[a], UbVals(g.nodes))
    requires h == Graph(g.nodes[k := g.nodes[k].(ubVal := g.nodes[k].Q[a].ubVal.value)], g.lookup)
    requires drop ==> Abs(g.nodes[k].ubVal - h.nodes[k].ubVal) > eps
    ensures Consistent(c, h) && Falls(c, g, h) && (drop ==> Drops(c, eps, g, h))
  {
    assert OneNode(c, g, k, h);
    hide FreshUb, IsMaxUBAction, OneNode, CacheSound, Consistent, Falls, Upper, Lookahead, UbVals;
    SetMaxImproves(c, g, k, h, a);
    LoweredImprovable(c, g, k, h);
    if drop {
      UpperOfNode(c, g, k);
      assert Upper(c, h)(g.nodes[k].s) < Upper(c, g)(g.nodes[k].s) - eps;
    }
  }

  lemma SetMaxIsStep(c: Config, eps: real, g: Graph, k: NodeId, h: Graph, a: nat, drop: bool)
    requires k < |g.nodes| && !g.nodes[k].isTerminal
    requires g.nodes[k].Q != [] && IsMaxUBAction(g.nodes[k].Q, a) && FreshUb(c, g.nodes[k].Q[a], UbVals(g.nodes))
    requires h == Graph(g.nodes[k := g.nodes[k].(ubVal := g.nodes[k].Q[a].ubVal.value)], g.lookup)
    requires drop ==> Abs(g.nodes[k].ubVal - h.nodes[k].ubVal) > eps
    ensures TakesHighest(c, g, k, a, h) && Searched(c, g, h)
    ensures drop ==> Overwritten(c, eps, g, h) && Corrected(c, eps, g, h)
  {
    assert TakesHighest(c, g, k, a, h) && (drop ==> Measured(c, eps, g, k, a));
    hide IsMaxUBAction, FreshUb, Measured, TakesHighest, Searched, Overwritten, Corrected;
    SearchedStep(c, g, h);
    if drop {
      OverwrittenNow(c, eps, g, k, a, h);
      OverwrittenIsCorrected(c, eps, g, h);
    }
  }

  lemma SetMaxKeepsBrackets(c: Config, g: Graph, k: NodeId, h: Graph, a: nat)
    requires WellFormed(c, g) && WellFormed(c, h) && k < |g.nodes| && !g.nodes[k].isTerminal
    requires g.nodes[k].Q != [] && IsMaxUBAction(g.nodes[k].Q, a)
    requires h == Graph(g.nodes[k := g.nodes[k].(ubVal := g.nodes[k].Q[a].ubVal.value)], g.lookup)
    ensures KeepsBrackets(c, g, h)
  {
    assert NodeOk(c.problem, g.nodes, g.nodes[k]);
    forall V: State -> real | BellmanOptimal(c.problem, V) && InitialBracket(c, V) && Brackets(c, V, g.nodes)
      ensures Brackets(c, V, h.nodes)
    {
      HighestQBrackets(c, V, g, k, a);
      forall i | 0 <= i < |h.nodes| ensures NodeBrackets(c, V, h.nodes[i]) {
        assert NodeBrackets(c, V, g.nodes[i]);
      }
    }
  }

  lemma HighestQBrackets(c: Config, V: State -> real, g: Graph, k: NodeId, a: nat)
    requires WellFormed(c, g) && k < |g.nodes| && IsMaxUBAction(g.nodes[k].Q, a)
    requires BellmanOptimal(c.problem, V) && Brackets(c, V, g.nodes)
    ensures V(g.nodes[k].s) <= g.nodes[k].Q[a].ubVal.value
  {
    var s := g.nodes[k].s;
    assert NodeOk(c.problem, g.nodes, g.nodes[k]) && NodeBrackets(c, V, g.nodes[k]);
    var best: nat :| best < c.problem.numActions && V(s) == Lookahead(c.problem, V, s, best);
    assert g.nodes[k].Q[best].ubVal.value <= g.nodes[k].Q[a].ubVal.value;
  }

  lemma SetMaxImproves(c: Config, g: Graph, k: NodeId, h: Graph, a: nat)
    requires WellFormed(c, g) && WellFormed(c, h) && k < |g.nodes| && !g.nodes[k].isTerminal && Consistent(c, g)
    requires g.nodes[k].Q != [] && IsMaxUBAction(g.nodes[k].Q, a) && FreshUb(c, g.nodes[k].Q[a], UbVals(g.nodes))
    requires h == Graph(g.nodes[k := g.nodes[k].(ubVal := g.nodes[k].Q[a].ubVal.value)], g.lookup)
    ensures h.nodes[k].ubVal <= g.nodes[k].ubVal && CacheSound(c, h.nodes)
    ensures forall b: nat | b < c.problem.numActions ::
      Lookahead(c.problem, Upper(c, g), g.nodes[k].s, b) <= h.nodes[k].ubVal
  {
    assert NodeOk(c.problem, g.nodes, g.nodes[k]);
    UpperOfNode(c, g, k);
    assert ImprovableAt(c, Upper(c, g), g.nodes[k].s);
    assert UbVals(g.nodes)[k := g.nodes[k].ubVal] == UbVals(g.nodes);
    forall b: nat | b < c.problem.numActions
      ensures Lookahead(c.problem, Upper(c, g), g.nodes[k].s, b) <= h.nodes[k].ubVal
    {
      assert CacheSoundAt(c, g.nodes, k);
      BackupIsLookahead(c, g, k, g, b);
      assert g.nodes[k].Q[b].ubVal.value <= g.nodes[k].Q[a].ubVal.value;
    }
    BackupIsLookahead(c, g, k, g, a);
    forall i | 0 <= i < |h.nodes|
      ensures CacheSoundAt(c, h.nodes, i)
    {
      assert CacheSoundAt(c, g.nodes, i) && NodeOk(c.problem, g.nodes, g.nodes[i]);
      forall b | 0 <= b < |h.nodes[i].Q| && h.nodes[i].Q[b].ubVal.Some?
        ensures Within(h.nodes[i].Q[b].outcomes, |h.nodes|)
        ensures Backup(c, h.nodes[i].Q[b], UbVals(h.nodes)) <= h.nodes[i].Q[b].ubVal.value
      {
        assert QOk(c.problem, g.nodes, g.nodes[i].s, b, g.nodes[i].Q[b]);
        BackupFalls(c, g.nodes, g.nodes, g.nodes[i].s, b, g.nodes[i].Q[b], UbVals(g.nodes), UbVals(h.nodes));
      }
    }
  }

  /** There are at most as many nodes as states. */
  lemma {:induction false} KeysBounded(c: Config, nodes: seq<MDPNode>, lookup: map<State, NodeId>, n: nat)
    requires GraphOk(c, nodes) && LookupOk(nodes, lookup) && n <= |nodes|
    ensures n <= |c.problem.states|
    ensures n == |set i: nat | i < n && i < |nodes| :: nodes[i].s|
  {
    var keys := set i: nat | i < n && i < |nodes| :: nodes[i].s;
    if n > 0 {
      KeysBounded(c, nodes, lookup, n - 1);
      var fewer := set i: nat | i < n - 1 && i < |nodes| :: nodes[i].s;
      assert keys == fewer + {nodes[n - 1].s};
      assert nodes[n - 1].s !in fewer;
    }
    forall k | k in keys
      ensures k in c.problem.states
    {
      var i: nat :| i < n && i < |nodes| && nodes[i].s == k;
      assert NodeOk(c.problem, nodes, nodes[i]);
    }
    SubsetSize(keys, c.problem.states);
  }

  lemma EvolvesWeaken(c: Config, eps: real, g: Graph, h: Graph, d: bool, e: bool)
    requires Evolves(c, eps, g, h, d) && (e ==> d)
    ensures Evolves(c, eps, g, h, e)
  {
    hide Consistent, Searched, Corrected;
  }

  /** What `Evolves` says whatever the bound is. */
  lemma EvolvesSearched(c: Config, eps: real, g: Graph, h: Graph, drop: bool)
    requires Evolves(c, eps, g, h, drop)
    ensures Searched(c, g, h) && (drop ==> Corrected(c, eps, g, h))
  {
    hide Searched, Corrected, Consistent, KeepsBrackets;
  }

  lemma DropsMakeEvolves(c: Config, eps: real, g: Graph, h: Graph)
    requires Evolves(c, eps, g, h, false) && (Consistent(c, g) ==> Drops(c, eps, g, h))
    requires Corrected(c, eps, g, h)
    ensures Evolves(c, eps, g, h, true)
  {
  }

  // ---------- Large residuals ----------

  /** Every lookahead at node `k` is lower than its upper value by more than `eps`. */
  ghost predicate Residual(c: Config, eps: real, g: Graph, k: NodeId) {
    && k < |g.nodes|
    && forall b: nat | b < c.problem.numActions ::
         Lookahead(c.problem, Upper(c, g), g.nodes[k].s, b) < g.nodes[k].ubVal - eps
  }

  /** A residual that a search measures as large is large. */
  lemma MeasuredResidual(c: Config, eps: real, g: Graph, k: NodeId, a: nat)
    requires WellFormed(c, g) && Consistent(c, g) && k < |g.nodes| && !g.nodes[k].isTerminal && 0.0 <= eps
    requires g.nodes[k].Q != [] && IsMaxUBAction(g.nodes[k].Q, a) && FreshUb(c, g.nodes[k].Q[a], UbVals(g.nodes))
    requires Abs(g.nodes[k].ubVal - g.nodes[k].Q[a].ubVal.value) > eps
    ensures Residual(c, eps, g, k)
  {
    assert NodeOk(c.problem, g.nodes, g.nodes[k]);
    UpperOfNode(c, g, k);
    assert ImprovableAt(c, Upper(c, g), g.nodes[k].s);
    assert UbVals(g.nodes)[k := g.nodes[k].ubVal] == UbVals(g.nodes);
    BackupIsLookahead(c, g, k, g, a);
    forall b: nat | b < c.problem.numActions
      ensures Lookahead(c.problem, Upper(c, g), g.nodes[k].s, b) <= g.nodes[k].Q[a].ubVal.value
    {
      assert CacheSoundAt(c, g.nodes, k);
      BackupIsLookahead(c, g, k, g, b);
      assert g.nodes[k].Q[b].ubVal.value <= g.nodes[k].Q[a].ubVal.value;
    }
  }

  lemma ResidualKept(c: Config, eps: real, g: Graph, h: Graph, k: NodeId)
    requires WellFormed(c, g) && WellFormed(c, h) && Falls(c, g, h) && Residual(c, eps, g, k)
    requires KeepsKeys(g.nodes, h.nodes) && h.nodes[k].ubVal == g.nodes[k].ubVal
    ensures Residual(c, eps, h, k)
  {
    UpperOfNode(c, g, k);
    forall b: nat | b < c.problem.numActions
      ensures Lookahead(c.problem, Upper(c, h), h.nodes[k].s, b) < h.nodes[k].ubVal - eps
    {
      LookaheadMono(c.problem, Upper(c, h), Upper(c, g), g.nodes[k].s, b);
    }
  }

  /** Updating a node of large residual, at any later time, drops its upper value. */
  lemma ResidualDrops(c: Config, eps: real, g: Graph, h: Graph, k: NodeId, a: nat)
    requires WellFormed(c, g) && WellFormed(c, h) && Falls(c, g, h) && Residual(c, eps, g, k)
    requires KeepsKeys(g.nodes, h.nodes)
    requires h.nodes[k].Q != [] && IsMaxUBAction(h.nodes[k].Q, a) && FreshUb(c, h.nodes[k].Q[a], UbVals(h.nodes))
    ensures h.nodes[k].Q[a].ubVal.value < Upper(c, g)(g.nodes[k].s) - eps
  {
    UpperOfNode(c, g, k);
    assert UbVals(h.nodes)[k := h.nodes[k].ubVal] == UbVals(h.nodes);
    BackupIsLookahead(c, h, k, h, a);
    LookaheadMono(c.problem, Upper(c, h), Upper(c, g), g.nodes[k].s, a);
  }

  // ---------- A potential ----------

  ghost function Total(ss: set<State>, f: State -> real): real {
    if ss == {} then 0.0 else var s :| s in ss; f(s) + Total(ss - {s}, f)
  }

  lemma {:induction false} TotalMono(ss: set<State>, f: State -> real, g: State -> real)
    requires forall s | s in ss :: f(s) <= g(s)
    ensures Total(ss, f) <= Total(ss, g)
    decreases |ss|
  {
    if ss != {} {
      var s :| s in ss && Total(ss, f) == f(s) + Total(ss - {s}, f) && Total(ss, g) == g(s) + Total(ss - {s}, g);
      TotalMono(ss - {s}, f, g);
    }
  }

  lemma {:induction false} TotalDrops(ss: set<State>, f: State -> real, g: State -> real, t: State, eps: real)
    requires forall s | s in ss :: f(s) <= g(s)
    requires t in ss && f(t) < g(t) - eps
    ensures Total(ss, f) < Total(ss, g) - eps
    decreases |ss|
  {
    var s :| s in ss && Total(ss, f) == f(s) + Total(ss - {s}, f) && Total(ss, g) == g(s) + Total(ss - {s}, g);
    if s == t {
      TotalMono(ss - {s}, f, g);
    } else {
      TotalDrops(ss - {s}, f, g, t, eps);
    }
  }

  lemma {:induction false} TotalNonNegative(ss: set<State>, f: State -> real)
    requires forall s | s in ss :: 0.0 <= f(s)
    ensures 0.0 <= Total(ss, f)
    decreases |ss|
  {
    if ss != {} {
      var s :| s in ss && Total(ss, f) == f(s) + Total(ss - {s}, f);
      TotalNonNegative(ss - {s}, f);
    }
  }

  /** The room between the upper bound and `V`. */
  ghost function Gap(c: Config, g: Graph, V: State -> real): State -> real {
    (s: State) => Upper(c, g)(s) - V(s)
  }

  lemma GapNonNegative(c: Config, g: Graph, V: State -> real, s: State)
    requires WellFormed(c, g) && InitialBracket(c, V) && Brackets(c, V, g.nodes) && s in c.problem.states
    ensures 0.0 <= Gap(c, g, V)(s)
  {
    if s in g.lookup {
      assert NodeBrackets(c, V, g.nodes[g.lookup[s]]);
    }
  }

  /** How many more drops of more than `eps` there is room for. */
  ghost function RoomFor(c: Config, eps: real, g: Graph, V: State -> real): int
    requires eps > 0.0
  {
    (Total(c.problem.states, Gap(c, g, V)) / eps).Floor
  }

  lemma RoomShrinks(c: Config, eps: real, g: Graph, h: Graph, V: State -> real)
    requires eps > 0.0 && WellFormed(c, g) && WellFormed(c, h)
    requires InitialBracket(c, V) && Brackets(c, V, h.nodes) && Falls(c, g, h) && Drops(c, eps, g, h)
    ensures 0 <= RoomFor(c, eps, h, V) < RoomFor(c, eps, g, V)
  {
    var ss, x, y := c.problem.states, Gap(c, h, V), Gap(c, g, V);
    var t :| t in ss && Upper(c, h)(t) < Upper(c, g)(t) - eps;
    forall s | s in ss ensures x(s) <= y(s) && 0.0 <= x(s) {
      assert Upper(c, h)(s) <= Upper(c, g)(s);
      GapNonNegative(c, h, V, s);
    }
    TotalDrops(ss, x, y, t, eps);
    TotalNonNegative(ss, x);
    FloorDrops(Total(ss, x), Total(ss, y), eps);
  }

  lemma FloorDrops(x: real, y: real, eps: real)
    requires eps > 0.0 && 0.0 <= x < y - eps
    ensures 0 <= (x / eps).Floor < (y / eps).Floor
  {
    var a, b := x / eps, y / eps;
    assert a * eps == x && b * eps == y;
    assert (b - 1.0) * eps == y - eps;
    CancelFactor(a, b - 1.0, eps);
    CancelFactor(0.0, a, eps);
  }

  lemma RoomNeverGrows(c: Config, eps: real, g: Graph, h: Graph, V: State -> real)
    requires eps > 0.0 && Falls(c, g, h)
    ensures RoomFor(c, eps, h, V) <= RoomFor(c, eps, g, V)
  {
    var ss, x, y := c.problem.states, Gap(c, h, V), Gap(c, g, V);
    forall s | s in ss ensures x(s) <= y(s) {
      assert Upper(c, h)(s) <= Upper(c, g)(s);
    }
    TotalMono(ss, x, y);
    FloorMono(Total(ss, x), Total(ss, y), eps);
  }

  lemma FloorMono(x: real, y: real, eps: real)
    requires eps > 0.0 && x <= y
    ensures (x / eps).Floor <= (y / eps).Floor
  {
    var a, b := x / eps, y / eps;
    assert a * eps == x && b * eps == y;
    CancelFactor(a, b, eps);
  }

  lemma RoomNonNegative(c: Config, eps: real, g: Graph, V: State -> real)
    requires eps > 0.0 && WellFormed(c, g) && InitialBracket(c, V) && Brackets(c, V, g.nodes)
    ensures 0 <= RoomFor(c, eps, g, V)
  {
    var ss, x := c.problem.states, Gap(c, g, V);
    forall s | s in ss ensures 0.0 <= x(s) {
      GapNonNegative(c, g, V, s);
    }
    TotalNonNegative(ss, x);
    FloorMono(0.0, Total(ss, x), eps);
    assert 0.0 / eps == 0.0;
  }

  /** A stretch of search keeps the bound consistent and the bracket, and uses up room if it drops a value. */
  lemma SearchProgress(c: Config, eps: real, g: Graph, h: Graph, V: State -> real, drop: bool)
    requires eps > 0.0 && WellFormed(c, g) && WellFormed(c, h) && Evolves(c, eps, g, h, drop)
    requires BellmanOptimal(c.problem, V) && InitialBracket(c, V)
    requires Consistent(c, g) && Brackets(c, V, g.nodes)
    ensures Consistent(c, h) && Brackets(c, V, h.nodes)
    ensures 0 <= RoomFor(c, eps, h, V) <= RoomFor(c, eps, g, V)
    ensures drop ==> RoomFor(c, eps, h, V) < RoomFor(c, eps, g, V)
  {
    hide GraphOk, LookupOk, Consistent, Brackets, BellmanOptimal, InitialBracket, Falls, Drops, RoomFor;
    RoomNeverGrows(c, eps, g, h, V);
    RoomNonNegative(c, eps, h, V);
    if drop {
      RoomShrinks(c, eps, g, h, V);
    }
  }

  // ---------- The start of a search ----------

  lemma EmptyGraph(c: Config, lookup: map<State, NodeId>, s: State)
    requires GraphOk(c, []) && LookupOk([], lookup)
    ensures s !in lookup && c.problem.initial in c.problem.states
  {
  }

  lemma OneFresh(c: Config, nodes: seq<MDPNode>, s: State)
    requires nodes == [] + [FreshNode(c, s)]
    ensures NewNodesFresh(c, 0, nodes)
  {
  }

  /** The initial upper bound is uniformly improvable. */
  ghost predicate InitiallyImprovable(c: Config) {
    forall s | s in c.problem.states && !c.problem.isTerminal(s) :: ImprovableAt(c, (t: State) => InitialUb(c, t), s)
  }

  /** A graph that consists of fringe nodes only has the initial upper bound. */
  lemma FringeConsistent(c: Config, g: Graph)
    requires WellFormed(c, g) && NewNodesFresh(c, 0, g.nodes) && InitiallyImprovable(c)
    ensures Consistent(c, g)
  {
    var U, I := Upper(c, g), (t: State) => InitialUb(c, t);
    forall s
      ensures U(s) == I(s)
    {
      if s in g.lookup {
        assert g.nodes[g.lookup[s]] == FreshNode(c, g.nodes[g.lookup[s]].s);
      }
    }
    forall s | s in c.problem.states && !c.problem.isTerminal(s)
      ensures ImprovableAt(c, U, s)
    {
      assert ImprovableAt(c, (t: State) => InitialUb(c, t), s);
      forall b: nat | b < c.problem.numActions
        ensures Lookahead(c.problem, U, s, b) <= U(s)
      {
        LookaheadMono(c.problem, U, (t: State) => InitialUb(c, t), s, b);
      }
    }
    forall i | 0 <= i < |g.nodes|
      ensures CacheSoundAt(c, g.nodes, i)
    {
      assert g.nodes[i] == FreshNode(c, g.nodes[i].s);
    }
  }

  lemma FringeBrackets(c: Config, V: State -> real, g: Graph)
    requires WellFormed(c, g) && NewNodesFresh(c, 0, g.nodes) && InitialBracket(c, V)
    ensures Brackets(c, V, g.nodes)
  {
    forall i | 0 <= i < |g.nodes|
      ensures NodeBrackets(c, V, g.nodes[i])
    {
      assert NodeOk(c.problem, g.nodes, g.nodes[i]);
      assert g.nodes[i] == FreshNode(c, g.nodes[i].s);
    }
  }

  /** Creating fringe nodes makes no room. */
  lemma FringeRoom(c: Config, eps: real, g: Graph, V: State -> real)
    requires eps > 0.0 && WellFormed(c, g) && NewNodesFresh(c, 0, g.nodes)
    ensures RoomFor(c, eps, g, V) <= RoomFor(c, eps, Graph([], map[]), V)
  {
    forall s | s in c.problem.states
      ensures Upper(c, g)(s) <= Upper(c, Graph([], map[]))(s)
    {
      if s in g.lookup {
        assert g.nodes[g.lookup[s]] == FreshNode(c, g.nodes[g.lookup[s]].s);
      }
    }
    RoomNeverGrows(c, eps, Graph([], map[]), g, V);
  }
}
