/** The HSVI search: trials that follow the outcome of highest excess uncertainty, with no depth limit. */
module HsviSearch {
  import opened Wrappers
  import opened RealArith
  import opened Mdp
  import opened BoundPairs
  import opened BoundTheory

  const IMPROVEMENT_CONSTANT: real := 0.95

  /** `discount` to the power `-depth`, where that is finite. */
  function InversePower(discount: real, depth: nat): real
    requires discount > 0.0 || depth == 0
  {
    if depth == 0 then 1.0 else InversePower(discount, depth - 1) / discount
  }

  lemma {:induction false} InversePowerGrows(g: real, d: nat, e: nat)
    requires 0.0 < g <= 1.0 && d <= e
    ensures 0.0 < InversePower(g, d) <= InversePower(g, e)
    decreases e
  {
    if e > 0 {
      var x := InversePower(g, e - 1);
      if d == e {
        InversePowerGrows(g, d - 1, d - 1);
      } else {
        InversePowerGrows(g, d, e - 1);
      }
      DivideGrows(x, g);
    }
  }

  lemma DivideGrows(x: real, g: real)
    requires 0.0 < g <= 1.0 && 0.0 < x
    ensures 0.0 < x <= x / g && (x / g) * g == x
  {
    var y := Over(x, g);
    assert y == x / g;
    DivTimes(x, g);
    TimesIs(y, g);
    hide Times, Over;
    TimesIs(0.0, g);
    TimesCancel(0.0, y, g);
    TimesMono(y, g, 1.0);
    UnitTimes(y);
  }

  lemma BernoulliStep(x: real, g: real, k: real)
    requires 0.0 < g < 1.0 && x >= 1.0 && x >= 1.0 + Times(k, 1.0 - g)
    ensures x / g >= 1.0 + Times(k + 1.0, 1.0 - g)
  {
    DivideGrows(x, g);
    var y, h := x / g, 1.0 - g;
    TimesIs(y, g);
    hide Times;
    TimesMinus(y, 1.0, g);
    TimesUnit(y, 1.0);
    TimesMonoLeft(1.0, y, h);
    TimesIs(1.0, h);
    TimesPlus(h, k, 1.0);
  }

  /** Inverse powers grow at least linearly. */
  lemma {:induction false} InversePowerBernoulli(g: real, d: nat)
    requires 0.0 < g < 1.0
    ensures InversePower(g, d) >= 1.0 + Times(d as real, 1.0 - g)
  {
    hide Times;
    if d > 0 {
      InversePowerBernoulli(g, d - 1);
      InversePowerGrows(g, 0, d - 1);
      BernoulliStep(InversePower(g, d - 1), g, (d - 1) as real);
      assert (d - 1) as real + 1.0 == d as real;
    } else {
      TimesIs(0.0, 1.0 - g);
    }
  }

  /** Some depth is deep enough. */
  lemma DepthExists(g: real, width: real, target: real) returns (d: nat)
    requires 0.0 < g < 1.0 && target > 0.0
    ensures width <= target * InversePower(g, d)
  {
    var h := 1.0 - g;
    var need := width / target / h;
    d := if need <= 0.0 then 0 else need.Floor + 1;
    InversePowerBernoulli(g, d);
    TimesIs(d as real, h);
    assert need * h == width / target && (width / target) * target == width;
    ScaleMono(h, need, d as real);
    var p := InversePower(g, d);
    ScaleMono(target, width / target, p);
  }

  /** Only at discount 0, and below the root, the inverse power is infinite. */
  predicate Finite(c: Config, depth: nat) {
    c.problem.discount > 0.0 || depth == 0
  }

  /** The width that a node may keep at a depth. */
  function Allowed(c: Config, target: real, depth: nat): real
    requires c.problem.discount >= 0.0 && Finite(c, depth)
  {
    target * InversePower(c.problem.discount, depth)
  }

  lemma AllowedGrows(c: Config, target: real, d: nat, e: nat)
    requires 0.0 < c.problem.discount <= 1.0 && target > 0.0 && d <= e
    ensures Allowed(c, target, d) <= Allowed(c, target, e)
  {
    InversePowerGrows(c.problem.discount, d, e);
    ScaleMono(target, InversePower(c.problem.discount, d), InversePower(c.problem.discount, e));
  }

  lemma AllowedStep(c: Config, target: real, d: nat)
    requires 0.0 < c.problem.discount <= 1.0
    ensures Times(c.problem.discount, Allowed(c, target, d + 1)) == Allowed(c, target, d)
  {
    var g, x := c.problem.discount, InversePower(c.problem.discount, d);
    var y := x / g;
    assert y * g == x;
    assert g * (target * y) == target * (y * g);
  }

  /** No node, created or not, is wider than `w`. */
  ghost predicate WidthsWithin(c: Config, nodes: seq<MDPNode>, w: real) {
    && (forall i | 0 <= i < |nodes| :: Width(nodes[i]) <= w)
    && (forall s | s in c.problem.states :: InitialUb(c, s) - InitialLb(c, s) <= w)
  }

  lemma WidthsKept(c: Config, before: seq<MDPNode>, after: seq<MDPNode>, w: real)
    requires Refines(c, before, after) && GraphOk(c, after) && WidthsWithin(c, before, w)
    ensures WidthsWithin(c, after, w)
  {
    forall i | 0 <= i < |after|
      ensures Width(after[i]) <= w
    {
      assert NodeOk(c.problem, after, after[i]);
      if i < |before| {
        assert Width(before[i]) <= w;
      }
    }
  }

  /** Some bound on all widths exists. */
  lemma WidthBoundExists(c: Config, nodes: seq<MDPNode>) returns (w: real)
    ensures WidthsWithin(c, nodes, w)
  {
    var x := WidestNode(nodes);
    var y := WidestState(c, c.problem.states);
    w := if x < y then y else x;
    forall i | 0 <= i < |nodes| ensures Width(nodes[i]) <= w {}
  }

  lemma {:induction false} WidestNode(nodes: seq<MDPNode>) returns (w: real)
    ensures forall i | 0 <= i < |nodes| :: Width(nodes[i]) <= w
  {
    w := 0.0;
    if nodes != [] {
      var n := |nodes| - 1;
      w := WidestNode(nodes[..n]);
      forall i | 0 <= i < n ensures Width(nodes[i]) <= w {
        assert nodes[..n][i] == nodes[i];
      }
      w := if w < Width(nodes[n]) then Width(nodes[n]) else w;
    }
  }

  lemma {:induction false} WidestState(c: Config, ss: set<State>) returns (w: real)
    ensures forall s | s in ss :: InitialUb(c, s) - InitialLb(c, s) <= w
    decreases |ss|
  {
    w := 0.0;
    if ss != {} {
      var t :| t in ss;
      var rest := WidestState(c, ss - {t});
      var x := InitialUb(c, t) - InitialLb(c, t);
      w := if rest < x then x else rest;
      forall s | s in ss ensures InitialUb(c, s) - InitialLb(c, s) <= w {
        assert s == t || s in ss - {t};
      }
    }
  }

  /** The width of a node of `after` before a stretch of search, or its initial width if it is new. */
  function StartWidth(c: Config, before: seq<MDPNode>, after: seq<MDPNode>, i: NodeId): real
    requires i < |after|
  {
    if i < |before| then Width(before[i]) else InitialUb(c, after[i].s) - InitialLb(c, after[i].s)
  }

  /** No edge of action `a` leads from node `k` to itself. */
  ghost predicate NoSelfLoop(nodes: seq<MDPNode>, k: NodeId, a: nat)
    requires k < |nodes| && a < |nodes[k].Q|
  {
    forall o | 0 <= o < |nodes[k].Q[a].outcomes| && nodes[k].Q[a].outcomes[o].Some? ::
      nodes[k].Q[a].outcomes[o].value.nextState != k
  }

  /** The last node that a trial updates on its way down, at depth `d`: it was too wide for its depth before the
      trial, and afterwards it is narrow enough for the next depth, and even for its own if its greedy action
      does not lead back to it. */
  ghost predicate Narrowed(c: Config, target: real, before: seq<MDPNode>, after: seq<MDPNode>, leaf: NodeId, a: nat,
      d: nat)
    requires c.problem.discount > 0.0
  {
    && leaf < |after| && a < |after[leaf].Q|
    && StartWidth(c, before, after, leaf) > Allowed(c, target, d)
    && Width(after[leaf]) <= Allowed(c, target, d + 1)
    && (NoSelfLoop(after, leaf, a) ==> Width(after[leaf]) <= Allowed(c, target, d))
  }

  /** What one update does to node `k` when every successor is narrow enough for the next depth. */
  lemma LeafNarrows(c: Config, target: real, before: seq<MDPNode>, k: NodeId, after: seq<MDPNode>, a: nat, d: nat)
    requires GraphOk(c, after) && UpdateStep(c, before, k, after, a) && c.dualPointBounds
    requires a < |after[k].Q| && 0.0 < c.problem.discount <= 1.0 && target > 0.0
    requires forall o | 0 <= o < |after[k].Q[a].outcomes| && after[k].Q[a].outcomes[o].Some? ::
      after[k].Q[a].outcomes[o].value.nextState < |after|
      && Width(after[after[k].Q[a].outcomes[o].value.nextState]) <= Allowed(c, target, d + 1)
    requires Width(before[k]) > Allowed(c, target, d)
    ensures Narrowed(c, target, before, after, k, a, d)
  {
    NodeWithin(c, after, k);
    hide GraphOk, UpperUpdated, LowerUpdated, Allowed;
    AllowedGrows(c, target, d, d + 1);
    if NoSelfLoop(after, k, a) {
      UpdateNarrows(c, before, k, after, a, Allowed(c, target, d + 1));
      AllowedStep(c, target, d);
    } else {
      var o :| 0 <= o < |after[k].Q[a].outcomes| && after[k].Q[a].outcomes[o].Some?
        && after[k].Q[a].outcomes[o].value.nextState == k;
      assert Width(after[k]) <= Allowed(c, target, d + 1);
    }
  }

  /** Earlier and later search leaves the statement about the leaf standing. */
  lemma NarrowedKept(c: Config, target: real, g: seq<MDPNode>, h: seq<MDPNode>, k: seq<MDPNode>, l: seq<MDPNode>,
      leaf: NodeId, a: nat, d: nat)
    requires c.problem.discount > 0.0
    requires Refines(c, g, h) && Refines(c, h, k) && Refines(c, k, l) && Narrowed(c, target, h, k, leaf, a, d)
    ensures Narrowed(c, target, g, l, leaf, a, d)
  {
    hide Brackets, BellmanOptimal, InitialBracket, Allowed;
    assert SameEdges(k[leaf].Q, l[leaf].Q);
    assert k[leaf].Q[a].outcomes == l[leaf].Q[a].outcomes;
    if leaf < |g| {
      assert Width(h[leaf]) <= Width(g[leaf]);
    }
    if NoSelfLoop(l, leaf, a) {
      assert NoSelfLoop(k, leaf, a);
    }
  }

  /** A stretch of search from depth `d` went no deeper than any depth at which every node is narrow enough. */
  ghost predicate Shallow(c: Config, target: real, nodes: seq<MDPNode>, d: nat, deepest: nat)
    requires c.problem.discount > 0.0
  {
    forall w: real, e: nat | WidthsWithin(c, nodes, w) && d <= e && w <= Allowed(c, target, e) :: deepest <= e
  }

  /** A node too wide for its depth is at a smaller depth than any that is deep enough. */
  lemma TooWideIsShallow(c: Config, target: real, nodes: seq<MDPNode>, k: NodeId, d: nat, w: real, e: nat)
    requires 0.0 < c.problem.discount <= 1.0 && target > 0.0 && k < |nodes|
    requires WidthsWithin(c, nodes, w) && w <= Allowed(c, target, e) && Width(nodes[k]) > Allowed(c, target, d)
    ensures d < e
  {
    if e <= d {
      AllowedGrows(c, target, e, d);
    }
  }

  /** Going one step down keeps a search shallow. */
  lemma ShallowStep(c: Config, target: real, before: seq<MDPNode>, k: NodeId, after: seq<MDPNode>, d: nat, deepest: nat)
    requires 0.0 < c.problem.discount <= 1.0 && target > 0.0 && k < |before| && Width(before[k]) > Allowed(c, target, d)
    requires Refines(c, before, after) && GraphOk(c, after) && Shallow(c, target, after, d + 1, deepest)
    ensures Shallow(c, target, before, d, deepest)
  {
    forall w: real, e: nat | WidthsWithin(c, before, w) && d <= e && w <= Allowed(c, target, e)
      ensures deepest <= e
    {
      TooWideIsShallow(c, target, before, k, d, w, e);
      WidthsKept(c, before, after, w);
    }
  }

  lemma StopsHere(c: Config, target: real, nodes: seq<MDPNode>, d: nat)
    ensures Refines(c, nodes, nodes) && (c.problem.discount > 0.0 ==> Shallow(c, target, nodes, d, d))
  {
  }

  /** The probability-weighted width of a successor beyond what is allowed at the next depth. */
  ghost function ExcessUnc(c: Config, target: real, nodes: seq<MDPNode>, e: Option<Edge>, depth: nat): real
    requires c.problem.discount > 0.0
  {
    if e.Some? && e.value.nextState < |nodes|
    then e.value.obsProb * (Width(nodes[e.value.nextState]) - Allowed(c, target, depth + 1))
    else 0.0
  }

  /** If the highest excess uncertainty is not positive, every successor is narrow enough for the next depth. */
  lemma NoExcessIsNarrow(p: real, width: real, allowed: real, excess: real)
    requires p > 0.0 && p * (width - allowed) <= excess <= 0.0
    ensures width <= allowed
  {
    if width > allowed {
      ProductPositive(p, width - allowed);
    }
  }

  lemma BottomNarrows(c: Config, target: real, before: seq<MDPNode>, k: NodeId, after: seq<MDPNode>, a: nat, d: nat,
      best: nat, excess: real)
    requires GraphOk(c, after) && UpdateStep(c, before, k, after, a) && c.dualPointBounds
    requires 0.0 < c.problem.discount <= 1.0 && target > 0.0 && Width(before[k]) > Allowed(c, target, d)
    requires best < |after[k].Q[a].outcomes| && after[k].Q[a].outcomes[best].Some?
    requires after[k].Q[a].outcomes[best].value.nextState < |after|
    requires Width(after[after[k].Q[a].outcomes[best].value.nextState]) <= Allowed(c, target, d + 1)
    requires excess == ExcessUnc(c, target, after, after[k].Q[a].outcomes[best], d)
    requires forall o | 0 <= o < |after[k].Q[a].outcomes| && after[k].Q[a].outcomes[o].Some? ::
      ExcessUnc(c, target, after, after[k].Q[a].outcomes[o], d) <= excess
    ensures Narrowed(c, target, before, after, k, a, d)
  {
    var es, allowed := after[k].Q[a].outcomes, Allowed(c, target, d + 1);
    NodeWithin(c, after, k);
    assert Within(es, |after|);
    ExcessNotPositive(es[best].value.obsProb, Width(after[es[best].value.nextState]), allowed);
    forall o | 0 <= o < |es| && es[o].Some?
      ensures es[o].value.nextState < |after| && Width(after[es[o].value.nextState]) <= allowed
    {
      assert ExcessUnc(c, target, after, es[o], d) <= excess;
      NoExcessIsNarrow(es[o].value.obsProb, Width(after[es[o].value.nextState]), allowed, excess);
    }
    hide Narrowed, GraphOk;
    LeafNarrows(c, target, before, k, after, a, d);
  }

  /** Whether the search goes on at a node of that width; where the inverse power is infinite, it does not. */
  predicate TooWide(c: Config, target: real, width: real, depth: nat)
    requires c.problem.discount >= 0.0
  {
    Finite(c, depth) && width > Allowed(c, target, depth)
  }

  // ---------- What a trial does ----------

  /** Going on with outcome `o`, the first of highest excess uncertainty, leads to `next`. */
  ghost predicate GoesOn(c: Config, target: real, nodes: seq<MDPNode>, k: NodeId, a: nat, depth: nat, o: int,
                         next: NodeId)
    requires c.problem.discount > 0.0
  {
    && k < |nodes| && a < |nodes[k].Q| && 0 <= o < |nodes[k].Q[a].outcomes| && nodes[k].Q[a].outcomes[o].Some?
    && next == nodes[k].Q[a].outcomes[o].value.nextState < |nodes|
    && IsMaxExcess(c, target, nodes, nodes[k].Q[a].outcomes, depth, o)
  }

  /** No edge has more excess uncertainty than edge `o`, and none before it as much. */
  ghost predicate IsMaxExcess(c: Config, target: real, nodes: seq<MDPNode>, es: seq<Option<Edge>>, depth: nat, o: int)
    requires c.problem.discount > 0.0 && 0 <= o < |es|
  {
    forall p | 0 <= p < |es| && es[p].Some? ::
      && ExcessUnc(c, target, nodes, es[p], depth) <= ExcessUnc(c, target, nodes, es[o], depth)
      && (p < o ==> ExcessUnc(c, target, nodes, es[p], depth) < ExcessUnc(c, target, nodes, es[o], depth))
  }

  /** Edge `best` is the first of highest excess uncertainty among the first `n`; it is -1 if there is no edge yet. */
  ghost predicate MaxSoFar(c: Config, target: real, nodes: seq<MDPNode>, es: seq<Option<Edge>>, depth: nat, n: nat,
                           best: int, excess: real)
    requires c.problem.discount > 0.0
  {
    && n <= |es| && -1 <= best < n
    && (best == -1 ==> forall p | 0 <= p < n :: es[p].None?)
    && (best != -1 ==> es[best].Some? && excess == ExcessUnc(c, target, nodes, es[best], depth))
    && (best != -1 ==> forall p | 0 <= p < n && es[p].Some? ::
          && ExcessUnc(c, target, nodes, es[p], depth) <= excess
          && (p < best ==> ExcessUnc(c, target, nodes, es[p], depth) < excess))
  }

  lemma MaxOfNone(c: Config, target: real, nodes: seq<MDPNode>, es: seq<Option<Edge>>, depth: nat)
    requires c.problem.discount > 0.0
    ensures MaxSoFar(c, target, nodes, es, depth, 0, -1, 0.0)
  {
  }

  lemma MaxStep(c: Config, target: real, nodes: seq<MDPNode>, es: seq<Option<Edge>>, depth: nat, n: nat, best: int,
                excess: real)
    requires c.problem.discount > 0.0 && MaxSoFar(c, target, nodes, es, depth, n, best, excess) && n < |es|
    ensures var x := ExcessUnc(c, target, nodes, es[n], depth);
      if es[n].Some? && (best == -1 || x > excess) then MaxSoFar(c, target, nodes, es, depth, n + 1, n, x)
      else MaxSoFar(c, target, nodes, es, depth, n + 1, best, excess)
  {
    hide ExcessUnc;
  }

  lemma MaxFound(c: Config, target: real, nodes: seq<MDPNode>, es: seq<Option<Edge>>, depth: nat, best: int,
                 excess: real, present: nat)
    requires c.problem.discount > 0.0 && MaxSoFar(c, target, nodes, es, depth, |es|, best, excess)
    requires present < |es| && es[present].Some?
    ensures 0 <= best < |es| && es[best].Some? && IsMaxExcess(c, target, nodes, es, depth, best)
    ensures excess == ExcessUnc(c, target, nodes, es[best], depth)
  {
    hide ExcessUnc;
  }

  /** The excess uncertainty of a sure edge is the excess width of its node, and the probabilities of edges taken one
      after the other multiply. */
  lemma ExcessMultiplies(c: Config, target: real, nodes: seq<MDPNode>, k: NodeId, p: real, r: real, depth: nat)
    requires c.problem.discount > 0.0 && k < |nodes|
    ensures ExcessUnc(c, target, nodes, Some(Edge(1.0, k)), depth) == Width(nodes[k]) - Allowed(c, target, depth + 1)
    ensures ExcessUnc(c, target, nodes, Some(Edge(p * r, k)), depth) ==
      Times(p, ExcessUnc(c, target, nodes, Some(Edge(r, k)), depth))
  {
    var x := Width(nodes[k]) - Allowed(c, target, depth + 1);
    assert (p * r) * x == p * (r * x);
  }

  lemma ExcessIs(c: Config, target: real, nodes: seq<MDPNode>, e: Edge, depth: nat)
    requires c.problem.discount > 0.0 && e.nextState < |nodes|
    ensures ExcessUnc(c, target, nodes, Some(e), depth) ==
      e.obsProb * (Width(nodes[e.nextState]) - Allowed(c, target, depth + 1))
  {
  }

  /** The trial finds node `k` too wide for its depth, updates it, and goes on with `next`, an outcome of highest
      excess uncertainty. */
  ghost predicate StepDown(c: Config, target: real, before: seq<MDPNode>, k: NodeId, depth: nat, after: seq<MDPNode>,
                           next: NodeId) {
    && c.problem.discount > 0.0 && GraphOk(c, before) && GraphOk(c, after)
    && k < |before| && TooWide(c, target, Width(before[k]), depth)
    && exists a, o :: UpdateStep(c, before, k, after, a) && GoesOn(c, target, after, k, a, depth, o, next)
  }

  ghost predicate StepUp(c: Config, before: seq<MDPNode>, k: NodeId, after: seq<MDPNode>) {
    exists a :: UpdateStep(c, before, k, after, a)
  }

  /** The way down of a trial from the first of the nodes `ks`, which is at depth `d`; `h` are the graphs in which they
      are visited. */
  ghost predicate Descent(c: Config, target: real, d: nat, h: seq<seq<MDPNode>>, ks: seq<NodeId>) {
    && |h| == |ks| > 0
    && forall i | 0 <= i < |ks| - 1 :: StepDown(c, target, h[i], ks[i], d + i, h[i + 1], ks[i + 1])
  }

  /** The nodes that a trial visits, and the graphs in which the visit of each begins and ends. */
  datatype Path = Path(ks: seq<NodeId>, down: seq<seq<MDPNode>>, up: seq<seq<MDPNode>>)

  /** A trial from the first node of a path at depth `d`, from `s` to `t`: the way down, to a node that is not too wide
      for its depth and is left alone, and then an update of every other node on the way, deepest first. */
  ghost predicate IsTrial(c: Config, target: real, d: nat, s: seq<MDPNode>, p: Path, t: seq<MDPNode>) {
    var n := |p.ks|;
    && Descent(c, target, d, p.down, p.ks) && |p.up| == n
    && p.down[0] == s && p.up[n - 1] == p.down[n - 1] && p.up[0] == t
    && c.problem.discount >= 0.0 && p.ks[n - 1] < |p.down[n - 1]|
    && !TooWide(c, target, Width(p.down[n - 1][p.ks[n - 1]]), d + n - 1)
    && (forall i | 0 <= i < n - 1 :: StepUp(c, p.up[i + 1], p.ks[i], p.up[i]))
  }

  lemma TrialStops(c: Config, target: real, d: nat, s: seq<MDPNode>, k: NodeId)
    requires c.problem.discount >= 0.0 && k < |s| && !TooWide(c, target, Width(s[k]), d)
    ensures IsTrial(c, target, d, s, Path([k], [s], [s]), s)
  {
    assert d + 1 - 1 == d;
  }

  lemma TrialGoesOn(c: Config, target: real, d: nat, s: seq<MDPNode>, k: NodeId, t: seq<MDPNode>, p: Path,
      u: seq<MDPNode>, v: seq<MDPNode>)
    requires p.ks != [] && StepDown(c, target, s, k, d, t, p.ks[0])
    requires IsTrial(c, target, d + 1, t, p, u) && StepUp(c, u, k, v)
    ensures IsTrial(c, target, d, s, Path([k] + p.ks, [s] + p.down, [v] + p.up), v)
  {
    hide StepDown, StepUp, TooWide, Width;
    var q := Path([k] + p.ks, [s] + p.down, [v] + p.up);
    var n := |p.ks|;
    assert q.ks[n] == p.ks[n - 1] && q.down[n] == p.down[n - 1] && q.up[n] == p.up[n - 1];
    assert d + (n + 1) - 1 == d + 1 + n - 1;
    forall i | 0 <= i < n
      ensures StepDown(c, target, q.down[i], q.ks[i], d + i, q.down[i + 1], q.ks[i + 1])
      ensures StepUp(c, q.up[i + 1], q.ks[i], q.up[i])
    {
      if i > 0 {
        assert StepDown(c, target, p.down[i - 1], p.ks[i - 1], d + 1 + (i - 1), p.down[i], p.ks[i]);
        assert StepUp(c, p.up[i], p.ks[i - 1], p.up[i - 1]);
        assert d + 1 + (i - 1) == d + i;
      }
    }
  }

  lemma NotEmpty(c: Config, target: real, d: nat, s: seq<MDPNode>, p: Path, t: seq<MDPNode>)
    requires IsTrial(c, target, d, s, p, t)
    ensures p.ks != []
  {
  }

  class HSVI {
    const bounds: BoundPair
    const targetPrecision: real
    var trialTargetPrecision: real
    var numTrials: nat

    ghost predicate Valid()
      reads this, bounds
    {
      bounds.Valid() && bounds.c.dualPointBounds && 0.0 <= bounds.c.problem.discount <= 1.0
    }

    constructor (boundPair: BoundPair, precision: real)
      requires boundPair.Valid() && boundPair.c.dualPointBounds
      ensures Valid() && bounds == boundPair && targetPrecision == precision
    {
      bounds := boundPair;
      targetPrecision := precision;
      trialTargetPrecision, numTrials := 0.0, 0;
    }

    /** The first outcome of highest probability-weighted excess uncertainty. There always is one, except at discount 0,
        where all excess uncertainties are minus infinity. */
    method GetMaxExcessUncOutcome(cn: NodeId, a: nat, depth: nat) returns (maxExcessUnc: real, maxExcessUncOutcome: int)
      requires Valid() && cn < |bounds.nodes| && a < |bounds.nodes[cn].Q|
      requires bounds.c.problem.discount > 0.0 || trialTargetPrecision > 0.0
      ensures maxExcessUncOutcome == -1 <==> bounds.c.problem.discount == 0.0
      ensures maxExcessUncOutcome != -1 ==>
        && Chosen(bounds.nodes[cn].Q[a].outcomes, maxExcessUncOutcome)
        && IsMaxExcess(bounds.c, trialTargetPrecision, bounds.nodes, bounds.nodes[cn].Q[a].outcomes, depth,
             maxExcessUncOutcome)
        && maxExcessUnc == ExcessUnc(bounds.c, trialTargetPrecision, bounds.nodes,
             bounds.nodes[cn].Q[a].outcomes[maxExcessUncOutcome], depth)
    {
      NodeWithin(bounds.c, bounds.nodes, cn);
      ghost var present := SomeEdge(bounds.c, bounds.nodes, cn, a);
      var es := bounds.nodes[cn].Q[a].outcomes;
      assert Within(es, |bounds.nodes|);
      maxExcessUnc, maxExcessUncOutcome := 0.0, -1;
      if !Finite(bounds.c, depth + 1) {
        return;
      }
      ghost var c, target, nodes := bounds.c, trialTargetPrecision, bounds.nodes;
      hide ExcessUnc, Allowed, GraphOk, GraphReady, LookupOk, MaxSoFar, IsMaxExcess;
      var allowed := Allowed(bounds.c, trialTargetPrecision, depth + 1);
      MaxOfNone(c, target, nodes, es, depth);
      for o := 0 to |es|
        invariant MaxSoFar(c, target, nodes, es, depth, o, maxExcessUncOutcome, maxExcessUnc)
      {
        MaxStep(c, target, nodes, es, depth, o, maxExcessUncOutcome, maxExcessUnc);
        if es[o].Some? {
          var width := es[o].value.obsProb * (Width(bounds.nodes[es[o].value.nextState]) - allowed);
          ExcessIs(c, target, nodes, es[o].value, depth);
          if maxExcessUncOutcome == -1 || width > maxExcessUnc {
            maxExcessUnc, maxExcessUncOutcome := width, o;
          }
        }
      }
      MaxFound(c, target, nodes, es, depth, maxExcessUncOutcome, maxExcessUnc, present);
    }

    /** The index is that of an edge to an existing node. */
    ghost predicate Chosen(es: seq<Option<Edge>>, o: int)
      reads bounds
    {
      0 <= o < |es| && es[o].Some? && es[o].value.nextState < |bounds.nodes|
    }

    /** Updates a node, and picks the outcome to go on with, which is the first of highest excess uncertainty; at
        discount 0 there is none. If that outcome is narrow
        enough for its depth, so is every other, and the node itself has been narrowed. */
    method Update(cn: NodeId, depth: nat) returns (maxUBAction: nat, maxExcessUncOutcome: int)
      requires Valid() && cn < |bounds.nodes|
      requires bounds.c.problem.discount > 0.0 || trialTargetPrecision > 0.0
      modifies bounds
      ensures Valid() && Refines(bounds.c, old(bounds.nodes), bounds.nodes)
      ensures UpdateStep(bounds.c, old(bounds.nodes), cn, bounds.nodes, maxUBAction)
      ensures cn < |bounds.nodes| && maxUBAction < |bounds.nodes[cn].Q|
      ensures maxExcessUncOutcome == -1 <==> bounds.c.problem.discount == 0.0
      ensures maxExcessUncOutcome != -1 ==>
        && Chosen(bounds.nodes[cn].Q[maxUBAction].outcomes, maxExcessUncOutcome)
        && IsMaxExcess(bounds.c, trialTargetPrecision, bounds.nodes, bounds.nodes[cn].Q[maxUBAction].outcomes, depth,
             maxExcessUncOutcome)
        && (var e := bounds.nodes[cn].Q[maxUBAction].outcomes[maxExcessUncOutcome];
            BottomReached(old(bounds.nodes), cn, depth, e) ==>
              Narrowed(bounds.c, trialTargetPrecision, old(bounds.nodes), bounds.nodes, cn, maxUBAction, depth))
    {
      hide Refines, Narrowed, GraphReady, LookupOk, UpdateStep;
      ghost var c, before := bounds.c, bounds.nodes;
      maxUBAction := bounds.Update(cn);
      UpdateRefines(c, before, cn, bounds.nodes, maxUBAction);
      UpdatedAction(c, before, cn, bounds.nodes, maxUBAction);
      var excess, outcome := GetMaxExcessUncOutcome(cn, maxUBAction, depth);
      maxExcessUncOutcome := outcome;
      if outcome != -1 && BottomReached(before, cn, depth, bounds.nodes[cn].Q[maxUBAction].outcomes[outcome]) {
        BottomNarrows(c, trialTargetPrecision, before, cn, bounds.nodes, maxUBAction, depth, outcome, excess);
      }
    }

    /** The search was entitled to update `cn` at `depth`, but will stop right after following `e`. */
    ghost predicate BottomReached(before: seq<MDPNode>, cn: NodeId, depth: nat, e: Option<Edge>)
      requires bounds.c.problem.discount > 0.0 && cn < |before|
      reads this, bounds
    {
      && trialTargetPrecision > 0.0
      && Width(before[cn]) > Allowed(bounds.c, trialTargetPrecision, depth)
      && e.Some? && e.value.nextState < |bounds.nodes|
      && Width(bounds.nodes[e.value.nextState]) <= Allowed(bounds.c, trialTargetPrecision, depth + 1)
    }

    /** One trial from `cn` at `depth`. It fails, as the assertion on the chosen outcome does, exactly if it has to go
        on at discount 0. The ghost parameters are a bound on all widths and a depth at which it is narrow enough. The
        ghost results are the depth at which the trial stopped, and the node updated last on the way there, with its
        greedy action; and the way the trial takes. A trial that fails has updated `cn` once. */
    method TrialRecurse(cn: NodeId, depth: nat, ghost w: real, ghost limit: nat)
      returns (ok: bool, ghost deepest: nat, ghost leaf: NodeId, ghost leafAction: nat, ghost path: Path)
      requires Valid() && cn < |bounds.nodes|
      requires trialTargetPrecision > 0.0
        || (Finite(bounds.c, depth) && Width(bounds.nodes[cn]) <= Allowed(bounds.c, trialTargetPrecision, depth))
      requires WidthsWithin(bounds.c, bounds.nodes, w)
      requires bounds.c.problem.discount > 0.0 && trialTargetPrecision > 0.0 ==>
        depth <= limit && w <= Allowed(bounds.c, trialTargetPrecision, limit)
      modifies bounds
      ensures Valid() && Refines(bounds.c, old(bounds.nodes), bounds.nodes)
      ensures ok <==>
        bounds.c.problem.discount > 0.0 || !TooWide(bounds.c, trialTargetPrecision, old(Width(bounds.nodes[cn])), depth)
      ensures ok ==> IsTrial(bounds.c, trialTargetPrecision, depth, old(bounds.nodes), path, bounds.nodes)
      ensures ok ==> |path.ks| == deepest - depth + 1 && path.ks[0] == cn
      ensures ok && deepest > depth ==> leaf == path.ks[|path.ks| - 2]
      ensures !ok ==> StepUp(bounds.c, old(bounds.nodes), cn, bounds.nodes)
      ensures depth <= deepest
      ensures deepest == depth <==> !TooWide(bounds.c, trialTargetPrecision, old(Width(bounds.nodes[cn])), depth)
      ensures bounds.c.problem.discount > 0.0 ==>
        Shallow(bounds.c, trialTargetPrecision, old(bounds.nodes), depth, deepest)
      ensures bounds.c.problem.discount > 0.0 && deepest > depth ==>
        Narrowed(bounds.c, trialTargetPrecision, old(bounds.nodes), bounds.nodes, leaf, leafAction, deepest - 1)
      ensures if deepest == depth then bounds.nodes == old(bounds.nodes)
              else EndsWithUpdate(bounds.c, old(bounds.nodes), cn, bounds.nodes)
      decreases limit - depth
    {
      hide Refines, Narrowed, Shallow, Allowed, WidthsWithin, GraphOk, GraphReady, LookupOk, UpdateStep, EndsWithUpdate;
      hide IsTrial, IsMaxExcess, Descent;
      ghost var c, target, g := bounds.c, trialTargetPrecision, bounds.nodes;
      ok, deepest, leaf, leafAction, path := true, depth, 0, 0, Path([cn], [g], [g]);
      StopsHere(c, target, g, depth);
      if !TooWide(bounds.c, trialTargetPrecision, Width(bounds.nodes[cn]), depth) {
        TrialStops(c, target, depth, g, cn);
        return;
      }
      var maxUBAction, o := Update(cn, depth);
      ghost var h := bounds.nodes;
      RefinesGrows(c, g, h);
      RefinesRefl(c, g);
      if o == -1 {
        EndedWithUpdate(c, g, g, cn, h, maxUBAction);
        ok, deepest := false, depth + 1;
        return;
      }
      TooWideIsShallow(c, target, g, cn, depth, w, limit);
      WidthsKept(c, g, h, w);
      var sn := bounds.nodes[cn].Q[maxUBAction].outcomes[o].value.nextState;
      assert GoesOn(c, target, h, cn, maxUBAction, depth, o, sn);
      ok, deepest, leaf, leafAction, path := TrialRecurse(sn, depth + 1, w, limit);
      ghost var k := bounds.nodes;
      ShallowStep(c, target, g, cn, h, depth, deepest);
      RefinesGrows(c, h, k);
      RefinesTrans(c, g, h, k);
      var a, _ := Update(cn, depth);
      RefinesTrans(c, g, k, bounds.nodes);
      EndedWithUpdate(c, g, k, cn, bounds.nodes, a);
      NotEmpty(c, target, depth + 1, h, path, k);
      TrialGoesOn(c, target, depth, g, cn, h, path, k, bounds.nodes);
      path := Path([cn] + path.ks, [g] + path.down, [bounds.nodes] + path.up);
      if deepest == depth + 1 {
        leaf, leafAction := cn, maxUBAction;
        NarrowedKept(c, target, g, g, h, bounds.nodes, leaf, leafAction, depth);
      } else {
        NarrowedKept(c, target, g, h, k, bounds.nodes, leaf, leafAction, deepest - 1);
      }
    }

    /** One trial from `cn`, for any discount below 1; reports whether its bounds are within the target precision. It
        always terminates, and fails exactly if the discount is 0 and the root has width. Otherwise it goes no deeper
        than the first depth at which every node is narrow enough, and narrows the last node it reaches. */
    method DoTrial(cn: NodeId)
      returns (ok: bool, done: bool, ghost deepest: nat, ghost leaf: NodeId, ghost leafAction: nat, ghost path: Path)
      requires Valid() && cn < |bounds.nodes| && bounds.c.problem.discount < 1.0
      modifies this`trialTargetPrecision, this`numTrials, bounds
      ensures Valid() && Refines(bounds.c, old(bounds.nodes), bounds.nodes)
      ensures trialTargetPrecision == old(Width(bounds.nodes[cn])) * IMPROVEMENT_CONSTANT
      ensures ok <==> bounds.c.problem.discount > 0.0 || old(Width(bounds.nodes[cn])) <= 0.0
      ensures cn < |bounds.nodes| && (done <==> ok && Width(bounds.nodes[cn]) < targetPrecision)
      ensures ok ==> IsTrial(bounds.c, trialTargetPrecision, 0, old(bounds.nodes), path, bounds.nodes)
      ensures ok ==> |path.ks| == deepest + 1 && path.ks[0] == cn && numTrials == old(numTrials) + 1
      ensures ok && deepest > 0 ==> leaf == path.ks[|path.ks| - 2]
      ensures !ok ==> StepUp(bounds.c, old(bounds.nodes), cn, bounds.nodes)
      ensures deepest > 0 <==> old(Width(bounds.nodes[cn])) > 0.0
      ensures deepest > 0 ==> EndsWithUpdate(bounds.c, old(bounds.nodes), cn, bounds.nodes)
      ensures bounds.c.problem.discount > 0.0 ==>
        Shallow(bounds.c, trialTargetPrecision, old(bounds.nodes), 0, deepest)
      ensures bounds.c.problem.discount > 0.0 && deepest > 0 ==>
        Narrowed(bounds.c, trialTargetPrecision, old(bounds.nodes), bounds.nodes, leaf, leafAction, deepest - 1)
    {
      hide Refines, Narrowed, Shallow, WidthsWithin, GraphOk, GraphReady, LookupOk, IsTrial, StepUp;
      ghost var c, g := bounds.c, bounds.nodes;
      trialTargetPrecision := Width(bounds.nodes[cn]) * IMPROVEMENT_CONSTANT;
      ghost var w := WidthBoundExists(c, g);
      ghost var limit := 0;
      if trialTargetPrecision > 0.0 && c.problem.discount > 0.0 {
        limit := DepthExists(c.problem.discount, w, trialTargetPrecision);
      }
      ok, deepest, leaf, leafAction, path := TrialRecurse(cn, 0, w, limit);
      RefinesGrows(c, g, bounds.nodes);
      if !ok {
        return false, false, deepest, leaf, leafAction, path;
      }
      numTrials := numTrials + 1;
      done := Width(bounds.nodes[cn]) < targetPrecision;
    }
  }

  lemma ExcessNotPositive(p: real, width: real, allowed: real)
    requires p > 0.0 && width <= allowed
    ensures p * (width - allowed) <= 0.0
  {
    ScaleMono(p, width - allowed, 0.0);
  }
}
