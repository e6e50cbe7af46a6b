/** For which discounts every HSVI trial ends: the way down of a trial, as a sequence of updates. */
module HsviDescents {
  import opened Wrappers
  import opened RealArith
  import opened Mdp
  import opened BoundPairs
  import opened BoundTheory
  import opened HsviSearch

  /** Some length is not exceeded by any way down from this node. */
  ghost predicate Ends(c: Config, nodes: seq<MDPNode>, root: NodeId)
    requires root < |nodes|
  {
    exists n: nat :: EndsBy(c, nodes, root, n)
  }

  ghost predicate EndsBy(c: Config, nodes: seq<MDPNode>, root: NodeId, n: nat)
    requires root < |nodes|
  {
    forall h, ks | Descent(c, Width(nodes[root]) * IMPROVEMENT_CONSTANT, 0, h, ks) && h[0] == nodes && ks[0] == root ::
      |ks| <= n + 1
  }

  lemma {:induction false} WidthsDown(c: Config, target: real, h: seq<seq<MDPNode>>, ks: seq<NodeId>, w: real, i: nat)
    requires Descent(c, target, 0, h, ks) && i < |ks| && WidthsWithin(c, h[0], w)
    ensures WidthsWithin(c, h[i], w)
  {
    if i > 0 {
      hide StepDown, WidthsWithin;
      assert 0 + (i - 1) == i - 1;
      WidthsDown(c, target, h, ks, w, i - 1);
      WidthsKeptDown(c, target, h[i - 1], ks[i - 1], i - 1, h[i], ks[i], w);
    }
  }

  lemma WidthsKeptDown(c: Config, target: real, before: seq<MDPNode>, k: NodeId, depth: nat, after: seq<MDPNode>,
                       next: NodeId, w: real)
    requires StepDown(c, target, before, k, depth, after, next) && WidthsWithin(c, before, w)
    ensures WidthsWithin(c, after, w)
  {
    hide GoesOn, UpdateStep, Refines, WidthsWithin, GraphOk, TooWide, Width;
    var a, o :| UpdateStep(c, before, k, after, a) && GoesOn(c, target, after, k, a, depth, o, next);
    UpdateRefines(c, before, k, after, a);
    WidthsKept(c, before, after, w);
  }

  /** No way down is longer than the first depth at which every node is narrow enough. */
  lemma DescentIsShort(c: Config, target: real, h: seq<seq<MDPNode>>, ks: seq<NodeId>, w: real, e: nat)
    requires Descent(c, target, 0, h, ks) && 0.0 < c.problem.discount < 1.0 && target > 0.0
    requires WidthsWithin(c, h[0], w) && w <= Allowed(c, target, e)
    ensures |ks| <= e + 1
  {
    if |ks| > 1 {
      var i := |ks| - 2;
      WidthsDown(c, target, h, ks, w, i);
      assert StepDown(c, target, h[i], ks[i], 0 + i, h[i + 1], ks[i + 1]);
      hide GraphOk, UpdateStep, GoesOn, Allowed, WidthsWithin;
      TooWideIsShallow(c, target, h[i], ks[i], i, w, e);
    }
  }

  lemma DiscountedEnds(c: Config, nodes: seq<MDPNode>, root: NodeId)
    requires c.Valid() && c.problem.discount < 1.0 && root < |nodes|
    ensures Ends(c, nodes, root)
  {
    var target := Width(nodes[root]) * IMPROVEMENT_CONSTANT;
    var e: nat := 0;
    if c.problem.discount > 0.0 && target > 0.0 {
      var w := WidthBoundExists(c, nodes);
      e := DepthExists(c.problem.discount, w, target);
      forall h, ks | Descent(c, target, 0, h, ks) && h[0] == nodes && ks[0] == root
        ensures |ks| <= e + 1
      {
        DescentIsShort(c, target, h, ks, w, e);
      }
    } else {
      forall h, ks | Descent(c, target, 0, h, ks) && h[0] == nodes && ks[0] == root
        ensures |ks| <= e + 1
      {
        if |ks| > 1 {
          assert StepDown(c, target, h[0], ks[0], 0 + 0, h[1], ks[1]);
          AllowedAtRoot(c, target);
        }
      }
    }
    assert EndsBy(c, nodes, root, e);
  }

  lemma AllowedAtRoot(c: Config, target: real)
    requires c.problem.discount >= 0.0
    ensures Allowed(c, target, 0) == target
  {
  }

  // ---------- Discount 1 ----------

  /** One state that leads back to itself without reward; its bounds are 0 and 1. */
  function Treadmill(): Config {
    var problem := Mdp({0}, 0, 1, 1.0, (s: State) => false, (s: State, a: nat) => 0.0,
                       (s: State, a: nat) => [Outcome(1.0, 0)]);
    Config(problem, (s: State) => 0.0, (s: State) => 1.0, true, true)
  }

  function TreadmillNodes(): seq<MDPNode> {
    [MDPNode(0, false, [QEntry(0.0, [Some(Edge(1.0, 0))], 0.0, Some(1.0))], 0.0, 1.0)]
  }

  lemma TreadmillIsOk()
    ensures Treadmill().Valid() && GraphOk(Treadmill(), TreadmillNodes())
  {
    var m, nodes := Treadmill().problem, TreadmillNodes();
    var outs := [Outcome(1.0, 0)];
    assert outs[..0] == [] && OutcomeMass([]) == 0.0;
    assert OutcomeMass(outs) == OutcomeMass(outs[..0]) + 1.0;
    assert m.Distribution(outs);
    assert EdgeOk(nodes, outs[0], nodes[0].Q[0].outcomes[0]);
    assert QOk(m, nodes, 0, 0, nodes[0].Q[0]);
  }

  lemma {:induction false} AllowedAtOne(d: nat)
    ensures Allowed(Treadmill(), 0.95, d) == 0.95
    ensures InversePower(1.0, d) == 1.0
  {
    if d > 0 {
      AllowedAtOne(d - 1);
    }
  }

  /** Updates change nothing there. */
  lemma TreadmillStep(depth: nat)
    ensures StepDown(Treadmill(), 0.95, TreadmillNodes(), 0, depth, TreadmillNodes(), 0)
  {
    var c, nodes := Treadmill(), TreadmillNodes();
    TreadmillIsOk();
    AllowedAtOne(depth);
    var q := nodes[0].Q[0];
    var uv, lv := UbVals(nodes)[0 := nodes[0].ubVal], LbVals(nodes)[0 := nodes[0].lbVal];
    assert uv == [1.0] && lv == [0.0];
    ExpOfOne(1.0, uv);
    ExpOfOne(0.0, lv);
    assert FreshUb(c, q, uv) && FreshLb(c, q, lv);
    hide Backup, Exp;
    assert UpdateStep(c, nodes, 0, nodes, 0);
    hide UpdateStep, GraphOk;
    assert GoesOn(c, 0.95, nodes, 0, 0, depth, 0, 0);
  }

  lemma ExpOfOne(x: real, v: seq<real>)
    requires v == [x]
    ensures Exp([Some(Edge(1.0, 0))], v) == x
  {
    var es := [Some(Edge(1.0, 0))];
    assert es[..0] == [];
    assert Exp(es, v) == Exp(es[..0], v) + Term(es[0], v);
  }

  lemma TreadmillNeverEnds()
    ensures |TreadmillNodes()| == 1 && !Ends(Treadmill(), TreadmillNodes(), 0)
  {
    forall n: nat
      ensures !EndsBy(Treadmill(), TreadmillNodes(), 0, n)
    {
      var h, ks := seq(n + 2, _ => TreadmillNodes()), seq(n + 2, _ => 0);
      forall i | 0 <= i < |ks| - 1
        ensures StepDown(Treadmill(), 0.95, h[i], ks[i], 0 + i, h[i + 1], ks[i + 1])
      {
        TreadmillStep(i);
      }
      hide StepDown;
      assert Width(TreadmillNodes()[0]) == 1.0 && 1.0 * IMPROVEMENT_CONSTANT == 0.95;
      assert Descent(Treadmill(), 0.95, 0, h, ks) && h[0] == TreadmillNodes() && ks[0] == 0;
    }
  }

  /** Trials end on every model exactly for the discounts below 1. */
  lemma TrialsEndExactly(g: real)
    requires 0.0 <= g <= 1.0
    ensures g < 1.0 <==>
      forall c: Config, nodes, root: nat |
        c.Valid() && c.problem.discount == g && GraphOk(c, nodes) && root < |nodes| :: Ends(c, nodes, root)
  {
    if g < 1.0 {
      forall c: Config, nodes, root: nat | c.Valid() && c.problem.discount == g && GraphOk(c, nodes) && root < |nodes|
        ensures Ends(c, nodes, root)
      {
        DiscountedEnds(c, nodes, root);
      }
    } else {
      TreadmillIsOk();
      TreadmillNeverEnds();
      assert Treadmill().problem.discount == g;
    }
  }
}
