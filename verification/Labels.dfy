/** What a "solved" label means in the labelling searches, and what it is worth. */
module Labels {
  import opened Wrappers
  import opened RealArith
  import opened Mdp
  import opened BoundPairs
  import opened BoundTheory

  /** The greedy action `a` of node `i` is up to date, has a small residual, and leads only into `into`. */
  ghost predicate GreedyOk(c: Config, nodes: seq<MDPNode>, into: set<NodeId>, i: NodeId, a: nat, eps: real)
    requires i < |nodes| && a < |nodes[i].Q|
  {
    && FreshUb(c, nodes[i].Q[a], UbVals(nodes))
    && Abs(nodes[i].ubVal - nodes[i].Q[a].ubVal.value) <= eps
    && forall o | 0 <= o < |nodes[i].Q[a].outcomes| && nodes[i].Q[a].outcomes[o].Some? ::
         nodes[i].Q[a].outcomes[o].value.nextState in into
  }

  ghost predicate LabelOk(c: Config, nodes: seq<MDPNode>, into: set<NodeId>, i: NodeId, eps: real)
    requires i < |nodes|
  {
    if nodes[i].isTerminal then nodes[i].ubVal == 0.0
    else
      && nodes[i].Q != []
      && forall a: nat | IsMaxUBAction(nodes[i].Q, a) :: GreedyOk(c, nodes, into, i, a, eps)
  }

  /** Every solved node is terminal, or has a residual of at most `eps` and only solved greedy successors. */
  ghost predicate Labelled(c: Config, nodes: seq<MDPNode>, solved: set<NodeId>, eps: real) {
    forall i | i in solved :: i < |nodes| && LabelOk(c, nodes, solved, i, eps)
  }

  /** The expectation depends only on the successors. */
  lemma ExpAgrees(es: seq<Option<Edge>>, v: seq<real>, w: seq<real>)
    requires Within(es, |v|) && Within(es, |w|)
    requires forall o | 0 <= o < |es| && es[o].Some? :: v[es[o].value.nextState] == w[es[o].value.nextState]
    ensures Exp(es, v) == Exp(es, w)
  {
    ExpShift(es, v, w, 0.0);
    ExpShift(es, w, v, 0.0);
  }

  lemma BackupAgrees(c: Config, q: QEntry, v: seq<real>, w: seq<real>)
    requires Within(q.outcomes, |v|) && Within(q.outcomes, |w|)
    requires forall o | 0 <= o < |q.outcomes| && q.outcomes[o].Some? ::
      v[q.outcomes[o].value.nextState] == w[q.outcomes[o].value.nextState]
    ensures Backup(c, q, v) == Backup(c, q, w)
  {
    ExpAgrees(q.outcomes, v, w);
  }

  /** A label survives any change that leaves the node and its greedy successors alone. */
  lemma LabelKept(c: Config, before: seq<MDPNode>, after: seq<MDPNode>, into: set<NodeId>, into': set<NodeId>,
      i: NodeId, eps: real)
    requires |before| <= |after| && i < |before| && after[i] == before[i] && into <= into'
    requires forall j | j in into :: j < |before| && after[j].ubVal == before[j].ubVal
    requires LabelOk(c, before, into, i, eps)
    ensures LabelOk(c, after, into', i, eps)
  {
    forall a: nat | IsMaxUBAction(after[i].Q, a) && !after[i].isTerminal
      ensures GreedyOk(c, after, into', i, a, eps)
    {
      assert GreedyOk(c, before, into, i, a, eps);
      var q := after[i].Q[a];
      assert q == before[i].Q[a];
      assert Within(q.outcomes, |before|) && Within(q.outcomes, |after|);
      BackupAgrees(c, q, UbVals(before), UbVals(after));
    }
  }

  /** Labels survive as long as solved nodes are left alone. */
  lemma LabelsKept(c: Config, before: seq<MDPNode>, after: seq<MDPNode>, solved: set<NodeId>, eps: real)
    requires Labelled(c, before, solved, eps) && |before| <= |after|
    requires forall i | i in solved :: after[i] == before[i]
    ensures Labelled(c, after, solved, eps)
  {
    forall i | i in solved
      ensures i < |after| && LabelOk(c, after, solved, i, eps)
    {
      LabelKept(c, before, after, solved, solved, i, eps);
    }
  }

  // ---------- The value of the greedy policy ----------

  /** `W` is the value of following the greedy actions on the solved nodes. */
  ghost predicate GreedyValue(c: Config, nodes: seq<MDPNode>, solved: set<NodeId>, W: seq<real>) {
    && |W| == |nodes|
    && forall i | i in solved && i < |nodes| ::
         if nodes[i].isTerminal then W[i] == 0.0
         else forall a: nat | IsMaxUBAction(nodes[i].Q, a) && Within(nodes[i].Q[a].outcomes, |W|) ::
           W[i] == Backup(c, nodes[i].Q[a], W)
  }

  /** A first action of highest cached value exists. */
  lemma {:induction false} MaxUBActionExists(q: seq<QEntry>) returns (a: nat)
    requires q != [] && Defined(q)
    ensures IsMaxUBAction(q, a)
    decreases |q|
  {
    var n := |q| - 1;
    if n == 0 {
      a := 0;
    } else {
      assert Defined(q[..n]);
      a := MaxUBActionExists(q[..n]);
      if q[n].ubVal.value > q[a].ubVal.value {
        a := n;
      }
    }
  }

  /** Some member of a non-empty set of indices has the highest value. */
  lemma HighestMember(s: set<NodeId>, f: seq<real>) returns (m: NodeId)
    requires s != {} && forall i | i in s :: i < |f|
    ensures m in s && forall i | i in s :: f[i] <= f[m]
  {
    var n :| n in s;
    var rest := s - {n};
    m := n;
    if rest != {} {
      var r := HighestMember(rest, f);
      if f[n] < f[r] {
        m := r;
      }
      forall i | i in s
        ensures f[i] <= f[m]
      {
        assert i == n || i in rest;
      }
    } else {
      assert s == {n};
    }
  }

  /** One step of the contraction: where the gap between two value functions is at most `d` on the successors,
      the backups of one action differ by at most `discount * d`. */
  lemma GapContracts(c: Config, nodes: seq<MDPNode>, i: NodeId, a: nat, v: seq<real>, w: seq<real>, into: set<NodeId>,
      d: real)
    requires GraphOk(c, nodes) && i < |nodes| && a < |nodes[i].Q| && |v| == |w| == |nodes|
    requires forall o | 0 <= o < |nodes[i].Q[a].outcomes| && nodes[i].Q[a].outcomes[o].Some? ::
      nodes[i].Q[a].outcomes[o].value.nextState in into
    requires forall j | j in into && j < |nodes| :: v[j] <= w[j] + d
    ensures Within(nodes[i].Q[a].outcomes, |nodes|)
    ensures Backup(c, nodes[i].Q[a], v) <= Backup(c, nodes[i].Q[a], w) + Times(c.problem.discount, d)
  {
    hide Backup, Times;
    assert NodeOk(c.problem, nodes, nodes[i]);
    assert QOk(c.problem, nodes, nodes[i].s, a, nodes[i].Q[a]);
    EdgeMass(c, nodes, nodes[i].s, a, nodes[i].Q[a]);
    BackupShift(c, nodes[i].Q[a], v, w, d);
  }

  /** The greedy action of a solved non-terminal node. */
  lemma GreedyAction(c: Config, nodes: seq<MDPNode>, solved: set<NodeId>, eps: real, i: NodeId) returns (a: nat)
    requires GraphOk(c, nodes) && GraphReady(nodes) && Labelled(c, nodes, solved, eps)
    requires i in solved && !nodes[i].isTerminal
    ensures IsMaxUBAction(nodes[i].Q, a) && GreedyOk(c, nodes, solved, i, a, eps)
  {
    assert LabelOk(c, nodes, solved, i, eps);
    a := MaxUBActionExists(nodes[i].Q);
  }

  /** The gap at a solved node is at most `eps` plus the discounted largest gap. */
  lemma SolvedGap(c: Config, nodes: seq<MDPNode>, solved: set<NodeId>, eps: real, W: seq<real>, m: NodeId, d: real)
    requires GraphOk(c, nodes) && GraphReady(nodes) && Labelled(c, nodes, solved, eps)
    requires GreedyValue(c, nodes, solved, W) && 0.0 <= eps && 0.0 <= d && m in solved
    requires forall j | j in solved && j < |nodes| :: Abs(nodes[j].ubVal - W[j]) <= d
    ensures Abs(nodes[m].ubVal - W[m]) <= eps + Times(c.problem.discount, d)
  {
    assert LabelOk(c, nodes, solved, m, eps);
    if nodes[m].isTerminal {
      hide GraphReady;
      ProductNonNegative(c.problem.discount, d);
    } else {
      hide GraphReady, Backup, Times;
      var v := UbVals(nodes);
      var a := GreedyAction(c, nodes, solved, eps, m);
      GapContracts(c, nodes, m, a, v, W, solved, d);
      GapContracts(c, nodes, m, a, W, v, solved, d);
    }
  }

  /** The upper values of solved nodes are within `eps / (1 - discount)` of the value of the greedy policy. */
  lemma SolvedUpperIsTight(c: Config, nodes: seq<MDPNode>, solved: set<NodeId>, eps: real, W: seq<real>, i: NodeId)
    requires GraphOk(c, nodes) && GraphReady(nodes) && Labelled(c, nodes, solved, eps)
    requires c.problem.discount < 1.0 && GreedyValue(c, nodes, solved, W) && 0.0 <= eps
    requires i in solved
    ensures Abs(nodes[i].ubVal - W[i]) <= eps / (1.0 - c.problem.discount)
  {
    assert forall j | j in solved :: j < |nodes|;
    assert |W| == |nodes| && 0.0 <= c.problem.discount;
    hide *;
    var gaps := seq(|nodes|, j requires 0 <= j < |nodes| && |W| == |nodes| => Abs(nodes[j].ubVal - W[j]));
    var m := HighestMember(solved, gaps);
    assert forall j | j in solved && j < |nodes| :: gaps[j] == Abs(nodes[j].ubVal - W[j]);
    SolvedGap(c, nodes, solved, eps, W, m, gaps[m]);
    TimesIs(c.problem.discount, gaps[m]);
    Geometric(gaps[m], eps, c.problem.discount);
  }

  lemma OptimalGap(c: Config, V: State -> real, nodes: seq<MDPNode>, solved: set<NodeId>, eps: real, W: seq<real>,
      m: NodeId, d: real)
    requires GraphOk(c, nodes) && GraphReady(nodes) && Labelled(c, nodes, solved, eps)
    requires GreedyValue(c, nodes, solved, W) && BellmanOptimal(c.problem, V) && m in solved && 0.0 <= d
    requires forall j | j in solved && j < |nodes| :: W[j] - V(nodes[j].s) <= d
    ensures W[m] - V(nodes[m].s) <= Times(c.problem.discount, d)
  {
    assert LabelOk(c, nodes, solved, m, eps);
    assert NodeOk(c.problem, nodes, nodes[m]);
    if nodes[m].isTerminal {
      hide GraphReady;
      ProductNonNegative(c.problem.discount, d);
    } else {
      var a := GreedyAction(c, nodes, solved, eps, m);
      hide GraphReady, Backup, Times, Labelled, LabelOk, Lookahead;
      var v := ValuesOf(V, nodes);
      GapContracts(c, nodes, m, a, W, v, solved, d);
      BackupBelowOptimal(c, V, nodes, m, a, v);
    }
  }

  /** The greedy policy on the solved nodes is never better than optimal. */
  lemma GreedyBelowOptimal(c: Config, V: State -> real, nodes: seq<MDPNode>, solved: set<NodeId>, eps: real,
      W: seq<real>, i: NodeId)
    requires GraphOk(c, nodes) && GraphReady(nodes) && Labelled(c, nodes, solved, eps)
    requires c.problem.discount < 1.0 && GreedyValue(c, nodes, solved, W) && BellmanOptimal(c.problem, V)
    requires i in solved
    ensures W[i] <= V(nodes[i].s)
  {
    assert forall j | j in solved :: j < |nodes|;
    var gaps := seq(|nodes|, j requires 0 <= j < |nodes| && |W| == |nodes| => W[j] - V(nodes[j].s));
    var m := HighestMember(solved, gaps);
    assert forall j | j in solved && j < |nodes| :: W[j] - V(nodes[j].s) <= gaps[m] by {
      forall j | j in solved && j < |nodes|
        ensures W[j] - V(nodes[j].s) <= gaps[m]
      {
        assert gaps[j] <= gaps[m];
      }
    }
    LargestGapNotPositive(c, V, nodes, solved, eps, W, m, gaps[m]);
    assert gaps[i] <= gaps[m];
  }

  lemma LargestGapNotPositive(c: Config, V: State -> real, nodes: seq<MDPNode>, solved: set<NodeId>, eps: real,
      W: seq<real>, m: NodeId, d: real)
    requires GraphOk(c, nodes) && GraphReady(nodes) && Labelled(c, nodes, solved, eps)
    requires GreedyValue(c, nodes, solved, W) && BellmanOptimal(c.problem, V) && m in solved
    requires c.problem.discount < 1.0 && W[m] - V(nodes[m].s) == d
    requires forall j | j in solved && j < |nodes| :: W[j] - V(nodes[j].s) <= d
    ensures d <= 0.0
  {
    hide *;
    if d >= 0.0 {
      OptimalGap(c, V, nodes, solved, eps, W, m, d);
      NoGrowth(d, c.problem.discount);
    }
  }

  /** Once a node is solved, following the greedy actions from it is within `eps / (1 - discount)` of optimal. */
  lemma SolvedIsNearOptimal(c: Config, V: State -> real, nodes: seq<MDPNode>, solved: set<NodeId>, eps: real,
      W: seq<real>, i: NodeId)
    requires GraphOk(c, nodes) && GraphReady(nodes) && Labelled(c, nodes, solved, eps)
    requires c.problem.discount < 1.0 && GreedyValue(c, nodes, solved, W) && 0.0 <= eps
    requires BellmanOptimal(c.problem, V) && Brackets(c, V, nodes)
    requires i in solved
    ensures |W| == |nodes| && V(nodes[i].s) - eps / (1.0 - c.problem.discount) <= W[i] <= V(nodes[i].s)
  {
    assert NodeBrackets(c, V, nodes[i]);
    SolvedUpperIsTight(c, nodes, solved, eps, W, i);
    GreedyBelowOptimal(c, V, nodes, solved, eps, W, i);
  }

  // ---------- Finitely many greedy steps ----------

  /** One step of the greedy policy, followed by values `W`. */
  ghost function GreedyStep(c: Config, nodes: seq<MDPNode>, W: seq<real>): (r: seq<real>)
    ensures |r| == |nodes|
  {
    seq(|nodes|, i requires 0 <= i < |nodes| => GreedyBackup(c, nodes[i], W))
  }

  ghost function GreedyBackup(c: Config, n: MDPNode, W: seq<real>): real {
    if !n.isTerminal && exists a: nat :: IsGreedy(n, W, a) then
      var a: nat :| IsGreedy(n, W, a);
      Backup(c, n.Q[a], W)
    else 0.0
  }

  ghost predicate IsGreedy(n: MDPNode, W: seq<real>, a: nat) {
    IsMaxUBAction(n.Q, a) && Within(n.Q[a].outcomes, |W|)
  }

  /** The value of `k` greedy steps, after which the values `T` are collected. */
  ghost function GreedySteps(c: Config, nodes: seq<MDPNode>, T: seq<real>, k: nat): (r: seq<real>)
    ensures |r| == if k == 0 then |T| else |nodes|
  {
    if k == 0 then T else GreedyStep(c, nodes, GreedySteps(c, nodes, T, k - 1))
  }

  /** An error `eps` at every one of `k` steps, and `B` at the end, all discounted. */
  ghost function Slack(discount: real, eps: real, B: real, k: nat): real {
    if k == 0 then B else eps + Times(discount, Slack(discount, eps, B, k - 1))
  }

  /** The errors add up to at most `limit`, which is `eps / (1 - discount)`, and the last one fades away. */
  lemma {:induction false} SlackBound(discount: real, eps: real, B: real, k: nat, limit: real)
    requires 0.0 <= discount && 0.0 <= limit && eps + Times(discount, limit) == limit
    ensures Slack(discount, eps, B, k) <= limit + Times(Power(discount, k), B)
  {
    hide Times;
    if k == 0 {
      TimesIs(1.0, B);
    } else {
      var rest := Times(Power(discount, k - 1), B);
      SlackBound(discount, eps, B, k - 1, limit);
      TimesMono(discount, Slack(discount, eps, B, k - 1), limit + rest);
      TimesPlus(discount, limit, rest);
      TimesAssoc(discount, Power(discount, k - 1), B);
    }
  }

  lemma LimitIs(discount: real, eps: real, limit: real)
    requires 0.0 <= discount < 1.0 && 0.0 <= eps && limit == eps / (1.0 - discount)
    ensures limit >= 0.0 && eps + Times(discount, limit) == limit
  {
    var h := 1.0 - discount;
    assert limit * h == eps && limit * h == limit - discount * limit;
    CancelFactor(0.0, limit, h);
  }

  lemma {:induction false} SlackNonNegative(discount: real, eps: real, B: real, k: nat)
    requires 0.0 <= discount && 0.0 <= eps && 0.0 <= B
    ensures 0.0 <= Slack(discount, eps, B, k)
  {
    if k > 0 {
      SlackNonNegative(discount, eps, B, k - 1);
      ProductNonNegative(discount, Slack(discount, eps, B, k - 1));
    }
  }

  /** The values collected at the end are within `B` of the bounds on the optimal value. */
  ghost predicate EndsNear(V: State -> real, nodes: seq<MDPNode>, solved: set<NodeId>, T: seq<real>, B: real) {
    && 0.0 <= B && |T| == |nodes|
    && forall j | j in solved && j < |nodes| :: nodes[j].ubVal - B <= T[j] <= V(nodes[j].s) + B
  }

  lemma GreedyBackupIs(c: Config, n: MDPNode, W: seq<real>, a: nat)
    requires !n.isTerminal && IsMaxUBAction(n.Q, a) && Within(n.Q[a].outcomes, |W|)
    ensures GreedyBackup(c, n, W) == Backup(c, n.Q[a], W)
  {
    assert IsGreedy(n, W, a);
    assert forall b: nat | IsGreedy(n, W, b) :: b == a;
  }

  lemma StepBelowUpper(c: Config, nodes: seq<MDPNode>, solved: set<NodeId>, eps: real, W: seq<real>, m: NodeId, d: real)
    requires GraphOk(c, nodes) && GraphReady(nodes) && Labelled(c, nodes, solved, eps)
    requires |W| == |nodes| && 0.0 <= eps && 0.0 <= d && m in solved
    requires forall j | j in solved && j < |nodes| :: nodes[j].ubVal <= W[j] + d
    ensures m < |nodes| && nodes[m].ubVal - GreedyStep(c, nodes, W)[m] <= eps + Times(c.problem.discount, d)
  {
    assert LabelOk(c, nodes, solved, m, eps) && 0.0 <= c.problem.discount;
    if nodes[m].isTerminal {
      hide GraphOk, GraphReady, Labelled;
      ProductNonNegative(c.problem.discount, d);
    } else {
      hide GraphOk, GraphReady, Labelled, LabelOk, Backup, Exp, GreedyBackup, IsMaxUBAction, Times;
      var a := GreedyAction(c, nodes, solved, eps, m);
      GapContracts(c, nodes, m, a, UbVals(nodes), W, solved, d);
      GreedyBackupIs(c, nodes[m], W, a);
    }
  }

  lemma StepAboveOptimal(c: Config, V: State -> real, nodes: seq<MDPNode>, solved: set<NodeId>, eps: real, W: seq<real>,
                         m: NodeId, d: real)
    requires GraphOk(c, nodes) && GraphReady(nodes) && Labelled(c, nodes, solved, eps)
    requires |W| == |nodes| && BellmanOptimal(c.problem, V) && m in solved && 0.0 <= d
    requires forall j | j in solved && j < |nodes| :: W[j] <= V(nodes[j].s) + d
    ensures m < |nodes| && GreedyStep(c, nodes, W)[m] - V(nodes[m].s) <= Times(c.problem.discount, d)
  {
    assert LabelOk(c, nodes, solved, m, eps) && 0.0 <= c.problem.discount;
    if nodes[m].isTerminal {
      assert NodeOk(c.problem, nodes, nodes[m]);
      hide GraphOk, GraphReady, Labelled;
      ProductNonNegative(c.problem.discount, d);
    } else {
      var a := GreedyAction(c, nodes, solved, eps, m);
      hide Backup, Exp, GreedyBackup, Times, Labelled, LabelOk;
      var v := ValuesOf(V, nodes);
      BackupBelowOptimal(c, V, nodes, m, a, v);
      hide GraphOk, GraphReady, BellmanOptimal;
      GapContracts(c, nodes, m, a, W, v, solved, d);
      GreedyBackupIs(c, nodes[m], W, a);
    }
  }

  /** On the optimal values, no backup exceeds the optimal value. */
  lemma BackupBelowOptimal(c: Config, V: State -> real, nodes: seq<MDPNode>, m: NodeId, a: nat, v: seq<real>)
    requires GraphOk(c, nodes) && BellmanOptimal(c.problem, V) && m < |nodes| && a < |nodes[m].Q|
    requires !nodes[m].isTerminal && v == ValuesOf(V, nodes)
    ensures Within(nodes[m].Q[a].outcomes, |v|) && Backup(c, nodes[m].Q[a], v) <= V(nodes[m].s)
  {
    assert NodeOk(c.problem, nodes, nodes[m]);
    assert QOk(c.problem, nodes, nodes[m].s, a, nodes[m].Q[a]);
    hide Backup, Exp, Lookahead;
    BackupOfModel(c, nodes, nodes[m].s, a, nodes[m].Q[a], v, V);
    assert Lookahead(c.problem, V, nodes[m].s, a) <= V(nodes[m].s);
  }

  /** However many greedy steps are taken from a solved node, they are worth no more than optimal and, up to the
      slack, no less than the upper value. */
  lemma {:induction false} StepsNearOptimal(c: Config, V: State -> real, nodes: seq<MDPNode>, solved: set<NodeId>,
                                            eps: real, T: seq<real>, B: real, k: nat, i: NodeId)
    requires GraphOk(c, nodes) && GraphReady(nodes) && Labelled(c, nodes, solved, eps) && 0.0 <= eps
    requires BellmanOptimal(c.problem, V) && EndsNear(V, nodes, solved, T, B) && i in solved
    ensures i < |nodes| && |GreedySteps(c, nodes, T, k)| == |nodes|
    ensures nodes[i].ubVal - GreedySteps(c, nodes, T, k)[i] <= Slack(c.problem.discount, eps, B, k)
    ensures GreedySteps(c, nodes, T, k)[i] - V(nodes[i].s) <= Slack(c.problem.discount, 0.0, B, k)
    decreases k
  {
    hide Times, GreedyStep, GraphReady, BellmanOptimal, LabelOk;
    assert forall j | j in solved :: j < |nodes|;
    var g := c.problem.discount;
    assert 0.0 <= g && 0.0 <= B;
    if k == 0 {
      hide GraphOk;
    } else {
      var W, e, d := GreedySteps(c, nodes, T, k - 1), Slack(g, eps, B, k - 1), Slack(g, 0.0, B, k - 1);
      assert GreedySteps(c, nodes, T, k) == GreedyStep(c, nodes, W);
      assert Slack(g, eps, B, k) == eps + Times(g, e) && Slack(g, 0.0, B, k) == 0.0 + Times(g, d);
      assert |W| == |nodes|;
      hide *;
      forall j | j in solved && j < |nodes|
        ensures nodes[j].ubVal <= W[j] + e && W[j] <= V(nodes[j].s) + d
      {
        StepsNearOptimal(c, V, nodes, solved, eps, T, B, k - 1, j);
      }
      SlackNonNegative(g, eps, B, k - 1);
      SlackNonNegative(g, 0.0, B, k - 1);
      StepBelowUpper(c, nodes, solved, eps, W, i, e);
      StepAboveOptimal(c, V, nodes, solved, eps, W, i, d);
    }
  }

  /** Following the greedy policy from node `i` is within `eps / (1 - discount)` of optimal: in the limit, and after
      any number of steps up to what is left at the end. */
  ghost predicate NearOptimal(c: Config, V: State -> real, nodes: seq<MDPNode>, solved: set<NodeId>, eps: real,
                              i: NodeId) {
    && i < |nodes|
    && (forall W: seq<real> | c.problem.discount < 1.0 && GreedyValue(c, nodes, solved, W) ::
          V(nodes[i].s) - eps / (1.0 - c.problem.discount) <= W[i] <= V(nodes[i].s))
    && (forall T, B, k: nat | c.problem.discount < 1.0 && EndsNear(V, nodes, solved, T, B) ::
          StepsWithin(c, V, nodes, eps, T, B, k, i))
  }

  ghost predicate StepsWithin(c: Config, V: State -> real, nodes: seq<MDPNode>, eps: real, T: seq<real>, B: real,
                              k: nat, i: NodeId)
    requires c.problem.discount < 1.0
  {
    var W, rest := GreedySteps(c, nodes, T, k), Times(Power(c.problem.discount, k), B);
    && i < |W| && i < |nodes|
    && V(nodes[i].s) - eps / (1.0 - c.problem.discount) - rest <= W[i] <= V(nodes[i].s) + rest
  }

  lemma SolvedSteps(c: Config, V: State -> real, nodes: seq<MDPNode>, solved: set<NodeId>, eps: real, T: seq<real>,
                    B: real, k: nat, i: NodeId)
    requires GraphOk(c, nodes) && GraphReady(nodes) && Labelled(c, nodes, solved, eps) && 0.0 <= eps
    requires BellmanOptimal(c.problem, V) && Brackets(c, V, nodes) && i in solved
    requires c.problem.discount < 1.0 && EndsNear(V, nodes, solved, T, B)
    ensures StepsWithin(c, V, nodes, eps, T, B, k, i)
  {
    assert 0.0 <= c.problem.discount && i < |nodes|;
    assert NodeBrackets(c, V, nodes[i]) && V(nodes[i].s) <= nodes[i].ubVal && 0.0 <= B;
    hide GraphOk, GraphReady, Labelled, BellmanOptimal, Brackets, GreedySteps, Times, Slack, Power, EndsNear;
    StepsNearOptimal(c, V, nodes, solved, eps, T, B, k, i);
    var limit := eps / (1.0 - c.problem.discount);
    LimitIs(c.problem.discount, eps, limit);
    TimesIs(c.problem.discount, 0.0);
    SlackBound(c.problem.discount, eps, B, k, limit);
    SlackBound(c.problem.discount, 0.0, B, k, 0.0);
  }

  lemma NearOptimalIntro(c: Config, V: State -> real, nodes: seq<MDPNode>, solved: set<NodeId>, eps: real, i: NodeId)
    requires i < |nodes|
    requires forall W: seq<real> | c.problem.discount < 1.0 && GreedyValue(c, nodes, solved, W) ::
      |W| == |nodes| && V(nodes[i].s) - eps / (1.0 - c.problem.discount) <= W[i] <= V(nodes[i].s)
    requires forall T, B, k: nat | c.problem.discount < 1.0 && EndsNear(V, nodes, solved, T, B) ::
      StepsWithin(c, V, nodes, eps, T, B, k, i)
    ensures NearOptimal(c, V, nodes, solved, eps, i)
  {
    hide StepsWithin, EndsNear;
  }

  lemma SolvedNearOptimal(c: Config, V: State -> real, nodes: seq<MDPNode>, solved: set<NodeId>, eps: real, i: NodeId)
    requires GraphOk(c, nodes) && GraphReady(nodes) && Labelled(c, nodes, solved, eps) && 0.0 <= eps
    requires BellmanOptimal(c.problem, V) && Brackets(c, V, nodes) && i in solved
    ensures NearOptimal(c, V, nodes, solved, eps, i)
  {
    assert i < |nodes|;
    hide *;
    forall W: seq<real> | c.problem.discount < 1.0 && GreedyValue(c, nodes, solved, W)
      ensures |W| == |nodes|
      ensures V(nodes[i].s) - eps / (1.0 - c.problem.discount) <= W[i] <= V(nodes[i].s)
    {
      SolvedIsNearOptimal(c, V, nodes, solved, eps, W, i);
    }
    forall T, B, k: nat | c.problem.discount < 1.0 && EndsNear(V, nodes, solved, T, B)
      ensures StepsWithin(c, V, nodes, eps, T, B, k, i)
    {
      SolvedSteps(c, V, nodes, solved, eps, T, B, k, i);
    }
    NearOptimalIntro(c, V, nodes, solved, eps, i);
  }
}
