/** The HDP search: depth-first trials that label strongly connected components of the greedy graph as solved. */
module HdpSearch {
  import opened Wrappers
  import opened RealArith
  import opened Mdp
  import opened BoundPairs
  import opened BoundTheory
  import opened Labels
  import opened Trails
  import opened Evolution
  import opened PointerLists
  import opened RtdpCore

  const IDX_PLUS_INFINITY: int := 0x7fff_ffff

  datatype HdpData = HdpData(isSolved: bool, low: int, idx: int)

  /** The whole state of a trial in progress. */
  datatype Snap = Snap(nodes: seq<MDPNode>, data: seq<HdpData>, stack: seq<NodeId>, visited: seq<NodeId>)

  ghost function Solved(data: seq<HdpData>): (r: set<NodeId>)
    ensures forall i: nat | i < |data| && data[i].isSolved :: i in r
    ensures forall i | i in r :: i < |data| && data[i].isSolved
  {
    set i: nat | i < |data| && data[i].isSolved
  }

  /** Solved nodes, and nodes on the stack whose index is at least `l`. */
  ghost function Reach(s: Snap, l: int): (r: set<NodeId>)
    ensures Solved(s.data) <= r
    ensures forall k | k in s.stack && k < |s.data| && s.data[k].idx >= l :: k in r
    ensures forall k | k in r :: k < |s.data| && (s.data[k].isSolved || (k in s.stack && s.data[k].idx >= l))
  {
    Solved(s.data) + set k | k in s.stack && k < |s.data| && s.data[k].idx >= l
  }

  /** The bookkeeping of a trial in progress; visits are numbered from 0.
      `low` values may be left over from earlier trials. */
  ghost predicate Marks(s: Snap) {
    && |s.data| == |s.nodes|
    && (forall i | 0 <= i < |s.data| :: 0 <= s.data[i].low && (s.nodes[i].isTerminal ==> s.data[i].isSolved))
    && (forall i | 0 <= i < |s.data| :: s.data[i].idx == IDX_PLUS_INFINITY || 0 <= s.data[i].idx < |s.visited|)
    && (forall i | 0 <= i < |s.data| :: s.data[i].idx != IDX_PLUS_INFINITY <==> i in s.visited)
    && (forall p | 0 <= p < |s.visited| :: s.visited[p] < |s.data|)
    && Distinct(s.visited)
    && Distinct(s.stack)
    && (forall p | 0 <= p < |s.stack| :: s.stack[p] in s.visited && !s.data[s.stack[p]].isSolved)
    && (forall p, r | 0 <= p < r < |s.stack| :: s.data[s.stack[p]].idx < s.data[s.stack[r]].idx)
    && (forall k | k in s.visited :: k in s.stack || s.data[k].isSolved)
  }

  /** What a trial leaves alone: solved nodes stay solved and frozen, and nodes that were already
      visited keep their node data, their index and their place on the stack. */
  ghost predicate Leaves(s: Snap, t: Snap) {
    && |s.data| == |s.nodes|
    && |t.data| == |t.nodes|
    && KeepsKeys(s.nodes, t.nodes)
    && s.stack <= t.stack
    && s.visited <= t.visited
    && (forall i | 0 <= i < |s.nodes| && s.data[i].isSolved :: t.data[i].isSolved && t.nodes[i] == s.nodes[i])
    && (forall i | 0 <= i < |s.nodes| && s.data[i].idx != IDX_PLUS_INFINITY ::
          t.nodes[i] == s.nodes[i] && t.data[i].idx == s.data[i].idx)
  }

  /** The `low` values of the nodes that were already visited are unchanged, except perhaps that of `cn`. */
  ghost predicate LowsKeptBut(s: Snap, t: Snap, cn: NodeId) {
    forall i | 0 <= i < |s.data| && i < |t.data| && s.data[i].idx != IDX_PLUS_INFINITY && i != cn ::
      t.data[i].low == s.data[i].low
  }

  /** Every node on the stack from position `from` on has an up-to-date greedy action with a small residual
      that leads to solved nodes or to nodes on the stack of index at least `l`. */
  ghost predicate Processed(c: Config, eps: real, s: Snap, from: nat, l: int) {
    forall p | from <= p < |s.stack| ::
      && s.stack[p] < |s.nodes|
      && !s.nodes[s.stack[p]].isTerminal
      && LabelOk(c, s.nodes, Reach(s, l), s.stack[p], eps)
  }

  /** The outcome of an unflagged visit of `cn`: it was solved, or it is on the stack with its component. */
  ghost predicate Settled(c: Config, eps: real, s: Snap, t: Snap, cn: NodeId) {
    && cn < |t.data|
    && if t.data[cn].isSolved then t.stack == s.stack
       else
         && |s.stack| < |t.stack| && t.stack[|s.stack|] == cn
         && t.data[cn].idx == |s.visited| && t.data[cn].low < t.data[cn].idx
         && Processed(c, eps, t, |s.stack|, t.data[cn].low)
  }

  /** `t` is `s` after a backup of the unvisited, unsolved node `k`, and perhaps a change of its upper value. */
  ghost predicate NodeStep(c: Config, s: Snap, k: NodeId, t: Snap) {
    && |s.data| == |s.nodes| && OneChanged(c, s.nodes, k, t.nodes)
    && |t.data| == |t.nodes| && s.data <= t.data
    && (forall i | |s.nodes| <= i < |t.nodes| ::
          t.data[i] == HdpData(t.nodes[i].isTerminal, IDX_PLUS_INFINITY, IDX_PLUS_INFINITY))
    && t.stack == s.stack && t.visited == s.visited
  }

  lemma BackupIsStep(c: Config, s: Snap, k: NodeId, t: Snap, a: nat)
    requires UpdateStep(c, s.nodes, k, t.nodes, a) && |s.data| == |s.nodes|
    requires |t.data| == |t.nodes| && s.data <= t.data && t.stack == s.stack && t.visited == s.visited
    requires forall i | |s.data| <= i < |t.data| ::
      t.data[i] == HdpData(t.nodes[i].isTerminal, IDX_PLUS_INFINITY, IDX_PLUS_INFINITY)
    ensures NodeStep(c, s, k, t)
  {
  }

  lemma NodeStepKeeps(c: Config, eps: real, s: Snap, k: NodeId, t: Snap)
    requires NodeStep(c, s, k, t) && Marks(s) && Labelled(c, s.nodes, Solved(s.data), eps)
    requires !s.data[k].isSolved && GraphOk(c, t.nodes)
    ensures Marks(t) && Labelled(c, t.nodes, Solved(t.data), eps)
    ensures s.data[k].idx == IDX_PLUS_INFINITY ==> Leaves(s, t)
    ensures forall i :: LowsKeptBut(s, t, i)
  {
    LabelsKept(c, s.nodes, t.nodes, Solved(s.data), eps);
    forall i | i in Solved(t.data)
      ensures i < |t.nodes| && LabelOk(c, t.nodes, Solved(t.data), i, eps)
    {
      if i < |s.data| {
        assert i in Solved(s.data);
        LabelKept(c, t.nodes, t.nodes, Solved(s.data), Solved(t.data), i, eps);
      } else {
        assert t.nodes[i] == FreshNode(c, t.nodes[i].s);
      }
    }
  }

  /** A backup whose change of the upper value is undone leaves the Q value of the greedy action up to date. */
  lemma CacheQStep(c: Config, s: Snap, k: NodeId, mid: Snap, t: Snap, a: nat)
    requires NodeStep(c, s, k, mid) && UpdateStep(c, s.nodes, k, mid.nodes, a)
    requires t == mid.(nodes := mid.nodes[k := mid.nodes[k].(ubVal := s.nodes[k].ubVal)])
    ensures NodeStep(c, s, k, t) && SameUb(s.nodes, t.nodes)
    ensures t.nodes[k].Q != []
    ensures forall b: nat | IsMaxUBAction(t.nodes[k].Q, b) :: FreshUb(c, t.nodes[k].Q[b], UbVals(t.nodes))
  {
    CacheQChanges(c, s.nodes, k, mid.nodes, t.nodes, a);
  }

  /** Marking a node as active. */
  ghost function Marked(s: Snap, k: NodeId): Snap
    requires k < |s.data|
  {
    s.(data := s.data[k := s.data[k].(low := |s.visited|, idx := |s.visited|)],
       stack := s.stack + [k], visited := s.visited + [k])
  }

  lemma MarkedKeeps(c: Config, eps: real, s: Snap, k: NodeId)
    requires Marks(s) && Labelled(c, s.nodes, Solved(s.data), eps) && |s.visited| < IDX_PLUS_INFINITY
    requires k < |s.data| && !s.data[k].isSolved && s.data[k].idx == IDX_PLUS_INFINITY
    ensures Marks(Marked(s, k)) && Labelled(c, s.nodes, Solved(Marked(s, k).data), eps)
    ensures Leaves(s, Marked(s, k)) && forall i :: LowsKeptBut(s, Marked(s, k), i)
  {
    assert Solved(Marked(s, k).data) == Solved(s.data);
  }

  lemma LeavesTrans(s: Snap, t: Snap, u: Snap)
    requires Leaves(s, t) && Leaves(t, u)
    ensures Leaves(s, u)
  {
  }

  /** Lowering `low` of the node being visited. */
  ghost function Lowered(s: Snap, k: NodeId, l: int): Snap
    requires k < |s.data|
  {
    s.(data := s.data[k := s.data[k].(low := l)])
  }

  lemma LoweredKeeps(c: Config, eps: real, s: Snap, k: NodeId, l: int)
    requires Marks(s) && Labelled(c, s.nodes, Solved(s.data), eps) && k < |s.data| && 0 <= l
    ensures var t := Lowered(s, k, l);
      Marks(t) && Labelled(c, t.nodes, Solved(t.data), eps) && Leaves(s, t) && LowsKeptBut(s, t, k)
  {
    assert Solved(Lowered(s, k, l).data) == Solved(s.data);
  }

  /** Reach only grows when a trial goes on and `low` falls. */
  lemma ReachGrows(s: Snap, t: Snap, l: int, l': int)
    requires Marks(s) && Marks(t) && Leaves(s, t) && l' <= l
    ensures Reach(s, l) <= Reach(t, l')
  {
    forall k | k in Reach(s, l)
      ensures k in Reach(t, l')
    {
      if !s.data[k].isSolved {
        assert k in s.stack;
        assert k in t.stack;
        assert k in s.visited;
      }
    }
  }

  /** What was processed stays processed while no upper value changes. */
  lemma ProcessedKept(c: Config, eps: real, s: Snap, t: Snap, from: nat, l: int, l': int)
    requires Marks(s) && Marks(t) && Leaves(s, t) && SameUb(s.nodes, t.nodes) && l' <= l
    requires Processed(c, eps, s, from, l)
    requires Processed(c, eps, t, |s.stack|, l')
    ensures Processed(c, eps, t, from, l')
  {
    ReachGrows(s, t, l, l');
    forall p | from <= p < |s.stack|
      ensures t.stack[p] < |t.nodes| && !t.nodes[t.stack[p]].isTerminal
      ensures LabelOk(c, t.nodes, Reach(t, l'), t.stack[p], eps)
    {
      var k := s.stack[p];
      assert t.stack[p] == k && k in s.visited && s.data[k].idx != IDX_PLUS_INFINITY;
      LabelKept(c, s.nodes, t.nodes, Reach(s, l), Reach(t, l'), k, eps);
    }
  }

  lemma StillActive(s: Snap, t: Snap, cn: NodeId)
    requires Marks(s) && Marks(t) && OutcomeStep(s, t, cn) && cn in s.stack
    ensures cn in t.stack && cn < |t.data| && |s.data| <= |t.data| && |s.visited| <= |t.visited|
  {
  }

  /** Overwriting the upper value of an unvisited, unsolved node after its backup. */
  lemma UbSet(c: Config, eps: real, s: Snap, t: Snap, k: NodeId, val: real)
    requires Marks(t) && Labelled(c, t.nodes, Solved(t.data), eps) && GraphOk(c, t.nodes)
    requires k < |s.data| && !s.data[k].isSolved && s.data[k].idx == IDX_PLUS_INFINITY
    requires NodeStep(c, s, k, t) && Marks(s) && Leaves(s, t)
    requires GraphOk(c, t.nodes[k := t.nodes[k].(ubVal := val)])
    ensures var u := t.(nodes := t.nodes[k := t.nodes[k].(ubVal := val)]);
      Marks(u) && Labelled(c, u.nodes, Solved(u.data), eps) && Leaves(s, u) && LowsKeptBut(s, u, k)
  {
    var u := t.(nodes := t.nodes[k := t.nodes[k].(ubVal := val)]);
    assert NodeStep(c, t, k, u);
    NodeStepKeeps(c, eps, t, k, u);
    LeavesTrans(s, t, u);
  }

  /** A visit of a solved node changes nothing. */
  lemma SolvedSettled(c: Config, eps: real, s: Snap, cn: NodeId)
    requires Marks(s) && cn < |s.data| && s.data[cn].isSolved
    ensures Leaves(s, s) && LowsKeptBut(s, s, cn) && SameUb(s.nodes, s.nodes) && Settled(c, eps, s, s, cn)
  {
  }

  // ---------- One successor of an active node ----------

  /** The successor `sn` of the active node `cn` is accounted for: it is solved, or it is on the stack
      and its index is within `low` of `cn`; and so is everything that its visit put on the stack. */
  ghost predicate Accounted(c: Config, eps: real, s: Snap, t: Snap, cn: NodeId, sn: NodeId) {
    && cn < |t.data|
    && SameUb(s.nodes, t.nodes)
    && sn in Reach(t, t.data[cn].low)
    && Processed(c, eps, t, |s.stack|, t.data[cn].low)
  }

  /** What visiting a successor of `cn` leaves alone. */
  ghost predicate OutcomeStep(s: Snap, t: Snap, cn: NodeId) {
    && Leaves(s, t)
    && LowsKeptBut(s, t, cn)
    && cn < |s.data|
    && t.data[cn].low <= s.data[cn].low
  }

  function MinInt(x: int, y: int): int { if y < x then y else x }

  lemma RecursedOutcome(c: Config, eps: real, s: Snap, t: Snap, cn: NodeId, sn: NodeId, flag: bool)
    requires Marks(s) && Marks(t) && Labelled(c, t.nodes, Solved(t.data), eps)
    requires cn in s.stack && sn < |s.data| && cn < |s.data|
    requires Leaves(s, t) && LowsKeptBut(s, t, sn) && s.data[sn].idx == IDX_PLUS_INFINITY
    requires !flag ==> SameUb(s.nodes, t.nodes) && Settled(c, eps, s, t, sn)
    ensures cn < |t.data| && sn < |t.data|
    ensures var u := Lowered(t, cn, MinInt(t.data[cn].low, t.data[sn].low));
      && Marks(u) && Labelled(c, u.nodes, Solved(u.data), eps)
      && OutcomeStep(s, u, cn)
      && (!flag ==> Accounted(c, eps, s, u, cn, sn))
  {
    assert cn in s.visited;
    var l := MinInt(t.data[cn].low, t.data[sn].low);
    var u := Lowered(t, cn, l);
    LoweredKeeps(c, eps, t, cn, l);
    LeavesTrans(s, t, u);
    if !flag {
      if t.data[sn].isSolved {
        assert sn in Solved(u.data);
      } else {
        assert t.stack[|s.stack|] == sn;
        ProcessedKept(c, eps, t, u, |s.stack|, t.data[sn].low, l);
      }
    }
  }

  /** A successor that was already visited. */
  lemma VisitedOutcome(c: Config, eps: real, s: Snap, cn: NodeId, sn: NodeId)
    requires Marks(s) && Labelled(c, s.nodes, Solved(s.data), eps)
    requires cn < |s.data| && sn < |s.data| && s.data[sn].idx != IDX_PLUS_INFINITY
    ensures var u := if sn in s.stack then Lowered(s, cn, MinInt(s.data[cn].low, s.data[sn].idx)) else s;
      && Marks(u) && Labelled(c, u.nodes, Solved(u.data), eps)
      && OutcomeStep(s, u, cn) && Accounted(c, eps, s, u, cn, sn)
  {
    if sn in s.stack {
      LoweredKeeps(c, eps, s, cn, MinInt(s.data[cn].low, s.data[sn].idx));
    } else {
      assert sn in s.visited;
    }
  }

  /** The first `n` successors of `cn` are accounted for. */
  ghost predicate AllAccounted(c: Config, eps: real, s: Snap, t: Snap, cn: NodeId, es: seq<Option<Edge>>, n: nat) {
    && cn < |t.data|
    && SameUb(s.nodes, t.nodes)
    && Processed(c, eps, t, |s.stack|, t.data[cn].low)
    && forall o | 0 <= o < n && o < |es| && es[o].Some? :: es[o].value.nextState in Reach(t, t.data[cn].low)
  }

  lemma NoneAccounted(c: Config, eps: real, s: Snap, cn: NodeId, es: seq<Option<Edge>>)
    requires Marks(s) && cn < |s.data|
    ensures OutcomeStep(s, s, cn) && AllAccounted(c, eps, s, s, cn, es, 0)
  {
  }

  lemma OutcomeStepTrans(s0: Snap, s: Snap, t: Snap, cn: NodeId)
    requires Marks(s0) && cn in s0.stack && OutcomeStep(s0, s, cn) && OutcomeStep(s, t, cn)
    ensures OutcomeStep(s0, t, cn)
  {
    LeavesTrans(s0, s, t);
  }

  /** Accounting for one more successor keeps the earlier ones accounted for. */
  lemma OneMoreAccounted(c: Config, eps: real, s0: Snap, s: Snap, t: Snap, cn: NodeId, es: seq<Option<Edge>>, o: nat)
    requires Marks(s0) && Marks(s) && Marks(t) && cn in s0.stack && o < |es|
    requires OutcomeStep(s0, s, cn)
    requires AllAccounted(c, eps, s0, s, cn, es, o)
    requires if es[o].Some? then OutcomeStep(s, t, cn) && Accounted(c, eps, s, t, cn, es[o].value.nextState) else t == s
    ensures AllAccounted(c, eps, s0, t, cn, es, o + 1)
  {
    if es[o].Some? {
      ReachGrows(s, t, s.data[cn].low, t.data[cn].low);
      ProcessedKept(c, eps, s, t, |s0.stack|, s.data[cn].low, t.data[cn].low);
    }
  }

  /** A node whose successors are all accounted for is settled, together with everything above it. */
  lemma ActiveSettled(c: Config, eps: real, s: Snap, s1: Snap, t: Snap, cn: NodeId, a: nat)
    requires Marks(s) && Marks(s1) && Marks(t)
    requires cn < |s1.data| && !s1.data[cn].isSolved && s1.data[cn].low == s1.data[cn].idx == |s.visited|
    requires s1.stack == s.stack + [cn] && OutcomeStep(s1, t, cn)
    requires IsMaxUBAction(s1.nodes[cn].Q, a) && FreshUb(c, s1.nodes[cn].Q[a], UbVals(s1.nodes))
    requires Abs(s1.nodes[cn].ubVal - s1.nodes[cn].Q[a].ubVal.value) <= eps
    requires AllAccounted(c, eps, s1, t, cn, s1.nodes[cn].Q[a].outcomes, |s1.nodes[cn].Q[a].outcomes|)
    ensures cn < |t.data| && !t.data[cn].isSolved && SameUb(s1.nodes, t.nodes)
    ensures t.data[cn].low <= t.data[cn].idx && (t.data[cn].low != t.data[cn].idx ==> Settled(c, eps, s, t, cn))
    ensures |s.stack| < |t.stack| && t.stack[|s.stack|] == cn && Processed(c, eps, t, |s.stack|, t.data[cn].low)
  {
    assert s1.stack[|s.stack|] == cn && cn in s1.visited;
    assert t.stack[|s.stack|] == cn;
    ActiveLabelled(c, eps, s1, t, cn, a);
    hide AllAccounted, LabelOk, FreshUb, IsMaxUBAction;
  }

  /** The active node keeps its greedy action, whose outcomes are all accounted for. */
  lemma ActiveLabelled(c: Config, eps: real, s1: Snap, t: Snap, cn: NodeId, a: nat)
    requires Marks(s1) && Marks(t) && cn < |s1.data| && !s1.data[cn].isSolved && OutcomeStep(s1, t, cn)
    requires cn in s1.stack && s1.data[cn].low == s1.data[cn].idx
    requires IsMaxUBAction(s1.nodes[cn].Q, a) && FreshUb(c, s1.nodes[cn].Q[a], UbVals(s1.nodes))
    requires Abs(s1.nodes[cn].ubVal - s1.nodes[cn].Q[a].ubVal.value) <= eps
    requires AllAccounted(c, eps, s1, t, cn, s1.nodes[cn].Q[a].outcomes, |s1.nodes[cn].Q[a].outcomes|)
    ensures cn < |t.data| == |t.nodes| && LabelOk(c, t.nodes, Reach(t, t.data[cn].low), cn, eps)
  {
    var q := s1.nodes[cn].Q[a];
    assert t.nodes[cn] == s1.nodes[cn];
    BackupAgrees(c, q, UbVals(s1.nodes), UbVals(t.nodes));
    forall b: nat | IsMaxUBAction(t.nodes[cn].Q, b)
      ensures GreedyOk(c, t.nodes, Reach(t, t.data[cn].low), cn, b, eps)
    {
      assert b == a;
    }
  }

  /** From the start `s` of a visit, over the backup `t` and the marking, to the end `u` of the outcomes. */
  lemma ActiveLeaves(s: Snap, t: Snap, u: Snap, cn: NodeId)
    requires Marks(s) && Marks(t) && Marks(u) && cn < |s.data| && s.data[cn].idx == IDX_PLUS_INFINITY
    requires Leaves(s, t) && cn < |t.data| && OutcomeStep(Marked(t, cn), u, cn) && Marks(Marked(t, cn))
    requires forall i :: LowsKeptBut(s, t, i)
    requires Leaves(t, Marked(t, cn)) && t.stack == s.stack
    ensures Leaves(s, u) && LowsKeptBut(s, u, cn)
    ensures cn in u.stack && cn < |u.data| && !u.data[cn].isSolved && u.data[cn].idx != IDX_PLUS_INFINITY
    ensures |s.stack| < |u.stack| && u.stack[|s.stack|] == cn
    ensures SameUb(s.nodes, t.nodes) && SameUb(t.nodes, u.nodes) ==> SameUb(s.nodes, u.nodes)
  {
    var m := Marked(t, cn);
    LeavesTrans(s, t, m);
    LeavesTrans(s, m, u);
    assert m.stack[|t.stack|] == cn && cn in m.visited;
    assert LowsKeptBut(s, t, cn);
    LowsKeptTrans(s, t, u, cn);
  }

  lemma LowsKeptTrans(s: Snap, t: Snap, u: Snap, cn: NodeId)
    requires Leaves(s, t) && LowsKeptBut(s, t, cn) && cn < |t.data| && LowsKeptBut(Marked(t, cn), u, cn)
    ensures LowsKeptBut(s, u, cn)
  {
  }

  /** The backup that ends a flagged visit. */
  lemma FlaggedLeaves(c: Config, s: Snap, u: Snap, v: Snap, cn: NodeId)
    requires Marks(s) && cn < |s.data| && s.data[cn].idx == IDX_PLUS_INFINITY && !s.data[cn].isSolved
    requires Leaves(s, u) && LowsKeptBut(s, u, cn) && NodeStep(c, u, cn, v)
    ensures Leaves(s, v) && LowsKeptBut(s, v, cn)
  {
  }

  /** The labelling that ends a visit with `low == idx`. */
  lemma PoppedLeaves(c: Config, eps: real, s: Snap, u: Snap, v: Snap, cn: NodeId)
    requires Marks(s) && Leaves(s, u) && LowsKeptBut(s, u, cn) && PoppedTo(u, |s.stack|, v)
    requires cn < |v.data| && v.data[cn].isSolved
    requires SameUb(s.nodes, u.nodes)
    ensures Leaves(s, v) && LowsKeptBut(s, v, cn) && SameUb(s.nodes, v.nodes) && Settled(c, eps, s, v, cn)
  {
  }

  /** `t` is `s` with everything above the first `n` stack entries popped and labelled. */
  ghost predicate PoppedTo(s: Snap, n: nat, t: Snap) {
    && n <= |s.stack|
    && t.nodes == s.nodes && t.visited == s.visited && t.stack == s.stack[..n]
    && |t.data| == |s.data|
    && forall i | 0 <= i < |s.data| ::
         t.data[i] == if i in s.stack[n..] then s.data[i].(isSolved := true) else s.data[i]
  }

  /** The segment above a node with `low == idx` is closed: its successors are solved or in the segment. */
  lemma SegmentClosed(s: Snap, n: nat, t: Snap, k: NodeId)
    requires Marks(s) && n < |s.stack| && PoppedTo(s, n, t)
    requires k in Reach(s, s.data[s.stack[n]].idx)
    ensures k in Solved(t.data)
  {
    if !s.data[k].isSolved {
      var p :| 0 <= p < |s.stack| && s.stack[p] == k;
      assert p >= n;
      assert s.stack[n..][p - n] == k;
    }
  }

  /** So labelling it keeps every label sound. */
  lemma PopKeeps(c: Config, eps: real, s: Snap, n: nat, t: Snap)
    requires Marks(s) && Labelled(c, s.nodes, Solved(s.data), eps)
    requires n < |s.stack| && PoppedTo(s, n, t)
    requires Processed(c, eps, s, n, s.data[s.stack[n]].idx)
    ensures Marks(t) && Labelled(c, t.nodes, Solved(t.data), eps)
  {
    PopKeepsMarks(s, n, t);
    assert |s.data| == |s.nodes|;
    assert forall p | 0 <= p < |s.stack| :: s.stack[p] < |s.data|;
    hide Marks, LabelOk;
    var reach := Reach(s, s.data[s.stack[n]].idx);
    forall k | k in reach
      ensures k in Solved(t.data)
    {
      SegmentClosed(s, n, t, k);
    }
    forall i | i in Solved(t.data)
      ensures i < |t.nodes| && LabelOk(c, t.nodes, Solved(t.data), i, eps)
    {
      if s.data[i].isSolved {
        LabelKept(c, s.nodes, t.nodes, Solved(s.data), Solved(t.data), i, eps);
      } else {
        var p :| n <= p < |s.stack| && s.stack[p] == i;
        LabelKept(c, s.nodes, t.nodes, reach, Solved(t.data), i, eps);
      }
    }
  }

  lemma PopNone(s: Snap)
    ensures PoppedTo(s, |s.stack|, s)
  {
    assert s.stack[|s.stack|..] == [];
  }

  lemma PopOne(s: Snap, m: nat, t: Snap)
    requires Marks(s) && 0 < m == |t.stack| && PoppedTo(s, m, t)
    ensures |t.stack| == m && t.stack[m - 1] < |t.data|
    ensures var k := t.stack[m - 1];
      PoppedTo(s, m - 1, t.(stack := t.stack[..m - 1], data := t.data[k := t.data[k].(isSolved := true)]))
  {
    var k := s.stack[m - 1];
    assert s.stack[m - 1..] == [k] + s.stack[m..];
  }

  lemma PopKeepsMarks(s: Snap, n: nat, t: Snap)
    requires Marks(s) && n < |s.stack| && PoppedTo(s, n, t)
    ensures Marks(t)
  {
    assert forall k | k in s.stack :: k in s.stack[..n] || k in s.stack[n..];
    forall p | 0 <= p < |t.stack|
      ensures t.stack[p] in t.visited && !t.data[t.stack[p]].isSolved
    {
      assert t.stack[p] == s.stack[p];
      assert s.stack[p] !in s.stack[n..];
    }
    forall p, r | 0 <= p < r < |t.stack|
      ensures t.data[t.stack[p]].idx < t.data[t.stack[r]].idx
    {
      assert t.stack[p] == s.stack[p] && t.stack[r] == s.stack[r];
    }
  }

  /** There are at most as many visits in a trial as there are states. */
  lemma VisitsBounded(c: Config, lookup: map<State, NodeId>, s: Snap, k: NodeId)
    requires GraphOk(c, s.nodes) && LookupOk(s.nodes, lookup) && Marks(s)
    requires k < |s.nodes| && k !in s.visited
    ensures |s.visited| < |c.problem.states|
  {
    var v := s.visited + [k];
    DistinctSize(v);
    SubsetOfRange(Elements(v), |s.nodes|);
    var ids := Range(|s.nodes|);
    KeysBounded(c, s.nodes, lookup, |s.nodes|);
  }

  /** The root of an unflagged trial has no index below its own, so it was labelled. */
  lemma RootLabelled(c: Config, eps: real, s: Snap, t: Snap, cn: NodeId)
    requires Marks(t) && s.visited == [] && Settled(c, eps, s, t, cn)
    ensures t.data[cn].isSolved
  {
  }

  /** The index of every visited node is reset, and nothing is active. */
  ghost predicate ForgetsVisits(s: Snap, t: Snap) {
    && t.nodes == s.nodes && t.stack == [] && t.visited == [] && |t.data| == |s.data|
    && forall i | 0 <= i < |t.data| ::
         t.data[i] == if i in s.visited then s.data[i].(idx := IDX_PLUS_INFINITY) else s.data[i]
  }

  /** Forgetting the visits of a trial keeps every label; `low` values stay behind. */
  lemma TrialReset(c: Config, eps: real, s: Snap, t: Snap)
    requires Marks(s) && Labelled(c, s.nodes, Solved(s.data), eps)
    requires ForgetsVisits(s, t)
    ensures Marks(t) && Labelled(c, t.nodes, Solved(t.data), eps)
  {
    assert Solved(t.data) == Solved(s.data);
  }

  lemma FreshStart(c: Config, eps: real, s: Snap)
    requires NewNodesFresh(c, 0, s.nodes) && |s.data| == |s.nodes| && s.stack == [] && s.visited == []
    requires forall i | 0 <= i < |s.data| ::
      s.data[i] == HdpData(s.nodes[i].isTerminal, IDX_PLUS_INFINITY, IDX_PLUS_INFINITY)
    ensures Marks(s) && Labelled(c, s.nodes, Solved(s.data), eps)
  {
    forall i | i in Solved(s.data)
      ensures i < |s.nodes| && LabelOk(c, s.nodes, Solved(s.data), i, eps)
    {
      assert s.nodes[i] == FreshNode(c, s.nodes[i].s);
    }
  }

  lemma RootNearOptimal(c: Config, V: State -> real, s: Snap, eps: real, root: NodeId)
    requires GraphOk(c, s.nodes) && GraphReady(s.nodes) && Labelled(c, s.nodes, Solved(s.data), eps) && 0.0 <= eps
    requires BellmanOptimal(c.problem, V) && Brackets(c, V, s.nodes)
    requires root < |s.data| && s.data[root].isSolved && |s.data| == |s.nodes|
    ensures NearOptimal(c, V, s.nodes, Solved(s.data), eps, root)
  {
    SolvedNearOptimal(c, V, s.nodes, Solved(s.data), eps, root);
  }

  lemma EvolvesMore(c: Config, eps: real, g: Graph, h: Graph, k: Graph, d: bool, e: bool)
    requires Evolves(c, eps, g, h, d) && Evolves(c, eps, h, k, e)
    requires (d ==> Overwritten(c, eps, g, h)) && (e ==> Overwritten(c, eps, h, k))
    ensures Evolves(c, eps, g, k, d || e) && (d || e ==> Overwritten(c, eps, g, k))
  {
    hide *;
    EvolvesTrans(c, eps, g, h, k, d, e);
    EvolvesSearched(c, eps, g, h, d);
    EvolvesSearched(c, eps, h, k, e);
    OverwrittenBetween(c, eps, g, h, k, d, e);
  }

  // ---------- What a visit does ----------

  /** What the visit of a node did: nothing, as the node was solved; it let the node take its highest Q value; or it
      went through the outcomes of the greedy action `a`. `cached` is the state in which the Q values of the node are
      up to date, `last` the one after the last outcome. */
  datatype Visit =
    | Skipped
    | Took(cached: Snap, a: nat)
    | Through(cached: Snap, a: nat, kids: seq<Kid>, last: Snap)

  /** What was done about one outcome: the visit of its node, if it was visited, and the state it returned in. */
  datatype Kid = Kid(start: Snap, visit: Option<Visit>, returned: Snap, flag: bool, end: Snap)

  /** The Q values of node `k` are backed up, and its upper value is restored. */
  ghost predicate CachedAs(c: Config, s: Snap, k: NodeId, t: Snap) {
    && NodeStep(c, s, k, t)
    && exists mid: seq<MDPNode>, a: nat :: UpdateStep(c, s.nodes, k, mid, a) && k < |s.nodes| && k < |mid|
         && t.nodes == mid[k := mid[k].(ubVal := s.nodes[k].ubVal)]
  }

  ghost predicate BackedUpAs(c: Config, s: Snap, k: NodeId, t: Snap) {
    NodeStep(c, s, k, t) && exists a :: UpdateStep(c, s.nodes, k, t.nodes, a)
  }

  /** Action `a` has the highest Q value of node `k`, and whether that is more than `eps` away from the upper value. */
  ghost predicate GreedyAt(eps: real, s: Snap, k: NodeId, a: nat, large: bool) {
    && k < |s.nodes| && k < |s.data| && IsMaxUBAction(s.nodes[k].Q, a)
    && (large <==> Abs(s.nodes[k].ubVal - s.nodes[k].Q[a].ubVal.value) > eps)
  }

  /** Node `k` takes the Q value of action `a`. */
  ghost predicate TakesQ(s: Snap, k: NodeId, a: nat, t: Snap) {
    && k < |s.nodes| && a < |s.nodes[k].Q| && s.nodes[k].Q[a].ubVal.Some?
    && t == s.(nodes := s.nodes[k := s.nodes[k].(ubVal := s.nodes[k].Q[a].ubVal.value)])
  }

  /** The state after the first `n` outcomes. */
  ghost function After(s: Snap, kids: seq<Kid>, n: nat): Snap
    requires n <= |kids|
  {
    if n == 0 then s else kids[n - 1].end
  }

  /** The outcomes are dealt with one after the other, whether flags are raised or not. */
  ghost predicate Chained(s: Snap, kids: seq<Kid>, t: Snap, flag: bool) {
    && (forall o | 0 <= o < |kids| :: kids[o].start == After(s, kids, o))
    && t == After(s, kids, |kids|)
    && (flag <==> exists o :: 0 <= o < |kids| && kids[o].flag)
  }

  /** How a visit that went through the outcomes ends: flagged, with a backup of the node; unflagged, with the labelling
      of everything down to the node if its `low` is its own index, and otherwise with nothing. */
  ghost predicate Concludes(c: Config, n: nat, u: Snap, cn: NodeId, t: Snap, flag: bool) {
    && cn < |u.data|
    && if flag then BackedUpAs(c, u, cn, t)
       else if u.data[cn].idx == u.data[cn].low then PoppedTo(u, n, t)
       else t == u
  }

  /** The visit `v` of node `cn` leads from `s` to `t`. */
  ghost predicate IsVisit(c: Config, eps: real, s: Snap, cn: NodeId, v: Visit, t: Snap, flag: bool)
    decreases v
  {
    && cn < |s.data| && (s.data[cn].isSolved <==> v.Skipped?)
    && match v
       case Skipped => t == s && !flag
       case Took(m, a) => CachedAs(c, s, cn, m) && GreedyAt(eps, m, cn, a, true) && TakesQ(m, cn, a, t) && flag
       case Through(m, a, kids, u) =>
         && CachedAs(c, s, cn, m) && GreedyAt(eps, m, cn, a, false)
         && |kids| == |m.nodes[cn].Q[a].outcomes| && Chained(Marked(m, cn), kids, u, flag)
         && (forall o | 0 <= o < |kids| :: IsKid(c, eps, cn, m.nodes[cn].Q[a].outcomes[o], kids[o]))
         && Concludes(c, |s.stack|, u, cn, t, flag)
  }

  /** One outcome of the active node `cn`: a node not yet visited is visited, and then its `low` counts; a node on the
      stack counts with its index. */
  ghost predicate IsKid(c: Config, eps: real, cn: NodeId, e: Option<Edge>, kid: Kid)
    decreases kid
  {
    if e.None? then kid.visit.None? && !kid.flag && kid.end == kid.start
    else
      var sn := e.value.nextState;
      && cn < |kid.start.data| && sn < |kid.start.data|
      && if kid.start.data[sn].idx == IDX_PLUS_INFINITY then
           && kid.visit.Some? && IsVisit(c, eps, kid.start, sn, kid.visit.value, kid.returned, kid.flag)
           && cn < |kid.returned.data| && sn < |kid.returned.data|
           && kid.end == Lowered(kid.returned, cn, MinInt(kid.returned.data[cn].low, kid.returned.data[sn].low))
         else
           && kid.visit.None? && !kid.flag
           && kid.end == if sn in kid.start.stack
                         then Lowered(kid.start, cn, MinInt(kid.start.data[cn].low, kid.start.data[sn].idx))
                         else kid.start
  }

  lemma ChainedMore(s: Snap, kids: seq<Kid>, t: Snap, flag: bool, kid: Kid)
    requires Chained(s, kids, t, flag) && kid.start == t
    ensures Chained(s, kids + [kid], kid.end, flag || kid.flag)
  {
    var all := kids + [kid];
    assert all[|kids|] == kid;
    forall o | 0 <= o < |all|
      ensures all[o].start == After(s, all, o)
    {
      assert After(s, all, o) == After(s, kids, o);
      assert o < |kids| ==> all[o] == kids[o];
    }
    if o :| 0 <= o < |kids| && kids[o].flag {
      assert all[o].flag;
    }
  }

  /** One of the visits that led to a flag, with the states before and after it. */
  datatype Nested = Nested(cn: NodeId, start: Snap, visit: Visit, end: Snap)

  /** The inner visit is that of an outcome of the greedy action of the outer one, which ends with a backup. */
  ghost predicate Contains(c: Config, outer: Nested, inner: Nested) {
    && outer.visit.Through? && outer.cn < |outer.visit.cached.nodes|
    && outer.visit.a < |outer.visit.cached.nodes[outer.cn].Q|
    && BackedUpAs(c, outer.visit.last, outer.cn, outer.end)
    && exists o :: IsOutcome(outer.visit.cached.nodes[outer.cn].Q[outer.visit.a].outcomes, outer.visit.kids, o, inner)
  }

  ghost predicate IsOutcome(es: seq<Option<Edge>>, kids: seq<Kid>, o: nat, inner: Nested) {
    && o < |es| && o < |kids| && es[o].Some? && es[o].value.nextState == inner.cn
    && kids[o].start == inner.start && kids[o].visit == Some(inner.visit) && kids[o].returned == inner.end
  }

  /** The node of a visit was more than `eps` away from its highest Q value, and took that value itself. */
  ghost predicate TookIt(c: Config, eps: real, n: Nested) {
    && n.visit.Took? && CachedAs(c, n.start, n.cn, n.visit.cached)
    && GreedyAt(eps, n.visit.cached, n.cn, n.visit.a, true) && TakesQ(n.visit.cached, n.cn, n.visit.a, n.end)
  }

  /** The visit ended with a correction of its node: the node took its highest Q value, or it was backed up after the
      last outcome, as the last thing that the visit did. */
  ghost predicate Corrects(c: Config, eps: real, n: Nested) {
    TookIt(c, eps, n) || (n.visit.Through? && BackedUpAs(c, n.visit.last, n.cn, n.end))
  }

  lemma FlaggedCorrects(c: Config, eps: real, s: Snap, cn: NodeId, v: Visit, t: Snap, flag: bool)
    requires IsVisit(c, eps, s, cn, v, t, flag)
    ensures flag ==> Corrects(c, eps, Nested(cn, s, v, t))
  {
    hide CachedAs, BackedUpAs, GreedyAt, TakesQ, PoppedTo, Chained, IsKid;
  }

  ghost predicate LedToFlag(c: Config, eps: real, ns: seq<Nested>) {
    && ns != [] && TookIt(c, eps, ns[|ns| - 1])
    && forall i | 0 <= i < |ns| - 1 :: Contains(c, ns[i], ns[i + 1])
  }

  /** A flagged visit has a reason: greedy outcomes lead from its node to one that took its highest Q value, and the
      visit of every node before that one ends with a backup of the node, so the deepest is backed up first. */
  lemma {:induction false} FlagHasReason(c: Config, eps: real, s: Snap, cn: NodeId, v: Visit, t: Snap)
    returns (ns: seq<Nested>)
    requires IsVisit(c, eps, s, cn, v, t, true)
    ensures LedToFlag(c, eps, ns) && ns[0] == Nested(cn, s, v, t)
    decreases v
  {
    hide CachedAs, BackedUpAs, TakesQ, PoppedTo;
    var top := Nested(cn, s, v, t);
    ns := [top];
    if v.Through? {
      var kids, es := v.kids, v.cached.nodes[cn].Q[v.a].outcomes;
      var o :| 0 <= o < |kids| && kids[o].flag;
      assert IsKid(c, eps, cn, es[o], kids[o]);
      var inner := FlagHasReason(c, eps, kids[o].start, es[o].value.nextState, kids[o].visit.value, kids[o].returned);
      assert IsOutcome(es, kids, o, inner[0]);
      ns := [top] + inner;
      forall i | 0 <= i < |ns| - 1
        ensures Contains(c, ns[i], ns[i + 1])
      {
        if i > 0 {
          assert Contains(c, inner[i - 1], inner[i]);
        }
      }
    }
  }

  class HDP {
    const bounds: BoundPair
    const nodeStack: NodeStack
    const targetPrecision: real
    var data: seq<HdpData>
    var index: int
    var visited: seq<NodeId>
    var numTrials: nat

    ghost function Now(): Snap
      reads this, bounds, nodeStack
    {
      Snap(bounds.nodes, data, nodeStack.data, visited)
    }

    ghost function Bounds(): Graph
      reads this, bounds
    {
      Graph(bounds.nodes, bounds.lookup)
    }

    /** Holds at every point of every run, in and between trials. */
    ghost predicate Valid()
      reads this, bounds, nodeStack
    {
      && bounds.Valid()
      && nodeStack.Valid()
      && |bounds.c.problem.states| <= IDX_PLUS_INFINITY
      && |data| == |bounds.nodes|
      && |visited| <= |bounds.c.problem.states|
      && Marks(Now())
      && Labelled(bounds.c, bounds.nodes, Solved(data), targetPrecision)
    }

    /** During a trial `index` counts the visits. */
    ghost predicate Counting()
      reads this
    {
      index == |visited|
    }

    constructor (boundPair: BoundPair, precision: real)
      requires boundPair.Valid() && boundPair.nodes == [] && |boundPair.c.problem.states| <= IDX_PLUS_INFINITY
      ensures Valid() && fresh(nodeStack) && bounds == boundPair && targetPrecision == precision
      ensures nodeStack.data == [] && visited == [] && data == []
    {
      bounds := boundPair;
      nodeStack := new NodeStack();
      targetPrecision := precision;
      data, index, visited, numTrials := [], 0, [], 0;
    }

    /** Gives the nodes that were just created their search data: terminal nodes start out solved. */
    method GetNodeHandlers(ghost before: nat)
      requires before == |data| <= |bounds.nodes|
      modifies this`data
      ensures |data| == |bounds.nodes| && old(data) <= data
      ensures forall i | before <= i < |data| ::
        data[i] == HdpData(bounds.nodes[i].isTerminal, IDX_PLUS_INFINITY, IDX_PLUS_INFINITY)
    {
      while |data| < |bounds.nodes|
        invariant before <= |data| <= |bounds.nodes| && old(data) <= data
        invariant forall i | before <= i < |data| ::
          data[i] == HdpData(bounds.nodes[i].isTerminal, IDX_PLUS_INFINITY, IDX_PLUS_INFINITY)
      {
        data := data + [HdpData(bounds.nodes[|data|].isTerminal, IDX_PLUS_INFINITY, IDX_PLUS_INFINITY)];
      }
    }

    /** Backs up a node, which may create its successors. */
    method Backup(cn: NodeId)
      requires Valid() && cn < |data| && !data[cn].isSolved
      modifies this`data, bounds
      ensures Valid()
      ensures NodeStep(bounds.c, old(Now()), cn, Now())
      ensures old(data[cn].idx) == IDX_PLUS_INFINITY ==> Leaves(old(Now()), Now())
      ensures exists a :: UpdateStep(bounds.c, old(bounds.nodes), cn, bounds.nodes, a)
      ensures Evolves(bounds.c, targetPrecision, old(Bounds()), Bounds(), false)
    {
      hide Evolves, Labelled, Marks, NodeStep, Leaves, LowsKeptBut, GraphOk, GraphReady, LookupOk, UpdateStep;
      ghost var s, g := Now(), Bounds();
      var a := bounds.Update(cn);
      UpdatedOthers(bounds.c, s.nodes, cn, bounds.nodes, a);
      GetNodeHandlers(|data|);
      BackupIsStep(bounds.c, s, cn, Now(), a);
      NodeStepKeeps(bounds.c, targetPrecision, s, cn, Now());
      EvolvesByUpdate(bounds.c, targetPrecision, g, cn, Bounds(), a);
    }

    /** Backs up the Q values of a node, but keeps its upper value. */
    method CacheQ(cn: NodeId)
      requires Valid() && cn < |data| && !data[cn].isSolved && data[cn].idx == IDX_PLUS_INFINITY
      modifies this`data, bounds
      ensures Valid()
      ensures CachedAs(bounds.c, old(Now()), cn, Now())
      ensures NodeStep(bounds.c, old(Now()), cn, Now()) && Leaves(old(Now()), Now())
      ensures forall i :: LowsKeptBut(old(Now()), Now(), i)
      ensures SameUb(old(bounds.nodes), bounds.nodes)
      ensures cn < |data| && data[cn] == old(data[cn])
      ensures bounds.nodes[cn].Q != [] && Defined(bounds.nodes[cn].Q) && !bounds.nodes[cn].isTerminal
      ensures forall a: nat | IsMaxUBAction(bounds.nodes[cn].Q, a) ::
        FreshUb(bounds.c, bounds.nodes[cn].Q[a], UbVals(bounds.nodes))
      ensures Evolves(bounds.c, targetPrecision, old(Bounds()), Bounds(), false)
    {
      hide Evolves, Labelled;
      ghost var s, g := Now(), Bounds();
      var oldUBVal := bounds.nodes[cn].ubVal;
      Backup(cn);
      ghost var a :| UpdateStep(bounds.c, s.nodes, cn, bounds.nodes, a);
      ghost var t, m := Now(), Bounds();
      bounds.SetUb(cn, oldUBVal);
      EvolvesByCacheQ(bounds.c, targetPrecision, g, cn, m, Bounds(), a);
      CacheQStep(bounds.c, s, cn, t, Now(), a);
      NodeStepKeeps(bounds.c, targetPrecision, s, cn, Now());
    }

    /** Visits an unvisited node; returns true if some residual was too large. The ghost result tells what was done. */
    method TrialRecurse(cn: NodeId) returns (flag: bool, ghost visit: Visit)
      requires Valid() && Counting() && cn < |data| && data[cn].idx == IDX_PLUS_INFINITY
      modifies this`data, this`index, this`visited, bounds, nodeStack
      ensures Valid() && Counting()
      ensures IsVisit(bounds.c, targetPrecision, old(Now()), cn, visit, Now(), flag)
      ensures flag ==> Corrects(bounds.c, targetPrecision, Nested(cn, old(Now()), visit, Now()))
      ensures Leaves(old(Now()), Now()) && LowsKeptBut(old(Now()), Now(), cn)
      ensures !flag ==> SameUb(old(bounds.nodes), bounds.nodes)
      ensures !flag ==> Settled(bounds.c, targetPrecision, old(Now()), Now(), cn)
      ensures Evolves(bounds.c, targetPrecision, old(Bounds()), Bounds(), flag)
      ensures flag ==> Overwritten(bounds.c, targetPrecision, old(Bounds()), Bounds())
      decreases |bounds.c.problem.states| - |visited|, 2
    {
      hide Marks, Labelled, Leaves, LowsKeptBut, SameUb, Settled, NodeStep, OutcomeStep, Processed, Reach, Solved;
      hide GraphOk, GraphReady, LookupOk, Evolves, Overwritten, CachedAs, Chained, Concludes, PoppedTo, IsVisit, IsKid;
      hide Corrects;
      ghost var c, s, g := bounds.c, Now(), Bounds();
      if data[cn].isSolved {
        EvolvesRefl(c, targetPrecision, g);
        SolvedSettled(c, targetPrecision, s, cn);
        IsSkipped(c, targetPrecision, s, cn);
        return false, Skipped;
      }
      CacheQ(cn);
      ghost var t, h := Now(), Bounds();
      var maxUBAction := bounds.GetMaxUBAction(cn);
      var q := bounds.nodes[cn].Q[maxUBAction];
      if Abs(bounds.nodes[cn].ubVal - q.ubVal.value) > targetPrecision {
        bounds.SetUb(cn, q.ubVal.value);
        UbSet(c, targetPrecision, s, t, cn, q.ubVal.value);
        EvolvesBySetMax(c, targetPrecision, h, cn, Bounds(), maxUBAction, true);
        EvolvesMore(c, targetPrecision, g, h, Bounds(), false, true);
        HasTaken(c, targetPrecision, s, cn, t, maxUBAction, Now());
        visit := Took(t, maxUBAction);
        FlaggedCorrects(c, targetPrecision, s, cn, visit, Now(), true);
        return true, visit;
      }
      MarkActive(cn);
      ghost var s1 := Now();
      ghost var kids;
      flag, kids := VisitOutcomes(cn, q.outcomes);
      ghost var u, k := Now(), Bounds();
      ActiveLeaves(s, t, u, cn);
      EvolvesMore(c, targetPrecision, g, h, k, false, flag);
      if flag {
        Backup(cn);
        EvolvesMore(c, targetPrecision, g, k, Bounds(), flag, false);
        FlaggedLeaves(c, s, u, Now(), cn);
        ConcludesFlagged(c, |s.stack|, u, cn, Now());
      } else {
        ActiveSettled(c, targetPrecision, s, s1, u, cn, maxUBAction);
        if data[cn].idx == data[cn].low {
          Label(cn, |s.stack|);
          PoppedLeaves(c, targetPrecision, s, u, Now(), cn);
        }
        ConcludesUnflagged(c, |s.stack|, u, cn, Now());
      }
      visit := Through(t, maxUBAction, kids, u);
      WentThrough(c, targetPrecision, s, cn, visit, Now(), flag);
      FlaggedCorrects(c, targetPrecision, s, cn, visit, Now(), flag);
    }

    /** Deals with the outcome of one edge of the active node `cn`. */
    method VisitOutcome(cn: NodeId, e: Edge) returns (flag: bool, ghost kid: Kid)
      requires Valid() && Counting() && cn < |data| && e.nextState < |data| && cn in nodeStack.data
      modifies this`data, this`index, this`visited, bounds, nodeStack
      ensures Valid() && Counting()
      ensures OutcomeStep(old(Now()), Now(), cn)
      ensures IsKid(bounds.c, targetPrecision, cn, Some(e), kid)
      ensures kid.start == old(Now()) && kid.end == Now() && kid.flag == flag
      ensures !flag ==> Accounted(bounds.c, targetPrecision, old(Now()), Now(), cn, e.nextState)
      ensures Evolves(bounds.c, targetPrecision, old(Bounds()), Bounds(), flag)
      ensures flag ==> Overwritten(bounds.c, targetPrecision, old(Bounds()), Bounds())
      decreases |bounds.c.problem.states| - |visited|, 3
    {
      hide Marks, Labelled, Leaves, LowsKeptBut, SameUb, Settled, OutcomeStep, Accounted, Reach, Solved;
      hide GraphOk, GraphReady, LookupOk, Evolves, Overwritten, IsVisit, IsKid, Corrects;
      ghost var c, s := bounds.c, Now();
      EvolvesRefl(c, targetPrecision, Bounds());
      flag := false;
      var sn := e.nextState;
      if data[sn].idx == IDX_PLUS_INFINITY {
        ghost var visit;
        flag, visit := TrialRecurse(sn);
        ghost var t := Now();
        RecursedOutcome(c, targetPrecision, s, t, cn, sn, flag);
        data := data[cn := data[cn].(low := MinInt(data[cn].low, data[sn].low))];
        kid := Kid(s, Some(visit), t, flag, Now());
        KidVisited(c, targetPrecision, cn, e, kid);
      } else {
        VisitedOutcome(c, targetPrecision, s, cn, sn);
        var onStack := nodeStack.Contains(sn);
        if onStack {
          data := data[cn := data[cn].(low := MinInt(data[cn].low, data[sn].idx))];
        }
        kid := Kid(s, None, s, false, Now());
        KidSeen(c, targetPrecision, cn, e, kid);
      }
    }

    lemma MayMark(cn: NodeId)
      requires Valid() && Counting() && cn < |data| && !data[cn].isSolved && data[cn].idx == IDX_PLUS_INFINITY
      ensures cn !in nodeStack.data && |visited| < |bounds.c.problem.states|
      ensures var t := Marked(Now(), cn);
        Marks(t) && Labelled(bounds.c, t.nodes, Solved(t.data), targetPrecision) && Leaves(Now(), t)
    {
      VisitsBounded(bounds.c, bounds.lookup, Now(), cn);
      MarkedKeeps(bounds.c, targetPrecision, Now(), cn);
    }

    /** Puts a node on the stack of active nodes. */
    method MarkActive(cn: NodeId)
      requires Valid() && Counting() && cn < |data| && !data[cn].isSolved && data[cn].idx == IDX_PLUS_INFINITY
      modifies this`data, this`index, this`visited, nodeStack
      ensures Valid() && Counting() && Now() == Marked(old(Now()), cn)
      ensures |old(visited)| < |bounds.c.problem.states|
      ensures Leaves(old(Now()), Now())
    {
      hide Marks, Labelled, Solved, Leaves, GraphOk, GraphReady, LookupOk;
      MayMark(cn);
      visited := visited + [cn];
      nodeStack.Push(cn);
      data := data[cn := data[cn].(low := index, idx := index)];
      index := index + 1;
    }

    /** Deals with all outcomes of the greedy action of the active node `cn`. */
    method VisitOutcomes(cn: NodeId, es: seq<Option<Edge>>) returns (flag: bool, ghost kids: seq<Kid>)
      requires Valid() && Counting() && cn < |data| && cn in nodeStack.data
      requires forall o | 0 <= o < |es| && es[o].Some? :: es[o].value.nextState < |data|
      modifies this`data, this`index, this`visited, bounds, nodeStack
      ensures Valid() && Counting()
      ensures OutcomeStep(old(Now()), Now(), cn)
      ensures |kids| == |es| && Chained(old(Now()), kids, Now(), flag)
      ensures forall o | 0 <= o < |kids| :: IsKid(bounds.c, targetPrecision, cn, es[o], kids[o])
      ensures !flag ==> AllAccounted(bounds.c, targetPrecision, old(Now()), Now(), cn, es, |es|)
      ensures Evolves(bounds.c, targetPrecision, old(Bounds()), Bounds(), flag)
      ensures flag ==> Overwritten(bounds.c, targetPrecision, old(Bounds()), Bounds())
      decreases |bounds.c.problem.states| - |visited|, 4
    {
      hide Marks, Labelled, Leaves, LowsKeptBut, SameUb, OutcomeStep, AllAccounted, Accounted, Reach, Solved;
      hide GraphOk, GraphReady, LookupOk, Evolves, Overwritten, Chained, IsVisit, IsKid;
      ghost var c, s0, g := bounds.c, Now(), Bounds();
      EvolvesRefl(c, targetPrecision, g);
      flag, kids := false, [];
      NoneChained(s0);
      NoneAccounted(c, targetPrecision, s0, cn, es);
      for o := 0 to |es|
        invariant Valid() && Counting() && OutcomeStep(s0, Now(), cn)
        invariant |kids| == o && Chained(s0, kids, Now(), flag)
        invariant forall p | 0 <= p < o :: IsKid(c, targetPrecision, cn, es[p], kids[p])
        invariant !flag ==> AllAccounted(c, targetPrecision, s0, Now(), cn, es, o)
        invariant Evolves(c, targetPrecision, g, Bounds(), flag)
        invariant flag ==> Overwritten(c, targetPrecision, g, Bounds())
      {
        ghost var s, h := Now(), Bounds();
        StillActive(s0, s, cn);
        ghost var was, kid := flag, Kid(s, None, s, false, s);
        if es[o].Some? {
          var f;
          f, kid := VisitOutcome(cn, es[o].value);
          EvolvesMore(c, targetPrecision, g, h, Bounds(), flag, f);
          flag := flag || f;
          OutcomeStepTrans(s0, s, Now(), cn);
        } else {
          KidAbsent(c, targetPrecision, cn, kid);
        }
        ChainedMore(s0, kids, s, was, kid);
        kids := kids + [kid];
        if !flag {
          OneMoreAccounted(c, targetPrecision, s0, s, Now(), cn, es, o);
        }
      }
    }

    /** Pops the stack down to length `n`, labelling everything popped as solved. */
    method Label(cn: NodeId, ghost n: nat)
      requires Valid() && n < |nodeStack.data| && nodeStack.data[n] == cn && cn < |data|
      requires Processed(bounds.c, targetPrecision, Now(), n, data[cn].idx)
      modifies this`data, nodeStack
      ensures Valid() && PoppedTo(old(Now()), n, Now())
      ensures cn < |data| && data[cn].isSolved
    {
      hide Marks, Labelled, Processed, GraphOk, GraphReady, LookupOk, Solved, PoppedTo;
      ghost var s := Now();
      PopNone(s);
      var top := nodeStack.Top();
      while top != cn
        invariant nodeStack.Valid() && n < |nodeStack.data| && nodeStack.data[n] == cn
        invariant top == nodeStack.data[|nodeStack.data| - 1]
        invariant |data| == |s.data| && PoppedTo(s, |nodeStack.data|, Now())
        decreases |nodeStack.data|
      {
        PopOne(s, |nodeStack.data|, Now());
        var sn := nodeStack.Pop();
        data := data[sn := data[sn].(isSolved := true)];
        top := nodeStack.Top();
      }
      DistinctPosition(nodeStack.data, n, |nodeStack.data| - 1);
      PopOne(s, n + 1, Now());
      var _ := nodeStack.Pop();
      data := data[cn := data[cn].(isSolved := true)];
      PopKeeps(bounds.c, targetPrecision, s, n, Now());
    }

    /** One trial from the node `cn`. Between trials nothing is active. The result is true if `cn` was already
        solved; otherwise the trial labels `cn`, or it finds a node whose residual is too large (`flag`). The other
        ghost results are the visit of `cn`, and the state in which it ends. */
    method DoTrial(cn: NodeId) returns (done: bool, ghost flag: bool, ghost visit: Visit, ghost last: Snap)
      requires Valid() && cn < |data| && Idle()
      modifies this, bounds, nodeStack
      ensures Valid() && Idle()
      ensures done <==> old(data)[cn].isSolved
      ensures IsVisit(bounds.c, targetPrecision, old(Now()), cn, visit, last, flag) && ForgetsVisits(last, Now())
      ensures flag ==> Corrects(bounds.c, targetPrecision, Nested(cn, old(Now()), visit, last))
      ensures numTrials == old(numTrials) + if done then 0 else 1
      ensures |old(data)| <= |data| && KeepsKeys(old(bounds.nodes), bounds.nodes)
      ensures data[cn].isSolved || flag
      ensures forall i | 0 <= i < |old(data)| && old(data)[i].isSolved ::
        data[i].isSolved && bounds.nodes[i] == old(bounds.nodes)[i]
      ensures Evolves(bounds.c, targetPrecision, old(Bounds()), Bounds(), flag)
      ensures flag ==> Overwritten(bounds.c, targetPrecision, old(Bounds()), Bounds())
    {
      hide Labelled, Settled, LowsKeptBut, GraphOk, GraphReady, LookupOk, Evolves, Solved, Overwritten, IsVisit, IsKid;
      hide Marks, Corrects;
      ghost var s := Now();
      if data[cn].isSolved {
        EvolvesRefl(bounds.c, targetPrecision, Bounds());
        IsSkipped(bounds.c, targetPrecision, s, cn);
        return true, false, Skipped, s;
      }
      IdleUnvisited(s, cn);
      index := 0;
      flag, visit := TrialRecurse(cn);
      ghost var t := Now();
      last := t;
      if !flag {
        RootLabelled(bounds.c, targetPrecision, s, t, cn);
      }
      VisitedInRange(t);
      ResetIdx();
      nodeStack.Clear();
      numTrials := numTrials + 1;
      TrialReset(bounds.c, targetPrecision, t, Now());
      done := false;
    }

    /** No trial is in progress. */
    ghost predicate Idle()
      reads this, nodeStack
    {
      nodeStack.data == [] && visited == []
    }

    /** Resets the index of every visited node. */
    method ResetIdx()
      requires forall p | 0 <= p < |visited| :: visited[p] < |data|
      modifies this`data, this`visited
      ensures visited == [] && |data| == |old(data)|
      ensures forall i | 0 <= i < |data| ::
        data[i] == if i in old(visited) then old(data)[i].(idx := IDX_PLUS_INFINITY) else old(data)[i]
    {
      while visited != []
        invariant |data| == |old(data)| && visited <= old(visited)
        invariant forall i | 0 <= i < |data| ::
          data[i] == if i in old(visited)[|visited|..] then old(data)[i].(idx := IDX_PLUS_INFINITY) else old(data)[i]
        decreases |visited|
      {
        var n := |visited| - 1;
        var top := visited[n];
        assert top == old(visited)[n] && old(visited)[n..] == [top] + old(visited)[n + 1..];
        data := data[top := data[top].(idx := IDX_PLUS_INFINITY)];
        visited := visited[..n];
      }
    }

    /** The node of the initial state of the problem. */
    method GetRootNode() returns (root: NodeId)
      requires Valid() && Idle() && bounds.nodes == []
      modifies this`data, bounds
      ensures Valid() && Idle()
      ensures root < |data| && bounds.nodes[root].s == bounds.c.problem.initial
      ensures NewNodesFresh(bounds.c, 0, bounds.nodes)
    {
      hide Marks, Labelled, GraphReady, LookupOk, GraphOk, Solved, NewNodesFresh, GetNodeStep, Config.Valid, Mdp.Valid;
      EmptyGraph(bounds.c, bounds.lookup, bounds.c.problem.initial);
      root := bounds.GetNode(bounds.c.problem.initial);
      OneFresh(bounds.c, bounds.nodes, bounds.c.problem.initial);
      GetNodeHandlers(0);
      FreshStart(bounds.c, targetPrecision, Now());
    }

    /** Runs trials until the root is solved. With a uniformly improvable initial upper bound above an optimal
        value function this terminates, and the greedy policy is then within `targetPrecision / (1 - discount)`
        of optimal. */
    method Solve(ghost V: State -> real) returns (root: NodeId)
      requires Valid() && Idle() && bounds.nodes == [] && targetPrecision > 0.0
      requires BellmanOptimal(bounds.c.problem, V) && InitialBracket(bounds.c, V) && InitiallyImprovable(bounds.c)
      modifies this, bounds, nodeStack
      ensures Valid() && root < |data| && data[root].isSolved
      ensures bounds.nodes[root].s == bounds.c.problem.initial
      ensures NearOptimal(bounds.c, V, bounds.nodes, Solved(data), targetPrecision, root)
    {
      hide Marks, Labelled, GraphOk, GraphReady, LookupOk, Solved, BellmanOptimal, InitialBracket, InitiallyImprovable;
      hide Consistent, Falls, Drops, Brackets, NewNodesFresh, Evolves, RoomFor, NearOptimal;
      ghost var c, eps := bounds.c, targetPrecision;
      root := GetRootNode();
      FringeConsistent(c, Bounds());
      FringeBrackets(c, V, Bounds());
      RoomNonNegative(c, eps, Bounds(), V);
      var done := false;
      while !done
        invariant Valid() && Idle() && root < |data| && bounds.nodes[root].s == c.problem.initial
        invariant Consistent(c, Bounds()) && Brackets(c, V, bounds.nodes)
        invariant 0 <= RoomFor(c, eps, Bounds(), V)
        invariant done ==> data[root].isSolved
        decreases RoomFor(c, eps, Bounds(), V), if done then 0 else if data[root].isSolved then 1 else 2
      {
        ghost var g := Bounds();
        ghost var flag, visit, last;
        done, flag, visit, last := DoTrial(root);
        SearchProgress(c, eps, g, Bounds(), V, flag);
      }
      RootNearOptimal(c, V, Now(), eps, root);
    }
  }

  lemma IdleUnvisited(s: Snap, cn: NodeId)
    requires Marks(s) && s.visited == [] && cn < |s.data|
    ensures s.data[cn].idx == IDX_PLUS_INFINITY
  {
  }

  lemma VisitedInRange(s: Snap)
    requires Marks(s)
    ensures forall p | 0 <= p < |s.visited| :: s.visited[p] < |s.data|
  {
  }

  lemma IsSkipped(c: Config, eps: real, s: Snap, cn: NodeId)
    requires cn < |s.data| && s.data[cn].isSolved
    ensures IsVisit(c, eps, s, cn, Skipped, s, false)
  {
  }

  lemma HasTaken(c: Config, eps: real, s: Snap, cn: NodeId, m: Snap, a: nat, t: Snap)
    requires cn < |s.data| && !s.data[cn].isSolved && CachedAs(c, s, cn, m)
    requires GreedyAt(eps, m, cn, a, true) && TakesQ(m, cn, a, t)
    ensures IsVisit(c, eps, s, cn, Took(m, a), t, true)
  {
    hide CachedAs, GreedyAt, TakesQ;
  }

  lemma WentThrough(c: Config, eps: real, s: Snap, cn: NodeId, v: Visit, t: Snap, flag: bool)
    requires v.Through? && cn < |s.data| && !s.data[cn].isSolved && CachedAs(c, s, cn, v.cached)
    requires GreedyAt(eps, v.cached, cn, v.a, false) && |v.kids| == |v.cached.nodes[cn].Q[v.a].outcomes|
    requires Chained(Marked(v.cached, cn), v.kids, v.last, flag)
    requires forall o | 0 <= o < |v.kids| :: IsKid(c, eps, cn, v.cached.nodes[cn].Q[v.a].outcomes[o], v.kids[o])
    requires Concludes(c, |s.stack|, v.last, cn, t, flag)
    ensures IsVisit(c, eps, s, cn, v, t, flag)
  {
    hide CachedAs, Chained, Concludes, IsKid, IsMaxUBAction;
  }

  lemma ConcludesFlagged(c: Config, n: nat, u: Snap, cn: NodeId, t: Snap)
    requires cn < |u.data| && NodeStep(c, u, cn, t) && exists a :: UpdateStep(c, u.nodes, cn, t.nodes, a)
    ensures Concludes(c, n, u, cn, t, true)
  {
    hide NodeStep, UpdateStep;
  }

  lemma ConcludesUnflagged(c: Config, n: nat, u: Snap, cn: NodeId, t: Snap)
    requires cn < |u.data| && if u.data[cn].idx == u.data[cn].low then PoppedTo(u, n, t) else t == u
    ensures Concludes(c, n, u, cn, t, false)
  {
  }

  lemma NoneChained(s: Snap)
    ensures Chained(s, [], s, false)
  {
  }

  lemma KidAbsent(c: Config, eps: real, cn: NodeId, kid: Kid)
    requires kid.visit.None? && !kid.flag && kid.end == kid.start
    ensures IsKid(c, eps, cn, None, kid)
  {
  }

  lemma KidVisited(c: Config, eps: real, cn: NodeId, e: Edge, kid: Kid)
    requires cn < |kid.start.data| && e.nextState < |kid.start.data|
    requires kid.start.data[e.nextState].idx == IDX_PLUS_INFINITY && kid.visit.Some?
    requires IsVisit(c, eps, kid.start, e.nextState, kid.visit.value, kid.returned, kid.flag)
    requires cn < |kid.returned.data| && e.nextState < |kid.returned.data|
    requires kid.end ==
      Lowered(kid.returned, cn, MinInt(kid.returned.data[cn].low, kid.returned.data[e.nextState].low))
    ensures IsKid(c, eps, cn, Some(e), kid)
  {
    hide IsVisit;
  }

  lemma KidSeen(c: Config, eps: real, cn: NodeId, e: Edge, kid: Kid)
    requires cn < |kid.start.data| && e.nextState < |kid.start.data| && kid.visit.None? && !kid.flag
    requires kid.start.data[e.nextState].idx != IDX_PLUS_INFINITY
    requires kid.end == if e.nextState in kid.start.stack
      then Lowered(kid.start, cn, MinInt(kid.start.data[cn].low, kid.start.data[e.nextState].idx)) else kid.start
    ensures IsKid(c, eps, cn, Some(e), kid)
  {
    hide IsVisit;
  }
}
