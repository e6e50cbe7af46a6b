/** The max-planes lower bound of a POMDP: a pruned list of masked alpha vectors, support lists, and a cache of each
    node's best plane with back pointers. */
module MaxPlanesBound {
  import opened Wrappers
  import opened RealArith
  import opened SparseVectors
  import opened Beliefs
  import opened PointerLists

  const PRUNE_PLANES_INCREMENT: nat := 10

  function NextPruneNumPlanes(last: nat): nat {
    var scaled := last * 11 / 10;
    if last + PRUNE_PLANES_INCREMENT >= scaled then last + PRUNE_PLANES_INCREMENT else scaled
  }

  class LBPlane {
    const alpha: CVector
    const action: int
    /** The plane is defined on the beliefs whose states are all stored in the mask. */
    const mask: CVector
    const numBackupsAtCreation: int
    /** The nodes whose cached plane is this one. */
    var backPointers: seq<PlaneNode>

    constructor (alpha: CVector, action: int, mask: CVector, numBackups: int)
      ensures this.alpha == alpha && this.action == action && this.mask == mask
      ensures numBackupsAtCreation == numBackups && backPointers == []
    {
      this.alpha, this.action, this.mask, numBackupsAtCreation, backPointers := alpha, action, mask, numBackups, [];
    }
  }

  class PlaneNode {
    const s: CVector
    /** None stands for minus infinity. */
    var lbVal: Option<real>
    var bestPlane: LBPlane?
    var lastSetPlaneNumBackups: int
    /** How often the cached plane was replaced by a dominator since it was set. */
    ghost var forwards: nat

    constructor (s: CVector)
      ensures this.s == s && lbVal == None && bestPlane == null
    {
      this.s, lbVal, bestPlane, lastSetPlaneNumBackups, forwards := s, None, null, -1, 0;
    }
  }

  // ---------- Planes as values ----------

  ghost predicate PlaneOk(p: LBPlane, n: nat) {
    p.alpha.Valid() && p.mask.Valid() && p.alpha.size == n == p.mask.size
  }

  ghost predicate PlanesOk(planes: seq<LBPlane>, n: nat) {
    forall p | p in planes :: PlaneOk(p, n)
  }

  /** The mask of `p` covers every state that the belief stores. */
  ghost predicate Applicable(p: LBPlane, b: CVector) {
    forall k: nat :: b.Has(k) ==> p.mask.Has(k)
  }

  ghost function PlaneValue(p: LBPlane, b: CVector): real
    requires p.alpha.size == b.size
  {
    Dot(Dense(p.alpha), Dense(b), b.size)
  }

  /** `x` is applicable wherever `y` is and nowhere more than `k` tolerances below it. */
  ghost predicate Within(k: nat, x: LBPlane, y: LBPlane) {
    && (forall i: nat :: y.mask.Has(i) ==> x.mask.Has(i))
    && forall i: nat :: x.alpha.Get(i) >= y.alpha.Get(i) - k as real * BOUNDS_PRUNE_EPS
  }

  ghost predicate PlaneDominates(x: LBPlane, y: LBPlane) {
    && (forall i: nat :: y.mask.Has(i) ==> x.mask.Has(i))
    && forall i: nat :: x.alpha.Get(i) >= y.alpha.Get(i) - BOUNDS_PRUNE_EPS
  }

  lemma WithinStep(k: nat, x: LBPlane, y: LBPlane, z: LBPlane)
    requires Within(k, x, y) && PlaneDominates(z, x)
    ensures Within(k + 1, z, y)
  {
    hide CVector.Get, CVector.Has;
    assert (k + 1) as real * BOUNDS_PRUNE_EPS == k as real * BOUNDS_PRUNE_EPS + BOUNDS_PRUNE_EPS;
    forall i: nat
      ensures z.alpha.Get(i) >= y.alpha.Get(i) - (k + 1) as real * BOUNDS_PRUNE_EPS
    {
      assert x.alpha.Get(i) >= y.alpha.Get(i) - k as real * BOUNDS_PRUNE_EPS;
    }
  }

  lemma WithinRefl(k: nat, x: LBPlane)
    ensures Within(k, x, x)
  {
    assert k as real * BOUNDS_PRUNE_EPS >= 0.0;
  }

  ghost predicate NonNegativeVector(b: CVector) {
    b.Valid() && NonNegative(Dense(b))
  }

  lemma {:induction false} DotAbove(u: seq<real>, v: seq<real>, w: seq<real>, e: real, n: nat)
    requires n <= |u| && n <= |v| && n <= |w| && e >= 0.0
    requires forall k | 0 <= k < n :: u[k] >= v[k] - e && w[k] >= 0.0
    ensures Dot(u, w, n) >= Dot(v, w, n) - Times(e, Sum(w, n))
  {
    if n == 0 {
      TimesIs(e, 0.0);
    } else {
      DotAbove(u, v, w, e, n - 1);
      TermAbove(u[n - 1], v[n - 1], w[n - 1], e, Sum(w, n - 1));
    }
  }

  lemma TermAbove(u: real, v: real, w: real, e: real, sum: real)
    requires u >= v - e && w >= 0.0
    ensures u * w >= v * w - (Times(e, sum + w) - Times(e, sum))
  {
    ScaleMono(w, v - e, u);
    assert w * (v - e) == v * w - e * w;
    assert e * (sum + w) == e * sum + e * w;
  }

  /** A plane within `k` tolerances loses at most that much, times the norm, wherever the other plane applies. */
  lemma WithinValue(k: nat, x: LBPlane, y: LBPlane, b: CVector, n: nat)
    requires PlaneOk(x, n) && PlaneOk(y, n) && b.size == n && NonNegativeVector(b)
    requires Within(k, x, y) && Applicable(y, b)
    ensures Applicable(x, b)
    ensures PlaneValue(x, b) >= PlaneValue(y, b) - Times(k as real * BOUNDS_PRUNE_EPS, Sum(Dense(b), n))
  {
    var e := k as real * BOUNDS_PRUNE_EPS;
    assert e >= 0.0;
    forall i: nat | i < n
      ensures Dense(x.alpha)[i] >= Dense(y.alpha)[i] - e
    {
      assert x.alpha.Get(i) >= y.alpha.Get(i) - e;
    }
    hide Within, Times;
    DotAbove(Dense(x.alpha), Dense(y.alpha), Dense(b), e, n);
  }

  // ---------- Lists of planes ----------

  /** Every plane of `before` has a stand-in in `after` that is within `k` tolerances. */
  ghost predicate LossWithin(k: nat, before: seq<LBPlane>, after: seq<LBPlane>) {
    forall y | y in before :: exists x :: x in after && Within(k, x, y)
  }

  /** No plane dominates another one. */
  ghost predicate NoDomination(planes: seq<LBPlane>) {
    forall x, y | x in planes && y in planes && x != y :: !PlaneDominates(x, y)
  }

  /** Planes that were there when the list was last pruned do not dominate each other. */
  ghost predicate OldPairsOk(planes: seq<LBPlane>, lastPrune: int) {
    forall x, y | x in planes && y in planes && x != y
      && x.numBackupsAtCreation <= lastPrune && y.numBackupsAtCreation <= lastPrune :: !PlaneDominates(x, y)
  }

  /** The support list of state `i` holds exactly the planes whose mask stores state `i`. */
  ghost predicate ListOk(planes: seq<LBPlane>, list: seq<LBPlane>, i: nat) {
    && Distinct(list)
    && (forall p | p in list :: p in planes && p.mask.Has(i))
    && (forall p | p in planes && p.mask.Has(i) :: p in list)
  }

  ghost predicate SupportOk(planes: seq<LBPlane>, support: seq<seq<LBPlane>>, n: nat) {
    |support| == n && forall i | 0 <= i < n :: ListOk(planes, support[i], i)
  }

  /** Removing a dominated plane costs one tolerance. */
  lemma LossStep(k: nat, before: seq<LBPlane>, mid: seq<LBPlane>, after: seq<LBPlane>, x: LBPlane, y: LBPlane)
    requires LossWithin(k, before, mid) && Removed(mid, after, y) && x in after && PlaneDominates(x, y)
    ensures LossWithin(k + 1, before, after)
  {
    hide Within, PlaneDominates;
    forall p | p in before
      ensures exists q :: q in after && Within(k + 1, q, p)
    {
      var m :| m in mid && Within(k, m, p);
      if m == y {
        WithinStep(k, y, p, x);
      } else {
        WithinWeaken(k, m, p);
      }
    }
  }

  lemma WithinWeaken(k: nat, x: LBPlane, y: LBPlane)
    requires Within(k, x, y)
    ensures Within(k + 1, x, y)
  {
    assert k as real * BOUNDS_PRUNE_EPS <= (k + 1) as real * BOUNDS_PRUNE_EPS;
    hide CVector.Get, CVector.Has;
    forall i: nat
      ensures x.alpha.Get(i) >= y.alpha.Get(i) - (k + 1) as real * BOUNDS_PRUNE_EPS
    {
      assert x.alpha.Get(i) >= y.alpha.Get(i) - k as real * BOUNDS_PRUNE_EPS;
    }
  }

  /** The plane at position `i` is worth at least as much as any other that applies to the belief, and more than those
      before it. */
  ghost predicate FirstBest(list: seq<LBPlane>, b: CVector, i: nat) {
    && i < |list| && (forall p | p in list :: p.alpha.size == b.size) && Applicable(list[i], b)
    && (forall j | 0 <= j < |list| && Applicable(list[j], b) :: PlaneValue(list[j], b) <= PlaneValue(list[i], b))
    && (forall j | 0 <= j < i && Applicable(list[j], b) :: PlaneValue(list[j], b) < PlaneValue(list[i], b))
  }

  /** `p` has the highest value at `b` among the applicable planes. */
  ghost predicate IsBest(planes: seq<LBPlane>, b: CVector, p: LBPlane)
    requires forall q | q in planes :: q.alpha.size == b.size
  {
    && p in planes && Applicable(p, b)
    && forall q | q in planes && Applicable(q, b) :: PlaneValue(q, b) <= PlaneValue(p, b)
  }

  /** Pruning lowers no belief's best value by more than the tolerance, times the norm, for each plane deleted. */
  lemma PruningLoss(k: nat, before: seq<LBPlane>, after: seq<LBPlane>, b: CVector, n: nat, p: LBPlane, q: LBPlane)
    requires PlanesOk(before, n) && PlanesOk(after, n) && b.size == n && NonNegativeVector(b)
    requires LossWithin(k, before, after) && IsBest(before, b, p) && IsBest(after, b, q)
    ensures PlaneValue(q, b) >= PlaneValue(p, b) - Times(k as real * BOUNDS_PRUNE_EPS, Sum(Dense(b), n))
  {
    hide Within, Applicable, PlaneValue, Times, Sum;
    var x :| x in after && Within(k, x, p);
    WithinValue(k, x, p, b, n);
  }

  /** The list for the first state of a belief holds every plane that applies to it. */
  lemma SupportIsExact(planes: seq<LBPlane>, support: seq<seq<LBPlane>>, b: CVector, n: nat, p: LBPlane)
    requires SupportOk(planes, support, n) && |b.data| > 0 && b.data[0].index < n
    ensures p in planes && Applicable(p, b) <==> p in support[b.data[0].index] && Applicable(p, b)
  {
    assert ListOk(planes, support[b.data[0].index], b.data[0].index);
    assert b.Has(b.data[0].index);
  }

  ghost predicate FullMask(p: LBPlane, n: nat) {
    forall k: nat | k < n :: p.mask.Has(k)
  }

  /** Every belief has an applicable plane exactly when some plane has a full mask. */
  lemma AlwaysApplicable(planes: seq<LBPlane>, n: nat)
    requires n > 0
    ensures (forall b: CVector | b.size == n && b.Valid() :: exists p :: p in planes && Applicable(p, b))
      <==> exists p :: p in planes && FullMask(p, n)
  {
    if p :| p in planes && FullMask(p, n) {
      forall b: CVector | b.size == n && b.Valid()
        ensures Applicable(p, b)
      {
      }
    } else {
      var full := CVector(n, seq(n, (i: nat) => CEntry(i, 1.0 / n as real)));
      assert full.Valid();
      forall p | p in planes
        ensures !Applicable(p, full)
      {
        var k: nat :| k < n && !p.mask.Has(k);
        assert full.data[k].index == k;
        assert full.Has(k);
      }
    }
  }

  /** Pruning dominated planes keeps a full mask. */
  lemma FullMaskStays(k: nat, before: seq<LBPlane>, after: seq<LBPlane>, n: nat)
    requires LossWithin(k, before, after) && exists p :: p in before && FullMask(p, n)
    ensures exists p :: p in after && FullMask(p, n)
  {
    var p :| p in before && FullMask(p, n);
    var q :| q in after && Within(k, q, p);
    assert FullMask(q, n);
  }

  lemma SupportAfterRemoval(planes: seq<LBPlane>, support: seq<seq<LBPlane>>, planes': seq<LBPlane>,
                            support': seq<seq<LBPlane>>, y: LBPlane, n: nat)
    requires SupportOk(planes, support, n) && Removed(planes, planes', y) && |support'| == n
    requires forall i | 0 <= i < n :: support'[i] == if y.mask.Has(i) then Without(support[i], y) else support[i]
    ensures SupportOk(planes', support', n)
  {
    forall i | 0 <= i < n
      ensures ListOk(planes', support'[i], i)
    {
      assert ListOk(planes, support[i], i);
    }
  }

  lemma SupportAfterPush(planes: seq<LBPlane>, support: seq<seq<LBPlane>>, av: LBPlane,
                         support': seq<seq<LBPlane>>, n: nat)
    requires SupportOk(planes, support, n) && av !in planes && |support'| == n
    requires forall i | 0 <= i < n :: support'[i] == if av.mask.Has(i) then support[i] + [av] else support[i]
    ensures SupportOk(planes + [av], support', n)
  {
    forall i | 0 <= i < n
      ensures ListOk(planes + [av], support'[i], i)
    {
      assert ListOk(planes, support[i], i);
    }
  }

  lemma PlanesAfterRemoval(planes: seq<LBPlane>, i: nat, lastPrune: int, n: nat)
    requires PlanesOk(planes, n) && Distinct(planes) && OldPairsOk(planes, lastPrune) && i < |planes|
    ensures var rest := planes[..i] + planes[i + 1..];
      PlanesOk(rest, n) && Distinct(rest) && OldPairsOk(rest, lastPrune) && Removed(planes, rest, planes[i])
  {
    hide PlaneOk, PlaneDominates;
    RemovedAt(planes, i);
  }

  /** The same planes in another order. */
  ghost predicate SamePlanes(a: seq<LBPlane>, b: seq<LBPlane>) {
    (forall p | p in a :: p in b) && (forall p | p in b :: p in a)
  }

  lemma SupportSame(a: seq<LBPlane>, b: seq<LBPlane>, support: seq<seq<LBPlane>>, n: nat)
    requires SupportOk(a, support, n) && SamePlanes(a, b)
    ensures SupportOk(b, support, n)
  {
    forall i | 0 <= i < n
      ensures ListOk(b, support[i], i)
    {
      assert ListOk(a, support[i], i);
    }
  }

  function MoveToFront(planes: seq<LBPlane>, i: nat): seq<LBPlane>
    requires i < |planes|
  {
    [planes[i]] + planes[..i] + planes[i + 1..]
  }

  lemma MovedToFront(planes: seq<LBPlane>, i: nat, c: nat)
    requires Distinct(planes) && i < c <= |planes|
    ensures var moved := MoveToFront(planes, i);
      |moved| == |planes| && Distinct(moved) && SamePlanes(planes, moved) && SamePlanes(planes[..c], moved[..c])
  {
    var moved := MoveToFront(planes, i);
    forall p | p in planes
      ensures p in moved
    {
      var k :| 0 <= k < |planes| && planes[k] == p;
      assert moved[if k < i then k + 1 else if k == i then 0 else k] == p;
    }
    forall p | p in moved
      ensures p in planes
    {
      var k :| 0 <= k < |moved| && moved[k] == p;
      assert planes[if k == 0 then i else if k <= i then k - 1 else k] == p;
    }
    forall p | p in planes[..c]
      ensures p in moved[..c]
    {
      var k :| 0 <= k < c && planes[k] == p;
      assert moved[..c][if k < i then k + 1 else if k == i then 0 else k] == p;
    }
    forall p | p in moved[..c]
      ensures p in planes[..c]
    {
      var k :| 0 <= k < c && moved[k] == p;
      assert planes[..c][if k == 0 then i else if k <= i then k - 1 else k] == p;
    }
  }

  /** Neither plane dominates the other. */
  ghost predicate Unrelated(x: LBPlane, y: LBPlane) {
    !PlaneDominates(x, y) && !PlaneDominates(y, x)
  }

  lemma PrefixAfterRemoval(planes: seq<LBPlane>, m: nat, c: nat)
    requires m < c < |planes| && NoDomination(planes[..c])
    ensures var rest := planes[..m] + planes[m + 1..];
      rest[c - 1] == planes[c] && NoDomination(rest[..c - 1]) && forall j | 0 <= j < m :: rest[j] == planes[j]
  {
    hide PlaneDominates;
    var rest := planes[..m] + planes[m + 1..];
    forall p | p in rest[..c - 1]
      ensures p in planes[..c]
    {
      var k :| 0 <= k < c - 1 && rest[k] == p;
      assert planes[..c][if k < m then k else k + 1] == p;
    }
  }

  lemma KeepPrefix(planes: seq<LBPlane>, m: nat, c: nat)
    requires m < c < |planes|
    ensures var rest := planes[..c] + planes[c + 1..]; rest[..c] == planes[..c] && rest[m] == planes[m]
  {
  }

  lemma PrefixGrows(planes: seq<LBPlane>, c: nat)
    requires c < |planes| && NoDomination(planes[..c])
    requires forall j | 0 <= j < c :: Unrelated(planes[j], planes[c])
    ensures NoDomination(planes[..c + 1])
  {
    hide PlaneDominates;
    forall p | p in planes[..c + 1]
      ensures p in planes[..c] || p == planes[c]
    {
      assert planes[..c + 1] == planes[..c] + [planes[c]];
    }
    forall p | p in planes[..c]
      ensures Unrelated(p, planes[c])
    {
      var k :| 0 <= k < c && planes[k] == p;
    }
  }

  // ---------- The cache ----------

  /** The node's cached plane is alive, applies to the node's belief, points back to the node, and is worth at least
      the node's lower bound, less one tolerance for each time it was replaced by a dominator. */
  ghost predicate NodeCached(planes: seq<LBPlane>, nd: PlaneNode, n: nat)
    reads planes, nd
  {
    && Belief(nd.s, n) && nd.bestPlane != null && nd.bestPlane in planes && PlaneOk(nd.bestPlane, n)
    && nd in nd.bestPlane.backPointers && Applicable(nd.bestPlane, nd.s)
    && nd.lbVal.Some?
    && PlaneValue(nd.bestPlane, nd.s) >= nd.lbVal.value - nd.forwards as real * BOUNDS_PRUNE_EPS
  }

  /** A plane points back, once each, to nodes that cache it. */
  ghost predicate PointersOk(p: LBPlane, nodes: set<PlaneNode>)
    reads p, nodes
  {
    Distinct(p.backPointers) && forall nd | nd in p.backPointers :: nd in nodes && nd.bestPlane == p
  }

  ghost predicate CacheOk(planes: seq<LBPlane>, nodes: set<PlaneNode>, n: nat)
    reads planes, nodes
  {
    && (forall p | p in planes :: PointersOk(p, nodes))
    && (forall nd | nd in nodes :: NodeCached(planes, nd, n))
  }

  /** Wherever the plane applies, it lies below the value. */
  ghost predicate PlaneSound(value: CVector -> real, p: LBPlane, n: nat)
    requires PlaneOk(p, n)
  {
    forall b | Belief(b, n) && b.size == n && Applicable(p, b) :: PlaneValue(p, b) <= value(b)
  }

  ghost predicate PlanesSound(value: CVector -> real, planes: seq<LBPlane>, n: nat)
    requires PlanesOk(planes, n)
  {
    forall p | p in planes :: PlaneSound(value, p, n)
  }

  /** With valid planes the bound of a node exceeds the value by no more than the tolerances it was forwarded with. */
  lemma NodeBoundIsSound(value: CVector -> real, planes: seq<LBPlane>, nd: PlaneNode, n: nat)
    requires PlanesOk(planes, n) && PlanesSound(value, planes, n) && NodeCached(planes, nd, n)
    ensures nd.lbVal.value <= value(nd.s) + nd.forwards as real * BOUNDS_PRUNE_EPS
  {
    hide PlaneValue, Applicable;
    BeliefSize(nd.s, n);
    assert PlaneSound(value, nd.bestPlane, n);
  }

  /** A node handed to a dominator loses at most one tolerance. */
  lemma ForwardedValue(x: LBPlane, y: LBPlane, b: CVector, n: nat)
    requires PlaneOk(x, n) && PlaneOk(y, n) && PlaneDominates(x, y) && Belief(b, n) && Applicable(y, b)
    ensures Applicable(x, b) && PlaneValue(x, b) >= PlaneValue(y, b) - BOUNDS_PRUNE_EPS
  {
    assert Within(1, x, y);
    BeliefIsNonNegative(b, n);
    WithinValue(1, x, y, b, n);
    UnitTimes(BOUNDS_PRUNE_EPS);
    TimesIs(1 as real * BOUNDS_PRUNE_EPS, 1.0);
  }

  lemma BeliefIsNonNegative(b: CVector, n: nat)
    requires Belief(b, n)
    ensures NonNegativeVector(b) && b.size == n && Sum(Dense(b), n) == 1.0
  {
    forall k: nat | k < n
      ensures Dense(b)[k] >= 0.0
    {
      BeliefSign(b, n, k);
    }
  }

  class MaxPlanesLowerBound {
    const n: nat
    const useMaxPlanesSupportList: bool
    const useMaxPlanesCache: bool
    const useMaxPlanesExtraPruning: bool
    var planes: seq<LBPlane>
    var supportList: seq<seq<LBPlane>>
    var lastPruneNumPlanes: nat
    var lastPruneNumBackups: int
    /** The nodes that have been given a bound. */
    ghost var nodes: set<PlaneNode>

    constructor (n: nat, useSupportList: bool, useCache: bool, useExtraPruning: bool)
      ensures ListsOk() && Cached() && planes == [] && nodes == {} && this.n == n
    {
      this.n := n;
      useMaxPlanesSupportList, useMaxPlanesCache, useMaxPlanesExtraPruning := useSupportList, useCache, useExtraPruning;
      planes, supportList, lastPruneNumPlanes, lastPruneNumBackups := [], seq(n, _ => []), 0, -1;
      nodes := {};
    }

    ghost predicate ListsOk()
      reads this`planes, this`supportList, this`lastPruneNumBackups
    {
      && PlanesOk(planes, n) && Distinct(planes) && OldPairsOk(planes, lastPruneNumBackups)
      && (useMaxPlanesSupportList ==> SupportOk(planes, supportList, n))
    }

    ghost predicate Cached()
      reads this`planes, this`nodes, planes, nodes
    {
      useMaxPlanesCache ==> CacheOk(planes, nodes, n)
    }

    /** The list in which the planes for a belief are looked up. */
    function PlanesToCheck(b: CVector): seq<LBPlane>
      requires |b.data| > 0 && (useMaxPlanesSupportList ==> b.data[0].index < |supportList|)
      reads this`planes, this`supportList
    {
      if useMaxPlanesSupportList then supportList[b.data[0].index] else planes
    }

    lemma ChecksEveryPlane(b: CVector)
      requires ListsOk() && Belief(b, n)
      ensures |b.data| > 0 && (useMaxPlanesSupportList ==> b.data[0].index < |supportList|)
      ensures forall p | p in PlanesToCheck(b) :: p in planes && PlaneOk(p, n)
      ensures forall p | p in planes && Applicable(p, b) :: p in PlanesToCheck(b)
    {
      BeliefFilled(b, n);
      if useMaxPlanesSupportList {
        assert ListOk(planes, supportList[b.data[0].index], b.data[0].index);
        forall p | p in planes && Applicable(p, b)
          ensures p in PlanesToCheck(b)
        {
          SupportIsExact(planes, supportList, b, n, p);
        }
      }
    }

    /** The first of the best planes for a belief; looking only at the support list of its first state gives the best of
        all. */
    method GetBestLBPlaneConst(b: CVector) returns (best: LBPlane)
      requires ListsOk() && Belief(b, n)
      requires exists p :: p in planes && Applicable(p, b)
      ensures PlanesOk(planes, n) && b.size == n && IsBest(planes, b, best)
      ensures |b.data| > 0 && (useMaxPlanesSupportList ==> b.data[0].index < |supportList|)
      ensures exists i: nat :: FirstBest(PlanesToCheck(b), b, i) && best == PlanesToCheck(b)[i]
    {
      hide SupportOk, OldPairsOk, Applicable, PlaneValue, Distinct, Sum;
      ChecksEveryPlane(b);
      var list := PlanesToCheck(b);
      var ret: LBPlane? := null;
      var maxval := 0.0;
      ghost var first: nat := 0;
      for i := 0 to |list|
        invariant ret != null ==> first < i && ret == list[first]
        invariant ret != null ==> forall j | 0 <= j < first && Applicable(list[j], b) :: PlaneValue(list[j], b) < maxval
        invariant ret == null ==> forall j | 0 <= j < i :: !Applicable(list[j], b)
        invariant ret != null ==> ret in list && Applicable(ret, b) && maxval == PlaneValue(ret, b)
        invariant ret != null ==> forall j | 0 <= j < i && Applicable(list[j], b) :: PlaneValue(list[j], b) <= maxval
      {
        var al := list[i];
        assert al in list;
        var applicable := IsApplicable(al, b);
        if applicable {
          var val := EvalPlane(al, b);
          if ret == null || val > maxval {
            maxval, ret, first := val, al, i;
          }
        }
      }
      assert ret != null;
      best := ret;
      assert FirstBest(PlanesToCheck(b), b, first) && best == PlanesToCheck(b)[first];
    }

    method IsApplicable(al: LBPlane, b: CVector) returns (yes: bool)
      requires PlaneOk(al, n) && Belief(b, n)
      ensures yes <==> Applicable(al, b)
    {
      yes := MaskSubset(b, al.mask);
    }

    method EvalPlane(al: LBPlane, b: CVector) returns (val: real)
      requires PlaneOk(al, n) && Belief(b, n)
      ensures val == PlaneValue(al, b)
    {
      val := InnerProd(al.alpha, b);
    }

    /** Starts from the cached plane and looks only at planes that are newer than the cache entry. */
    method GetBestLBPlaneWithCache(b: CVector, currPlane: LBPlane, lastSetPlaneNumBackups: int) returns (ret: LBPlane)
      requires ListsOk() && Belief(b, n) && currPlane in planes && Applicable(currPlane, b)
      ensures PlanesOk(planes, n) && b.size == n && ret in planes && Applicable(ret, b)
      ensures ret == currPlane
        || (ret.numBackupsAtCreation >= lastSetPlaneNumBackups && PlaneValue(ret, b) > PlaneValue(currPlane, b))
      ensures forall p | p in planes && Applicable(p, b) && p.numBackupsAtCreation >= lastSetPlaneNumBackups ::
        PlaneValue(p, b) <= PlaneValue(ret, b)
    {
      hide SupportOk, OldPairsOk, Applicable, PlaneValue, Distinct, Sum;
      ChecksEveryPlane(b);
      var list := PlanesToCheck(b);
      ret := currPlane;
      var maxval := EvalPlane(currPlane, b);
      for i := 0 to |list|
        invariant ret in planes && Applicable(ret, b) && maxval == PlaneValue(ret, b) >= PlaneValue(currPlane, b)
        invariant ret == currPlane || (ret.numBackupsAtCreation >= lastSetPlaneNumBackups
                                       && maxval > PlaneValue(currPlane, b))
        invariant forall j | 0 <= j < i && Applicable(list[j], b)
          && list[j].numBackupsAtCreation >= lastSetPlaneNumBackups :: PlaneValue(list[j], b) <= maxval
      {
        var al := list[i];
        assert al in list;
        if al.numBackupsAtCreation >= lastSetPlaneNumBackups {
          var applicable := IsApplicable(al, b);
          if applicable {
            var val := EvalPlane(al, b);
            if val > maxval {
              maxval, ret := val, al;
            }
          }
        }
      }
    }

    /** Puts a plane on the list and on the support lists of the states in its mask. */
    method AddLBPlane(av: LBPlane)
      requires ListsOk() && av !in planes && PlaneOk(av, n) && av.numBackupsAtCreation > lastPruneNumBackups
      modifies this`planes, this`supportList
      ensures ListsOk() && planes == old(planes) + [av]
    {
      hide Applicable, PlaneValue, PlaneDominates, ListOk;
      ghost var before := supportList;
      if useMaxPlanesSupportList {
        ghost var d := av.mask.data;
        for j := 0 to |av.mask.data|
          modifies this`supportList
          invariant |supportList| == n
          invariant forall i | 0 <= i < n ::
            supportList[i] == if Stored(d[..j], i) then before[i] + [av] else before[i]
        {
          var k := av.mask.data[j].index;
          assert av.mask.data[j] in av.mask.data;
          StoredStep(d, j);
          supportList := supportList[k := supportList[k] + [av]];
        }
        assert d[..|d|] == d;
        SupportAfterPush(planes, before, av, supportList, n);
      }
      planes := planes + [av];
    }

    /** Takes a plane off the support lists. */
    method DropSupport(victim: LBPlane)
      requires ListsOk() && victim in planes
      modifies this`supportList
      ensures useMaxPlanesSupportList ==> |supportList| == n && forall i | 0 <= i < n ::
        supportList[i] == if victim.mask.Has(i) then Without(old(supportList[i]), victim) else old(supportList[i])
    {
      if useMaxPlanesSupportList {
        ghost var d := victim.mask.data;
        for j := 0 to |victim.mask.data|
          invariant |supportList| == n
          invariant forall i | 0 <= i < n ::
            supportList[i] == if Stored(d[..j], i) then Without(old(supportList[i]), victim) else old(supportList[i])
        {
          var k := victim.mask.data[j].index;
          assert victim.mask.data[j] in victim.mask.data;
          StoredStep(d, j);
          supportList := supportList[k := Without(supportList[k], victim)];
        }
        assert d[..|d|] == d;
      }
    }

    /** Gives the node a plane, unless the plane is worth less than the bound the node has. */
    method SetPlaneForNode(cn: PlaneNode, newPlane: LBPlane, numBackups: int, ghost live: seq<LBPlane>)
      requires Belief(cn.s, n) && PlanesOk(live, n) && newPlane in live && Applicable(newPlane, cn.s)
      requires useMaxPlanesCache ==>
        CacheOk(live, nodes, n) && (cn in nodes || (cn.bestPlane == null && cn.lbVal.None?))
      modifies this`nodes, cn
      modifies if useMaxPlanesCache && cn.bestPlane != null then {newPlane, cn.bestPlane} else {newPlane}
      ensures nodes == old(nodes) + {cn}
      ensures useMaxPlanesCache ==> CacheOk(live, nodes, n)
      ensures cn.lbVal.Some?
      ensures (!useMaxPlanesCache || old(cn.lbVal).None?
               || PlaneValue(newPlane, cn.s) >= old(cn.lbVal).value - BOUNDS_PRUNE_EPS) ==>
        cn.lbVal == Some(PlaneValue(newPlane, cn.s))
      ensures if !useMaxPlanesCache || (old(cn.lbVal).Some?
                  && PlaneValue(newPlane, cn.s) < old(cn.lbVal).value - BOUNDS_PRUNE_EPS)
              then cn.bestPlane == old(cn.bestPlane) && cn.lastSetPlaneNumBackups == old(cn.lastSetPlaneNumBackups)
                   && (useMaxPlanesCache ==> cn.lbVal == old(cn.lbVal))
              else cn.bestPlane == newPlane && cn.lastSetPlaneNumBackups == numBackups
      ensures old(cn.lbVal).Some? && useMaxPlanesCache ==> cn.lbVal.value >= old(cn.lbVal).value - BOUNDS_PRUNE_EPS
    {
      hide Belief, Applicable, PlaneValue, PlaneOk, CacheOk;
      var newLB := EvalPlane(newPlane, cn.s);
      if !useMaxPlanesCache {
        cn.lbVal := Some(newLB);
        nodes := nodes + {cn};
        return;
      }
      if cn.lbVal.Some? && newLB < cn.lbVal.value - BOUNDS_PRUNE_EPS {
        assert nodes + {cn} == nodes;
        return;
      }
      CachePlane(cn, newPlane, newLB, numBackups, live);
    }

    /** Moves the back-pointer of the node from its old plane, if any, to the new one. */
    method CachePlane(cn: PlaneNode, newPlane: LBPlane, newLB: real, numBackups: int, ghost live: seq<LBPlane>)
      requires Belief(cn.s, n) && PlaneOk(newPlane, n) && newPlane in live && Applicable(newPlane, cn.s)
      requires CacheOk(live, nodes, n) && (cn in nodes || cn.bestPlane == null) && newLB == PlaneValue(newPlane, cn.s)
      modifies this`nodes, cn
      modifies if cn.bestPlane != null then {newPlane, cn.bestPlane} else {newPlane}
      ensures nodes == old(nodes) + {cn} && CacheOk(live, nodes, n) && cn.lbVal == Some(newLB)
      ensures cn.bestPlane == newPlane && cn.lastSetPlaneNumBackups == numBackups
    {
      hide Belief, Applicable, PlaneValue, PlaneOk;
      var oldPlane := cn.bestPlane;
      if oldPlane != null {
        oldPlane.backPointers := Without(oldPlane.backPointers, cn);
      }
      cn.lbVal := Some(newLB);
      cn.bestPlane := newPlane;
      cn.lastSetPlaneNumBackups := numBackups;
      cn.forwards := 0;
      newPlane.backPointers := newPlane.backPointers + [cn];
      nodes := nodes + {cn};
      forall p | p in live
        ensures PointersOk(p, nodes)
      {
        assert old(PointersOk(p, nodes));
      }
      forall nd | nd in nodes
        ensures NodeCached(live, nd, n)
      {
        if nd != cn {
          assert old(NodeCached(live, nd, n));
        }
      }
    }

    /** Hands the nodes that cache the victim over to its dominator. */
    method ForwardPointers(victim: LBPlane, dominator: LBPlane)
      requires PlanesOk(planes, n) && CacheOk(planes, nodes, n) && Distinct(planes)
      requires victim in planes && dominator in planes && victim != dominator && PlaneDominates(dominator, victim)
      modifies dominator`backPointers, nodes`bestPlane, nodes`forwards
      ensures forall p | p in planes && p != victim :: PointersOk(p, nodes)
      ensures forall nd | nd in nodes :: nd.bestPlane != victim && NodeCached(planes, nd, n)
    {
      hide Belief, Applicable, PlaneValue, PlaneDominates, PlaneOk;
      ghost var old0 := dominator.backPointers;
      var vb := victim.backPointers;
      assert PointersOk(victim, nodes) && PointersOk(dominator, nodes);
      assert forall nd | nd in nodes :: NodeCached(planes, nd, n);
      for j := 0 to |vb|
        invariant dominator.backPointers == old0 + vb[..j]
        invariant forall nd | nd in nodes && nd in vb[..j] ::
          && nd.bestPlane == dominator && nd.lbVal == old(nd.lbVal) && nd.forwards == old(nd.forwards) + 1
        invariant forall nd | nd in nodes && nd !in vb[..j] ::
          nd.bestPlane == old(nd.bestPlane) && nd.lbVal == old(nd.lbVal) && nd.forwards == old(nd.forwards)
      {
        assert vb[j] in vb && vb[j] !in vb[..j];
        assert vb[..j + 1] == vb[..j] + [vb[j]];
        vb[j].bestPlane := dominator;
        vb[j].forwards := vb[j].forwards + 1;
        dominator.backPointers := dominator.backPointers + [vb[j]];
      }
      assert vb[..|vb|] == vb;
      forall p | p in planes && p != victim
        ensures PointersOk(p, nodes)
      {
        assert old(PointersOk(p, nodes)) && old(PointersOk(victim, nodes));
        assert forall nd | nd in old(p.backPointers) :: nd !in vb;
        if p == dominator {
          DistinctConcat(old0, vb);
        }
      }
      forall nd | nd in nodes
        ensures nd.bestPlane != victim && NodeCached(planes, nd, n)
      {
        assert old(NodeCached(planes, nd, n));
        if nd in vb {
          ForwardedValue(dominator, victim, nd.s, n);
          assert (old(nd.forwards) + 1) as real * BOUNDS_PRUNE_EPS
              == old(nd.forwards) as real * BOUNDS_PRUNE_EPS + BOUNDS_PRUNE_EPS;
        }
      }
    }

    /** Every plane on the list is in the set. */
    ghost predicate Owned(owned: set<LBPlane>)
      reads this`planes
    {
      forall p | p in planes :: p in owned
    }

    /** Deletes the plane at position `i`: a dominated one, or one that no node caches. */
    method DeletePlane(i: nat, dominator: LBPlane?, ghost owned: set<LBPlane>)
      requires ListsOk() && Cached() && i < |planes| && Owned(owned)
      requires if dominator == null then planes[i].backPointers == []
               else dominator in planes && dominator != planes[i] && PlaneDominates(dominator, planes[i])
      modifies this`planes, this`supportList, owned, nodes`bestPlane, nodes`forwards
      ensures ListsOk() && Cached() && planes == old(planes[..i] + planes[i + 1..]) && Owned(owned)
    {
      hide Belief, PlaneDominates, PlaneOk, Applicable, PlaneValue, SupportOk, OldPairsOk;
      var victim := planes[i];
      ghost var before, supportBefore := planes, supportList;
      PlanesAfterRemoval(planes, i, lastPruneNumBackups, n);
      DropSupport(victim);
      if useMaxPlanesCache {
        if dominator != null {
          ForwardPointers(victim, dominator);
        }
      }
      planes := planes[..i] + planes[i + 1..];
      if useMaxPlanesSupportList {
        SupportAfterRemoval(before, supportBefore, planes, supportList, victim, n);
      }
      if useMaxPlanesCache {
        forall nd | nd in nodes
          ensures NodeCached(planes, nd, n)
        {
          assert NodeCached(before, nd, n);
        }
      }
    }

    method DominatesPlane(a: LBPlane, b: LBPlane) returns (dominates: bool)
      requires PlaneOk(a, n) && PlaneOk(b, n)
      ensures dominates <==> PlaneDominates(a, b)
    {
      var subset := MaskSubset(b.mask, a.mask);
      if !subset {
        return false;
      }
      dominates := Dominates(a.alpha, b.alpha, BOUNDS_PRUNE_EPS);
    }

    /** What pruning may have cost since it started with the list `start`. */
    ghost predicate Cost(start: seq<LBPlane>)
      reads this`planes
    {
      |planes| <= |start| && (!useMaxPlanesExtraPruning ==> LossWithin(|start| - |planes|, start, planes))
    }

    /** Deletes a dominated plane. */
    method DeleteDominated(i: nat, dominator: LBPlane, ghost start: seq<LBPlane>, ghost owned: set<LBPlane>)
      requires ListsOk() && Cached() && i < |planes| && Cost(start) && Owned(owned)
      requires dominator in planes && dominator != planes[i] && PlaneDominates(dominator, planes[i])
      modifies this`planes, this`supportList, owned, nodes`bestPlane, nodes`forwards
      ensures ListsOk() && Cached() && planes == old(planes[..i] + planes[i + 1..]) && Cost(start) && Owned(owned)
    {
      hide PlaneDominates, PlaneOk, CacheOk, OldPairsOk, SupportOk, LossWithin;
      ghost var before := planes;
      RemovedAt(planes, i);
      DeletePlane(i, dominator, owned);
      if !useMaxPlanesExtraPruning {
        LossStep(|start| - |before|, start, before, planes, dominator, before[i]);
      }
    }

    /** Compares the candidate at position `c0` with the members before it. Members it dominates go; if a member
        dominates it, the candidate goes and the winner moves to the front. */
    method CompareCandidate(c0: nat, ghost start: seq<LBPlane>, ghost owned: set<LBPlane>) returns (c: nat, kept: bool)
      requires ListsOk() && Cached() && c0 < |planes| && Cost(start) && NoDomination(planes[..c0]) && Owned(owned)
      modifies this`planes, this`supportList, owned, nodes`bestPlane, nodes`forwards
      ensures ListsOk() && Cached() && Cost(start) && Owned(owned)
      ensures c <= |planes| && |planes| - c == |old(planes)| - c0 - if kept then 0 else 1
      ensures kept ==> c < |planes| && NoDomination(planes[..c + 1])
      ensures !kept ==> NoDomination(planes[..c])
    {
      hide PlaneDominates, PlaneOk, Cost, CacheOk, SupportOk;
      var candidate := planes[c0];
      c := c0;
      var m := 0;
      while m < c
        invariant m <= c < |planes| && planes[c] == candidate && |planes| - c == |old(planes)| - c0
        invariant ListsOk() && Cached() && Cost(start) && Owned(owned)
        invariant NoDomination(planes[..c]) && nodes == old(nodes)
        invariant forall j | 0 <= j < m :: Unrelated(planes[j], candidate)
        decreases c - m
      {
        var member := planes[m];
        assert planes[m] != planes[c];
        assert PlaneOk(candidate, n) && PlaneOk(member, n);
        if candidate.numBackupsAtCreation <= lastPruneNumBackups && member.numBackupsAtCreation <= lastPruneNumBackups {
          m := m + 1;
        } else {
          var wins := DominatesPlane(candidate, member);
          if wins {
            PrefixAfterRemoval(planes, m, c);
            DeleteDominated(m, candidate, start, owned);
            c := c - 1;
          } else {
            var loses := DominatesPlane(member, candidate);
            if loses {
              KeepPrefix(planes, m, c);
              DeleteDominated(c, member, start, owned);
              MoveWinner(m, c, start, owned);
              kept := false;
              return;
            }
            m := m + 1;
          }
        }
      }
      kept := true;
      PrefixGrows(planes, c);
    }

    method MoveWinner(m: nat, c: nat, ghost start: seq<LBPlane>, ghost owned: set<LBPlane>)
      requires ListsOk() && Cached() && m < c <= |planes| && Cost(start) && NoDomination(planes[..c]) && Owned(owned)
      modifies this`planes
      ensures ListsOk() && Cached() && |planes| == |old(planes)|
      ensures Cost(start) && NoDomination(planes[..c]) && Owned(owned)
    {
      hide PlaneDominates, PlaneOk, SupportOk, Within;
      ghost var before := planes;
      MovedToFront(planes, m, c);
      planes := MoveToFront(planes, m);
      if useMaxPlanesSupportList {
        SupportSame(before, planes, supportList, n);
      }
      if useMaxPlanesCache {
        forall nd | nd in nodes
          ensures NodeCached(planes, nd, n)
        {
          assert NodeCached(before, nd, n);
        }
      }
    }

    /** Handles the candidate at position `c0`: drops it if it is unused, or compares it with the members. */
    method PruneStep(c0: nat, ghost start: seq<LBPlane>, ghost owned: set<LBPlane>) returns (c: nat)
      requires ListsOk() && Cached() && c0 < |planes| && Cost(start) && NoDomination(planes[..c0]) && Owned(owned)
      modifies this`planes, this`supportList, owned, nodes`bestPlane, nodes`forwards
      ensures ListsOk() && Cached() && Cost(start) && Owned(owned)
      ensures c <= |planes| && NoDomination(planes[..c]) && |planes| - c == |old(planes)| - c0 - 1
    {
      hide PlaneOk, CacheOk, SupportOk, Within, OldPairsOk, NoDomination, Distinct, LossWithin, PlanesOk;
      c := c0;
      if useMaxPlanesExtraPruning && planes[c].backPointers == [] {
        KeepTail(planes, c);
        DeletePlane(c, null, owned);
      } else {
        var kept;
        c, kept := CompareCandidate(c, start, owned);
        if kept {
          c := c + 1;
        }
      }
    }

    /** Prunes the planes. Afterwards no plane dominates another; and unless planes are also dropped for being unused,
        every plane there was has a stand-in within one tolerance for each plane deleted. */
    method PrunePlanes(numBackups: int)
      requires ListsOk() && Cached()
      modifies this`planes, this`supportList, this`lastPruneNumPlanes, this`lastPruneNumBackups
      modifies planes, nodes`bestPlane, nodes`forwards
      ensures ListsOk() && Cached() && NoDomination(planes) && Cost(old(planes))
      ensures forall p | p in planes :: p in old(planes)
      ensures lastPruneNumPlanes == |planes| && lastPruneNumBackups == numBackups
    {
      hide PlaneOk, CacheOk, SupportOk, Within, OldPairsOk, NoDomination, Distinct, LossWithin, PlanesOk;
      ghost var start := planes;
      ghost var owned := set p | p in planes;
      NoLossYet(start);
      NoneYet(planes);
      var c: nat := 0;
      while c < |planes|
        invariant c <= |planes| && ListsOk() && Cached() && Cost(start) && NoDomination(planes[..c])
        invariant Owned(owned) && nodes == old(nodes)
        decreases |planes| - c
      {
        c := PruneStep(c, start, owned);
      }
      assert planes[..c] == planes;
      NoDominationOld(planes, numBackups);
      lastPruneNumPlanes := |planes|;
      lastPruneNumBackups := numBackups;
    }

    lemma NoLossYet(start: seq<LBPlane>)
      ensures LossWithin(0, start, start)
    {
      forall p | p in start
        ensures Within(0, p, p)
      {
        WithinRefl(0, p);
      }
    }

    /** Prunes once the list has outgrown what the last pruning left. */
    method MaybePrune(numBackups: int)
      requires ListsOk() && Cached()
      modifies this`planes, this`supportList, this`lastPruneNumPlanes, this`lastPruneNumBackups
      modifies planes, nodes`bestPlane, nodes`forwards
      ensures ListsOk() && Cached() && Cost(old(planes))
      ensures forall p | p in planes :: p in old(planes)
      ensures if |old(planes)| > NextPruneNumPlanes(old(lastPruneNumPlanes)) then NoDomination(planes)
              else planes == old(planes)
    {
      hide ListsOk, Cached, NoDomination, LossWithin, Within;
      NoLossYet(planes);
      if |planes| > NextPruneNumPlanes(lastPruneNumPlanes) {
        PrunePlanes(numBackups);
      }
    }

    /** The bound of a node that has just been created. */
    method InitNodeBound(cn: PlaneNode, numBackups: int)
      requires ListsOk() && Cached() && Belief(cn.s, n) && cn !in nodes && cn.bestPlane == null && cn.lbVal.None?
      requires exists p :: p in planes && Applicable(p, cn.s)
      modifies this`nodes, cn, planes
      ensures ListsOk() && Cached() && nodes == old(nodes) + {cn}
      ensures cn.s.size == n && exists p :: IsBest(planes, cn.s, p) && cn.lbVal == Some(PlaneValue(p, cn.s))
      ensures forall value | PlanesSound(value, planes, n) :: cn.lbVal.value <= value(cn.s)
    {
      hide SupportOk, OldPairsOk, Applicable, PlaneValue, NodeCached, Belief;
      var best := GetBestLBPlaneConst(cn.s);
      SetPlaneForNode(cn, best, numBackups, planes);
    }

    /** A backup of a node: the plane computed for it, masked by its belief, is cached, listed, and the list pruned. */
    method Update(cn: PlaneNode, alpha: CVector, action: int, numBackups: int) returns (ghost newPlane: LBPlane)
      requires ListsOk() && Cached() && Belief(cn.s, n) && cn in nodes && alpha.Valid() && alpha.size == n
      requires numBackups > lastPruneNumBackups
      modifies this`planes, this`supportList, this`lastPruneNumPlanes, this`lastPruneNumBackups, this`nodes
      modifies planes, nodes
      ensures ListsOk() && Cached() && nodes == old(nodes)
      ensures useMaxPlanesCache && old(cn.lbVal).Some? ==>
        cn.lbVal.Some? && cn.lbVal.value >= old(cn.lbVal).value - BOUNDS_PRUNE_EPS
      ensures fresh(newPlane) && newPlane.alpha == alpha && newPlane.action == action
      ensures newPlane.mask == cn.s && newPlane.numBackupsAtCreation == numBackups
      ensures forall value | old(PlanesSound(value, planes, n)) && PlaneSound(value, newPlane, n) ::
        PlanesSound(value, planes, n)
      ensures Cost(old(planes) + [newPlane]) && forall p | p in planes :: p in old(planes) + [newPlane]
      ensures if |old(planes)| + 1 > NextPruneNumPlanes(old(lastPruneNumPlanes)) then NoDomination(planes)
              else planes == old(planes) + [newPlane]
      ensures cn.s.size == n && (!useMaxPlanesCache || old(cn.lbVal).None?
              || PlaneValue(newPlane, cn.s) >= old(cn.lbVal).value - BOUNDS_PRUNE_EPS) ==>
        cn.lbVal == Some(PlaneValue(newPlane, cn.s))
    {
      hide SupportOk, OldPairsOk, PlaneValue, CacheOk, NodeCached, Belief, Cost, Applicable, CVector.Valid;
      hide NoDomination, PlaneSound;
      BeliefSize(cn.s, n);
      var added := new LBPlane(alpha, action, cn.s, numBackups);
      newPlane := added;
      OwnMask(added);
      ghost var live := planes + [added];
      if useMaxPlanesCache {
        CachedIsLive(planes, cn, nodes, n);
        CacheWithNew(planes, added, nodes, n);
      }
      SetPlaneForNode(cn, added, numBackups, live);
      AddLBPlane(added);
      MaybePrune(numBackups);
    }
  }

  lemma NoneYet(planes: seq<LBPlane>)
    ensures NoDomination(planes[..0])
  {
  }

  lemma NoDominationOld(planes: seq<LBPlane>, lastPrune: int)
    requires NoDomination(planes)
    ensures OldPairsOk(planes, lastPrune)
  {
  }

  /** A plane whose mask is a belief applies to that belief. */
  lemma OwnMask(p: LBPlane)
    ensures Applicable(p, p.mask)
  {
  }

  lemma CachedIsLive(planes: seq<LBPlane>, nd: PlaneNode, nodes: set<PlaneNode>, n: nat)
    requires CacheOk(planes, nodes, n) && nd in nodes
    ensures nd.bestPlane != null && nd.bestPlane in planes
  {
    assert NodeCached(planes, nd, n);
  }

  lemma KeepTail(planes: seq<LBPlane>, c: nat)
    requires c < |planes|
    ensures (planes[..c] + planes[c + 1..])[..c] == planes[..c]
  {
  }

  /** A plane that no node caches can join the list. */
  lemma CacheWithNew(planes: seq<LBPlane>, p: LBPlane, nodes: set<PlaneNode>, n: nat)
    requires CacheOk(planes, nodes, n) && p.backPointers == []
    ensures CacheOk(planes + [p], nodes, n)
  {
    hide Belief, PlaneValue, Applicable;
    forall nd | nd in nodes
      ensures NodeCached(planes + [p], nd, n)
    {
      assert NodeCached(planes, nd, n);
    }
  }
}
