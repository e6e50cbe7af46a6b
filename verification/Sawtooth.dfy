/** The sawtooth upper bound of a POMDP: corner values plus a pruned list of belief/value points. */
module SawtoothBound {
  import opened Wrappers
  import opened RealArith
  import opened SparseVectors
  import opened Beliefs
  import opened PointerLists
  import BoundPairs

  const CORNER_EPS: real := 0.000001
  const PRUNE_PTS_INCREMENT: nat := 10
  const PRUNE_PTS_FACTOR: nat := 2

  class BVPair {
    const b: CVector
    const v: real
    const numBackupsAtCreation: int
    var innerCornerCache: real

    constructor (b: CVector, v: real, numBackups: int)
      ensures this.b == b && this.v == v && numBackupsAtCreation == numBackups
    {
      this.b, this.v, numBackupsAtCreation, innerCornerCache := b, v, numBackups, 0.0;
    }
  }

  // ---------- The value of a set of points ----------

  /** The plane through the corner values. */
  ghost function Plane(corners: seq<real>, b: CVector): real
    requires |corners| == b.size
  {
    Dot(Dense(b), corners, b.size)
  }

  /** The bound that the point (c, v) induces at `b`. A point on or above the plane gives no more than the plane. */
  ghost function PointBound(corners: seq<real>, c: CVector, v: real, b: CVector): real
    requires Belief(b, |corners|) && Belief(c, |corners|)
  {
    if Plane(corners, c) <= v then Plane(corners, b)
    else Plane(corners, b) - Times(Ratio(b, c, |corners|), Plane(corners, c) - v)
  }

  ghost predicate PointsOk(points: seq<BVPair>, n: nat) {
    forall p | p in points :: Belief(p.b, n)
  }

  /** The least of the plane and the bounds induced by the listed points. */
  ghost function Bound(corners: seq<real>, points: seq<BVPair>, b: CVector): real
    requires Belief(b, |corners|) && PointsOk(points, |corners|)
  {
    if points == [] then Plane(corners, b)
    else
      var last := points[|points| - 1];
      Min(Bound(corners, points[..|points| - 1], b), PointBound(corners, last.b, last.v, b))
  }

  lemma PointBelowPlane(corners: seq<real>, c: CVector, v: real, b: CVector)
    requires Belief(b, |corners|) && Belief(c, |corners|)
    ensures PointBound(corners, c, v, b) <= Plane(corners, b)
    ensures Ratio(b, c, |corners|) == 0.0 ==> PointBound(corners, c, v, b) == Plane(corners, b)
  {
    if Plane(corners, c) > v {
      RatioRange(b, c, |corners|);
      TimesMono(Ratio(b, c, |corners|), 0.0, Plane(corners, c) - v);
      TimesIs(Ratio(b, c, |corners|), 0.0);
      TimesIs(0.0, Plane(corners, c) - v);
    }
  }

  lemma {:induction false} BoundIsBelow(corners: seq<real>, points: seq<BVPair>, b: CVector, p: BVPair)
    requires Belief(b, |corners|) && PointsOk(points, |corners|)
    ensures Bound(corners, points, b) <= Plane(corners, b)
    ensures p in points ==> Bound(corners, points, b) <= PointBound(corners, p.b, p.v, b)
  {
    hide Plane, PointBound, Belief;
    if points != [] {
      BoundIsBelow(corners, points[..|points| - 1], b, p);
    }
  }

  lemma {:induction false} BoundIsGreatest(corners: seq<real>, points: seq<BVPair>, b: CVector, x: real)
    requires Belief(b, |corners|) && PointsOk(points, |corners|)
    requires x <= Plane(corners, b)
    requires forall p | p in points :: x <= PointBound(corners, p.b, p.v, b)
    ensures x <= Bound(corners, points, b)
  {
    hide Plane, PointBound, Belief;
    if points != [] {
      assert points[|points| - 1] in points;
      BoundIsGreatest(corners, points[..|points| - 1], b, x);
    }
  }

  // ---------- Domination ----------

  /** At `y`, the point `x` gives a bound below `y`'s own value plus the pruning tolerance. */
  ghost predicate PointDominates(corners: seq<real>, x: BVPair, y: BVPair)
    requires Belief(x.b, |corners|) && Belief(y.b, |corners|)
  {
    && Plane(corners, x.b) > x.v
    && (forall k: nat :: x.b.Has(k) ==> y.b.Has(k))
    && PointBound(corners, x.b, x.v, y.b) < y.v + BOUNDS_PRUNE_EPS
  }

  /** Pruning compares `y` with `x`: with support lists, only if `x` has the first state of `y`. */
  ghost predicate Rivals(useSupport: bool, x: BVPair, y: BVPair) {
    useSupport ==> |y.b.data| > 0 && x.b.Has(First(y.b))
  }

  /** Neither point was created after the last pruning, which is why the next one skips the pair. Nothing says that
      the pair was compared: a point may be created at the very backup count of a pruning, after that pruning. */
  ghost predicate Skipped(lastPrune: int, x: BVPair, y: BVPair) {
    x.numBackupsAtCreation <= lastPrune && y.numBackupsAtCreation <= lastPrune
  }

  /** `x` does not dominate the other point `y`, or pruning skips the pair. */
  ghost predicate Spares(corners: seq<real>, lastPrune: int, x: BVPair, y: BVPair)
    requires Belief(x.b, |corners|) && Belief(y.b, |corners|)
  {
    x == y || Skipped(lastPrune, x, y) || !PointDominates(corners, x, y)
  }

  /** No pair that pruning skips needs pruning. */
  ghost predicate SkippedPairsOk(corners: seq<real>, useSupport: bool, points: seq<BVPair>, lastPrune: int)
    requires PointsOk(points, |corners|)
  {
    forall x, y | x in points && y in points && x != y && Rivals(useSupport, x, y) && Skipped(lastPrune, x, y) ::
      !PointDominates(corners, x, y)
  }

  /** No pair at all needs pruning. */
  ghost predicate PairsOk(corners: seq<real>, useSupport: bool, points: seq<BVPair>)
    requires PointsOk(points, |corners|)
  {
    forall x, y | x in points && y in points && x != y && Rivals(useSupport, x, y) :: !PointDominates(corners, x, y)
  }

  /** A rival dominates `y`, and pruning does not skip the pair. */
  ghost predicate HasDominator(corners: seq<real>, useSupport: bool, points: seq<BVPair>, lastPrune: int, y: BVPair)
    requires PointsOk(points, |corners|) && Belief(y.b, |corners|)
  {
    exists x :: x in points && x != y && Rivals(useSupport, x, y) && !Skipped(lastPrune, x, y)
                && PointDominates(corners, x, y)
  }

  /** Every rival spares `y`. */
  ghost predicate Undominated(corners: seq<real>, useSupport: bool, points: seq<BVPair>, lastPrune: int, y: BVPair)
    requires PointsOk(points, |corners|)
  {
    forall x | x in points && y in points && Rivals(useSupport, x, y) :: Spares(corners, lastPrune, x, y)
  }

  /** Domination at one point is domination everywhere. */
  lemma DominatesEverywhere(corners: seq<real>, x: BVPair, y: BVPair, b: CVector)
    requires Belief(x.b, |corners|) && Belief(y.b, |corners|) && Belief(b, |corners|)
    requires PointDominates(corners, x, y)
    ensures PointBound(corners, x.b, x.v, b) <= PointBound(corners, y.b, y.v, b) + BOUNDS_PRUNE_EPS
  {
    var n := |corners|;
    PointBelowPlane(corners, x.b, x.v, b);
    if Plane(corners, y.b) > y.v {
      var atY, chain, atX := Ratio(b, y.b, n), Ratio(y.b, x.b, n), Ratio(b, x.b, n);
      var dx, dy := Plane(corners, x.b) - x.v, Plane(corners, y.b) - y.v;
      RatioRange(b, y.b, n);
      RatioChain(b, y.b, x.b, n);
      hide Ratio, Belief, Plane, Times, RatioUpTo;
      assert Times(chain, dx) > dy - BOUNDS_PRUNE_EPS;
      TimesMonoLeft(Times(atY, chain), atX, dx);
      TimesAssoc(atY, chain, dx);
      TimesMono(atY, dy - BOUNDS_PRUNE_EPS, Times(chain, dx));
      TimesMinus(atY, dy, BOUNDS_PRUNE_EPS);
      TimesMonoLeft(atY, 1.0, BOUNDS_PRUNE_EPS);
      UnitTimes(BOUNDS_PRUNE_EPS);
    }
  }

  function First(b: CVector): nat
    requires |b.data| > 0
  {
    b.data[0].index
  }

  lemma FirstIsLeast(b: CVector, k: nat)
    requires b.Valid() && b.Has(k)
    ensures First(b) <= k
  {
    var i :| 0 <= i < |b.data| && b.data[i].index == k;
    if i > 0 {
      assert b.data[0].index < b.data[i].index;
    }
  }

  /** A point that says something about `b` and is found in the list for the first state of `b` has that same
      first state. */
  lemma UsefulSharesFirst(b: CVector, c: CVector, n: nat)
    requires Belief(b, n) && Belief(c, n) && Ratio(b, c, n) != 0.0
    requires |b.data| > 0 && |c.data| > 0 && c.Has(First(b))
    ensures First(c) == First(b)
  {
    BeliefFilled(c, n);
    if !b.Has(First(c)) {
      RatioVanishes(b, c, n, First(c));
    }
    FirstIsLeast(b, First(c));
    FirstIsLeast(c, First(b));
  }

  /** Removing `y` from a list costs at most the tolerance, if `y` is dominated by a point that stays or tells
      nothing about `b`. */
  lemma RemovalCost(corners: seq<real>, before: seq<BVPair>, after: seq<BVPair>, x: BVPair, y: BVPair, b: CVector)
    requires Belief(b, |corners|) && PointsOk(before, |corners|) && PointsOk(after, |corners|)
    requires Belief(x.b, |corners|) && Belief(y.b, |corners|) && PointDominates(corners, x, y)
    requires forall p | p in before && p != y :: p in after
    requires x in after || y !in before || Ratio(b, y.b, |corners|) == 0.0
    ensures Bound(corners, after, b) <= Bound(corners, before, b) + BOUNDS_PRUNE_EPS
  {
    var low := Bound(corners, after, b);
    BoundIsBelow(corners, after, b, x);
    forall p | p in before
      ensures low - BOUNDS_PRUNE_EPS <= PointBound(corners, p.b, p.v, b)
    {
      hide Bound, Plane, Ratio, PointDominates;
      BoundIsBelow(corners, after, b, p);
      if p == y {
        PointBelowPlane(corners, y.b, y.v, b);
        if x in after {
          DominatesEverywhere(corners, x, y, b);
        }
      }
    }
    BoundIsGreatest(corners, before, b, low - BOUNDS_PRUNE_EPS);
  }

  // ---------- Soundness ----------

  /** A point is worth at most its value at its own belief. */
  lemma OwnBound(corners: seq<real>, b: CVector, v: real)
    requires Belief(b, |corners|)
    ensures PointBound(corners, b, v, b) <= v
  {
    BeliefSize(b, |corners|);
    hide Plane, Belief, Ratio;
    var r := Ratio(b, b, |corners|);
    var k := RatioTight(b, b, |corners|);
    UnitFactor(r, b.Get(k));
    TimesIs(r, Plane(corners, b) - v);
  }

  lemma UnitFactor(r: real, x: real)
    requires x > 0.0 && Times(r, x) == x
    ensures r == 1.0
  {
    assert (r - 1.0) * x == 0.0;
  }

  lemma UndominatedKept(corners: seq<real>, useSupport: bool, before: seq<BVPair>, after: seq<BVPair>, lastPrune: int,
      y: BVPair)
    requires PointsOk(before, |corners|) && PointsOk(after, |corners|) && forall p | p in after :: p in before
    requires Undominated(corners, useSupport, before, lastPrune, y)
    ensures Undominated(corners, useSupport, after, lastPrune, y)
  {
    hide Belief, Spares, Rivals;
  }

  function NextPruneNumPts(last: nat): nat {
    if last + PRUNE_PTS_INCREMENT >= last * PRUNE_PTS_FACTOR then last + PRUNE_PTS_INCREMENT
    else last * PRUNE_PTS_FACTOR
  }

  /** Every listed point lies above the value function. */
  ghost predicate PointsSound(value: seq<real> -> real, points: seq<BVPair>) {
    forall p | p in points :: value(Dense(p.b)) <= p.v
  }

  lemma RatioFits(b: CVector, c: CVector, n: nat)
    requires Belief(b, n) && Belief(c, n)
    ensures FitsUnder(Ratio(b, c, n), Dense(c), Dense(b))
  {
    forall k | 0 <= k < n
      ensures Times(Ratio(b, c, n), Dense(c)[k]) <= Dense(b)[k]
    {
      RatioBelow(b, c, n, k);
    }
  }

  lemma PlaneIsSound(value: seq<real> -> real, corners: seq<real>, b: CVector)
    requires Belief(b, |corners|)
    requires Sublinear(value, |corners|) && CornersValid(value, corners, |corners|)
    ensures value(Dense(b)) <= Plane(corners, b)
  {
    DenseBelief(b, |corners|);
    assert Truncated(Dense(b), |corners|) == Dense(b);
    BelowCorners(value, Dense(b), corners, |corners|);
  }

  lemma PointIsSound(value: seq<real> -> real, corners: seq<real>, c: CVector, v: real, b: CVector)
    requires Belief(b, |corners|) && Belief(c, |corners|)
    requires Sublinear(value, |corners|) && CornersValid(value, corners, |corners|) && value(Dense(c)) <= v
    ensures value(Dense(b)) <= PointBound(corners, c, v, b)
  {
    hide Dense, Dot, Times, Sublinear, CornersValid, Ratio, Belief, Plane, At;
    PlaneIsSound(value, corners, b);
    RatioRange(b, c, |corners|);
    UnderRatio(value, corners, c, v, b, Ratio(b, c, |corners|));
  }

  /** The bound of a point, written with the ratio. */
  lemma UnderRatio(value: seq<real> -> real, corners: seq<real>, c: CVector, v: real, b: CVector, r: real)
    requires Belief(b, |corners|) && Belief(c, |corners|) && r == Ratio(b, c, |corners|) >= 0.0
    requires Sublinear(value, |corners|) && CornersValid(value, corners, |corners|) && value(Dense(c)) <= v
    ensures value(Dense(b)) <= Plane(corners, b) - Times(r, Plane(corners, c) - v)
  {
    hide *;
    var n := |corners|;
    DenseBelief(b, n);
    DenseBelief(c, n);
    RatioFits(b, c, n);
    PlaneIs(corners, b);
    PlaneIs(corners, c);
    PointBounds(value, Dense(b), r, Dense(c), v, corners);
    TimesMinus(r, v, Plane(corners, c));
    TimesMinus(r, Plane(corners, c), v);
  }

  lemma DenseBelief(b: CVector, n: nat)
    requires Belief(b, n)
    ensures NonNegative(Dense(b)) && b.size == n
  {
    forall k: nat | k < n
      ensures Dense(b)[k] >= 0.0
    {
      BeliefSign(b, n, k);
    }
  }

  /** The bound lies above the value function wherever the corners and the points do. */
  lemma BoundIsSound(value: seq<real> -> real, corners: seq<real>, points: seq<BVPair>, b: CVector)
    requires Belief(b, |corners|) && PointsOk(points, |corners|)
    requires Sublinear(value, |corners|) && CornersValid(value, corners, |corners|) && PointsSound(value, points)
    ensures value(Dense(b)) <= Bound(corners, points, b)
  {
    hide Bound, Plane, PointBound, Ratio;
    PlaneIsSound(value, corners, b);
    forall p | p in points
      ensures value(Dense(b)) <= PointBound(corners, p.b, p.v, b)
    {
      PointIsSound(value, corners, p.b, p.v, b);
    }
    BoundIsGreatest(corners, points, b, value(Dense(b)));
  }

  lemma PlaneIs(corners: seq<real>, b: CVector)
    requires |corners| == b.size
    ensures Plane(corners, b) == Dot(Dense(b), corners, b.size)
  {
  }

  /** The list in which the points that matter for `b` are found. */
  ghost function Candidates(useSupport: bool, pts: seq<BVPair>, support: seq<seq<BVPair>>, b: CVector): seq<BVPair>
    requires useSupport ==> |b.data| > 0 && First(b) < |support|
  {
    if useSupport then support[First(b)] else pts
  }

  /** The support list of state `i` holds exactly the points that store state `i`. */
  ghost predicate ListOk(pts: seq<BVPair>, list: seq<BVPair>, i: nat) {
    && Distinct(list)
    && (forall p | p in list :: p in pts && p.b.Has(i))
    && (forall p | p in pts && p.b.Has(i) :: p in list)
  }

  ghost predicate SupportOk(pts: seq<BVPair>, support: seq<seq<BVPair>>, n: nat) {
    |support| == n && forall i | 0 <= i < n :: ListOk(pts, support[i], i)
  }

  lemma RivalInList(pts: seq<BVPair>, support: seq<seq<BVPair>>, x: BVPair, y: BVPair, n: nat)
    requires SupportOk(pts, support, n) && x in pts
    requires |y.b.data| > 0 && x.b.Has(First(y.b)) && First(y.b) < n
    ensures First(y.b) < |support| && x in support[First(y.b)]
  {
    assert ListOk(pts, support[First(y.b)], First(y.b));
  }

  lemma RatioUpToStep(b: CVector, c: CVector, n: nat, i: nat)
    requires Belief(b, n) && Belief(c, n) && i < |c.data|
    ensures c.data[i].value > 0.0 && c.Has(c.data[i].index)
    ensures RatioUpTo(b, c, i + 1) ==
      (var q := Over(b.Get(c.data[i].index), c.data[i].value); if i == 0 then q else Min(RatioUpTo(b, c, i), q))
  {
    EntryOf(c, n, i);
  }

  /** The loop over the entries of `c` with a cursor into `b`: the min-ratio, None if `b` lacks a state of `c`. */
  method MinRatio(b: CVector, c: CVector, ghost n: nat) returns (minRatio: Option<real>)
    requires Belief(b, n) && Belief(c, n)
    ensures minRatio.Some? ==> minRatio.value == Ratio(b, c, n)
    ensures minRatio.Some? <==> forall k: nat :: c.Has(k) ==> b.Has(k)
  {
    RatioIs(b, c, n);
    assert b.Valid();
    hide Ratio, RatioUpTo, Belief, CVector.Get, CVector.Has, Over, Min;
    minRatio := None;
    var bi := 0;
    for ci := 0 to |c.data|
      invariant bi <= |b.data| && (ci < |c.data| ==> SparseVectors.Before(b.data, bi, c.data[ci].index))
      invariant ci == 0 <==> minRatio.None?
      invariant ci > 0 ==> minRatio == Some(RatioUpTo(b, c, ci))
      invariant forall j | 0 <= j < ci :: b.Has(c.data[j].index)
    {
      RatioUpToStep(b, c, n, ci);
      SortedNext(c, n, ci);
      if c.data[ci].value != 0.0 {
        bi := Advance(b, bi, c.data[ci].index);
        if bi == |b.data| || b.data[bi].index > c.data[ci].index {
          return None;
        }
        var ratio := Over(b.data[bi].value, c.data[ci].value);
        minRatio := Some(if minRatio.None? then ratio else Min(minRatio.value, ratio));
      }
    }
    AllStored(b, c, n);
  }

  /** The upper bound that the point (c, cVal) induces on `b`; None stands for no bound. */
  method GetBVValue(ghost corners: seq<real>, b: CVector, c: CVector, cVal: real,
                    innerCornerPtsB: real, innerCornerPtsC: real)
    returns (bound: Option<real>)
    requires Belief(b, |corners|) && Belief(c, |corners|)
    requires innerCornerPtsB == Plane(corners, b) && innerCornerPtsC == Plane(corners, c)
    ensures bound.Some? ==> bound.value == PointBound(corners, c, cVal, b)
    ensures bound.None? ==> PointBound(corners, c, cVal, b) == Plane(corners, b)
    ensures bound.Some? <==> innerCornerPtsC > cVal && forall k: nat :: c.Has(k) ==> b.Has(k)
  {
    BVValueIs(corners, b, c, cVal);
    if innerCornerPtsC <= cVal {
      return None;
    }
    hide *;
    var minRatio := MinRatio(b, c, |corners|);
    if minRatio.None? {
      ghost var k: nat :| c.Has(k) && !b.Has(k);
      MissingState(corners, c, cVal, b, k);
      return None;
    }
    // the correction of ratios above 1, and the error exit for them, cannot be reached
    RatioRange(b, c, |corners|);
    assert minRatio.value <= 1.0;
    return Some(innerCornerPtsB + Times(minRatio.value, cVal - innerCornerPtsC));
  }

  lemma BVValueIs(corners: seq<real>, b: CVector, c: CVector, v: real)
    requires Belief(b, |corners|) && Belief(c, |corners|)
    ensures b.size == c.size == |corners|
    ensures Plane(corners, c) <= v ==> PointBound(corners, c, v, b) == Plane(corners, b)
    ensures Plane(corners, c) > v ==>
      PointBound(corners, c, v, b) == Plane(corners, b) + Times(Ratio(b, c, |corners|), v - Plane(corners, c))
  {
    BeliefSize(b, |corners|);
    BeliefSize(c, |corners|);
    hide Plane, Ratio, Belief, Times;
    TimesMinus(Ratio(b, c, |corners|), v, Plane(corners, c));
    TimesMinus(Ratio(b, c, |corners|), Plane(corners, c), v);
  }

  lemma RatioIs(b: CVector, c: CVector, n: nat)
    requires Belief(b, n) && Belief(c, n)
    ensures |c.data| > 0 && (forall e | e in c.data :: e.value > 0.0)
    ensures Ratio(b, c, n) == RatioUpTo(b, c, |c.data|)
  {
    BeliefFilled(c, n);
  }

  lemma SortedNext(c: CVector, n: nat, i: nat)
    requires Belief(c, n) && i < |c.data|
    ensures i + 1 < |c.data| ==> c.data[i].index < c.data[i + 1].index
  {
  }

  lemma AllStored(b: CVector, c: CVector, n: nat)
    requires forall j | 0 <= j < |c.data| :: b.Has(c.data[j].index)
    ensures forall k: nat :: c.Has(k) ==> b.Has(k)
  {
    forall k: nat | c.Has(k)
      ensures b.Has(k)
    {
      var j :| 0 <= j < |c.data| && c.data[j].index == k;
    }
  }

  lemma MissingState(corners: seq<real>, c: CVector, v: real, b: CVector, k: nat)
    requires Belief(b, |corners|) && Belief(c, |corners|) && c.Has(k) && !b.Has(k)
    ensures PointBound(corners, c, v, b) == Plane(corners, b)
  {
    RatioVanishes(b, c, |corners|, k);
    PointBelowPlane(corners, c, v, b);
  }

  // ---------- Pruning, on snapshots of the lists ----------

  lemma CandidatesOk(useSupport: bool, pts: seq<BVPair>, support: seq<seq<BVPair>>, b: CVector, n: nat)
    requires Belief(b, n) && PointsOk(pts, n) && (useSupport ==> SupportOk(pts, support, n))
    ensures |b.data| > 0 && First(b) < n
    ensures PointsOk(Candidates(useSupport, pts, support, b), n)
    ensures forall p | p in Candidates(useSupport, pts, support, b) :: p in pts
  {
    BeliefFilled(b, n);
    if useSupport {
      assert ListOk(pts, support[First(b)], First(b));
    }
  }

  /** The value looked up for a belief. */
  ghost function LookedUp(corners: seq<real>, useSupport: bool, pts: seq<BVPair>, support: seq<seq<BVPair>>,
                          b: CVector): real
    requires Belief(b, |corners|) && PointsOk(pts, |corners|) && (useSupport ==> SupportOk(pts, support, |corners|))
  {
    CandidatesOk(useSupport, pts, support, b, |corners|);
    Bound(corners, Candidates(useSupport, pts, support, b), b)
  }

  /** Removing a dominated point raises no looked-up value by more than the tolerance: a point that matters for
      `b` shares the first state of `b`, so its dominator is on the list searched for `b`. */
  lemma DeletionCost(corners: seq<real>, useSupport: bool, pts: seq<BVPair>, support: seq<seq<BVPair>>,
                     pts': seq<BVPair>, support': seq<seq<BVPair>>, x: BVPair, y: BVPair, b: CVector)
    requires Belief(b, |corners|) && PointsOk(pts, |corners|) && PointsOk(pts', |corners|)
    requires useSupport ==> SupportOk(pts, support, |corners|) && SupportOk(pts', support', |corners|)
    requires y in pts && x in pts && x != y && Removed(pts, pts', y) && PointDominates(corners, x, y)
    requires useSupport ==> |y.b.data| > 0 && First(y.b) < |support| && x in support[First(y.b)]
    ensures LookedUp(corners, useSupport, pts', support', b)
         <= LookedUp(corners, useSupport, pts, support, b) + BOUNDS_PRUNE_EPS
    ensures Bound(corners, pts', b) <= Bound(corners, pts, b) + BOUNDS_PRUNE_EPS
  {
    var n := |corners|;
    CandidatesOk(useSupport, pts, support, b, n);
    CandidatesOk(useSupport, pts', support', b, n);
    var f := First(b);
    RemovalCost(corners, pts, pts', x, y, b);
    if useSupport {
      assert ListOk(pts, support[f], f) && ListOk(pts', support'[f], f);
      if y in support[f] && Ratio(b, y.b, n) != 0.0 {
        UsefulSharesFirst(b, y.b, n);
        assert x in support'[f];
      }
      RemovalCost(corners, support[f], support'[f], x, y, b);
    }
  }

  lemma SupportAfterRemoval(pts: seq<BVPair>, support: seq<seq<BVPair>>, pts': seq<BVPair>,
                            support': seq<seq<BVPair>>, y: BVPair, n: nat)
    requires SupportOk(pts, support, n) && Removed(pts, pts', y) && |support'| == n
    requires forall i | 0 <= i < n :: support'[i] == if y.b.Has(i) then Without(support[i], y) else support[i]
    ensures SupportOk(pts', support', n)
  {
    forall i | 0 <= i < n
      ensures ListOk(pts', support'[i], i)
    {
      assert ListOk(pts, support[i], i);
    }
  }

  lemma SupportAfterPush(pts: seq<BVPair>, support: seq<seq<BVPair>>, bv: BVPair, support': seq<seq<BVPair>>, n: nat)
    requires SupportOk(pts, support, n) && bv !in pts && |support'| == n
    requires forall i | 0 <= i < n :: support'[i] == if bv.b.Has(i) then support[i] + [bv] else support[i]
    ensures SupportOk(pts + [bv], support', n)
  {
    forall i | 0 <= i < n
      ensures ListOk(pts + [bv], support'[i], i)
    {
      assert ListOk(pts, support[i], i);
    }
  }

  /** `k` is the one state to which the belief gives more than CORNER_EPS. */
  ghost predicate NearCorner(b: CVector, k: nat) {
    b.Get(k) > CORNER_EPS && forall j: nat | j < b.size && j != k :: b.Get(j) <= CORNER_EPS
  }

  // ---------- Search nodes ----------

  datatype BeliefEdge = BeliefEdge(obsProb: real, next: CVector)

  datatype QEntry = QEntry(immediateReward: real, outcomes: seq<Option<BeliefEdge>>, ubVal: Option<real>)

  ghost predicate EdgesOk(outcomes: seq<Option<BeliefEdge>>, n: nat) {
    forall e | e in outcomes && e.Some? :: e.value.obsProb >= 0.0 && Belief(e.value.next, n)
  }

  /** The true expectation of the value function over the outcomes. */
  ghost function Expected(value: seq<real> -> real, outcomes: seq<Option<BeliefEdge>>): real {
    if outcomes == [] then 0.0
    else
      var last := outcomes[|outcomes| - 1];
      Expected(value, outcomes[..|outcomes| - 1])
      + if last.Some? then Times(last.value.obsProb, value(Dense(last.value.next))) else 0.0
  }

  /** The true value of an action. */
  ghost function TrueQ(value: seq<real> -> real, discount: real, q: QEntry): real {
    q.immediateReward + Times(discount, Expected(value, q.outcomes))
  }

  ghost predicate AllDefined(q: seq<QEntry>) {
    forall a | 0 <= a < |q| :: q[a].ubVal.Some?
  }

  /** Every cached action value is an upper bound on the true one. */
  ghost predicate QSound(value: seq<real> -> real, discount: real, q: seq<QEntry>) {
    forall a | 0 <= a < |q| && q[a].ubVal.Some? :: TrueQ(value, discount, q[a]) <= q[a].ubVal.value
  }

  /** The node's value is at most that of some action, as the Bellman equation says. */
  ghost predicate BellmanAt(value: seq<real> -> real, discount: real, s: CVector, q: seq<QEntry>) {
    exists a :: 0 <= a < |q| && value(Dense(s)) <= TrueQ(value, discount, q[a])
  }

  /** The same actions and outcomes. */
  ghost predicate SameActions(q: seq<QEntry>, q': seq<QEntry>) {
    |q| == |q'| && forall a | 0 <= a < |q| :: q'[a] == q[a].(ubVal := q'[a].ubVal)
  }

  class BeliefNode {
    const s: CVector
    const isTerminal: bool
    var Q: seq<QEntry>
    var ubVal: real

    constructor (s: CVector, isTerminal: bool)
      ensures this.s == s && this.isTerminal == isTerminal && Q == []
    {
      this.s, this.isTerminal, Q, ubVal := s, isTerminal, [], 0.0;
    }

    ghost predicate NodeOk(n: nat)
      reads this
    {
      && Belief(s, n) && (forall a | 0 <= a < |Q| :: EdgesOk(Q[a].outcomes, n))
      && (|Q| > 0 && Q[0].ubVal.Some? ==> AllDefined(Q))
    }

    /** The node's bounds lie above the value function. */
    ghost predicate NodeSound(value: seq<real> -> real, discount: real)
      reads this
    {
      value(Dense(s)) <= ubVal && QSound(value, discount, Q)
    }
  }

  // ---------- The state of the lists, as a value ----------

  /** Points, corner values, and what is remembered of the last pruning. */
  datatype Lists = Lists(points: seq<BVPair>, corners: seq<real>, lastNum: nat, lastPrune: int)

  ghost predicate ListsOk(s: Lists) {
    PointsOk(s.points, |s.corners|) && Distinct(s.points)
  }

  ghost predicate AtCorner(b: CVector, n: nat) {
    exists k: nat :: k < n && NearCorner(b, k)
  }

  /** The corner that the belief counts as. */
  ghost function CornerOf(b: CVector, n: nat): (k: nat)
    requires AtCorner(b, n)
    ensures k < n && NearCorner(b, k)
  {
    var k: nat :| k < n && NearCorner(b, k);
    k
  }

  lemma CornerIsUnique(b: CVector, n: nat, k: nat)
    requires k < n == b.size && NearCorner(b, k)
    ensures AtCorner(b, n) && CornerOf(b, n) == k
  {
  }

  /** The lists after adding a point. */
  ghost function AddedTo(s: Lists, bv: BVPair): Lists {
    var n := |s.corners|;
    if AtCorner(bv.b, n) then s.(corners := s.corners[CornerOf(bv.b, n) := bv.v]) else s.(points := s.points + [bv])
  }

  /** No pair that the next pruning skips needs pruning. */
  ghost predicate SkippedOk(useSupport: bool, s: Lists)
    requires ListsOk(s)
  {
    SkippedPairsOk(s.corners, useSupport, s.points, s.lastPrune)
  }

  /** A new point brings no skipped pair that needs pruning. An overwritten corner value may do so for any skipped
      pair; a point that is listed may do so only if it is late: created no later than the last pruning. */
  ghost predicate Fits(useSupport: bool, s: Lists, bv: BVPair)
    requires ListsOk(s) && Belief(bv.b, |s.corners|)
  {
    var n := |s.corners|;
    if AtCorner(bv.b, n) then
      SkippedPairsOk(s.corners[CornerOf(bv.b, n) := bv.v], useSupport, s.points, s.lastPrune)
    else
      bv.numBackupsAtCreation <= s.lastPrune ==>
        forall x | x in s.points && x.numBackupsAtCreation <= s.lastPrune ::
          && (Rivals(useSupport, x, bv) ==> !PointDominates(s.corners, x, bv))
          && (Rivals(useSupport, bv, x) ==> !PointDominates(s.corners, bv, x))
  }

  lemma AddedOk(s: Lists, bv: BVPair)
    requires ListsOk(s) && Belief(bv.b, |s.corners|) && bv !in s.points
    ensures ListsOk(AddedTo(s, bv)) && |AddedTo(s, bv).corners| == |s.corners|
  {
    DistinctConcat(s.points, [bv]);
  }

  lemma AddedSize(s: Lists, bv: BVPair)
    ensures |AddedTo(s, bv).points| <= |s.points| + 1
    ensures AddedTo(s, bv).points == s.points || AddedTo(s, bv).points == s.points + [bv]
  {
  }

  lemma StepIs(useSupport: bool, s: Lists, bv: BVPair, t: Lists)
    requires ListsOk(s) && Belief(bv.b, |s.corners|) && bv !in s.points && ListsOk(AddedTo(s, bv))
    requires MaybePruned(useSupport, AddedTo(s, bv), t, bv.numBackupsAtCreation)
    ensures Step(useSupport, s, bv, t)
  {
  }

  /** Adding a point leaves no skipped pair that needs pruning exactly if it fits, and there was none unless a
      corner value is overwritten. */
  lemma AddedExactly(useSupport: bool, s: Lists, bv: BVPair)
    requires ListsOk(s) && Belief(bv.b, |s.corners|) && bv !in s.points && ListsOk(AddedTo(s, bv))
    ensures SkippedOk(useSupport, AddedTo(s, bv))
      <==> (AtCorner(bv.b, |s.corners|) || SkippedOk(useSupport, s)) && Fits(useSupport, s, bv)
  {
    hide Belief, Distinct, PointDominates, Rivals, AtCorner;
    var t := AddedTo(s, bv);
    if !AtCorner(bv.b, |s.corners|) {
      assert forall x | x in t.points :: x in s.points || x == bv;
      assert bv in t.points && forall x | x in s.points :: x in t.points;
    }
  }

  /** `t` is what pruning makes of `s`: it drops dominated points only, and leaves none that it looked at. */
  ghost predicate Pruned(useSupport: bool, s: Lists, t: Lists, numBackups: int)
    requires ListsOk(s)
  {
    && ListsOk(t) && t.corners == s.corners && t.lastNum == |t.points| <= |s.points| && t.lastPrune == numBackups
    && (forall p | p in t.points :: p in s.points)
    && (forall p | p in s.points && p !in t.points :: HasDominator(s.corners, useSupport, s.points, s.lastPrune, p))
    && ((forall p | p in s.points :: p in t.points) ==> t.points == s.points)
    && (forall p | p in t.points :: Undominated(s.corners, useSupport, t.points, s.lastPrune, p))
    && (forall b | Belief(b, |s.corners|) ::
          Bound(s.corners, t.points, b)
            <= Bound(s.corners, s.points, b) + (|s.points| - |t.points|) as real * BOUNDS_PRUNE_EPS)
  }

  ghost predicate MaybePruned(useSupport: bool, s: Lists, t: Lists, numBackups: int)
    requires ListsOk(s)
  {
    if |s.points| > NextPruneNumPts(s.lastNum) then Pruned(useSupport, s, t, numBackups) else t == s
  }

  /** `t` is `s` after adding a point and pruning if it is time. */
  ghost predicate Step(useSupport: bool, s: Lists, bv: BVPair, t: Lists) {
    && ListsOk(s) && Belief(bv.b, |s.corners|) && bv !in s.points && ListsOk(AddedTo(s, bv))
    && MaybePruned(useSupport, AddedTo(s, bv), t, bv.numBackupsAtCreation)
  }

  class SawtoothUpperBound {
    const numStates: nat
    const useSawtoothSupportList: bool
    const discount: real
    var pts: seq<BVPair>
    var supportList: seq<seq<BVPair>>
    var cornerPts: seq<real>
    var lastPruneNumPts: nat
    var lastPruneNumBackups: int

    constructor (numStates: nat, useSupport: bool, discount: real)
      ensures Valid() && this.numStates == numStates && this.discount == discount
      ensures useSawtoothSupportList == useSupport && Now() == Lists([], seq(numStates, _ => 0.0), 0, -1)
    {
      this.numStates, useSawtoothSupportList, this.discount := numStates, useSupport, discount;
      pts, supportList, cornerPts := [], seq(numStates, _ => []), seq(numStates, _ => 0.0);
      lastPruneNumPts, lastPruneNumBackups := 0, -1;
    }

    ghost predicate Valid()
      reads this`pts, this`supportList, this`cornerPts
    {
      && |cornerPts| == numStates && PointsOk(pts, numStates) && Distinct(pts)
      && (useSawtoothSupportList ==> SupportOk(pts, supportList, numStates))
    }

    /** Corner values and points lie above the value function. */
    ghost predicate Sound(value: seq<real> -> real)
      reads this`pts, this`supportList, this`cornerPts
    {
      Sublinear(value, numStates) && CornersValid(value, cornerPts, numStates) && PointsSound(value, pts)
    }

    ghost function Now(): Lists
      reads this`pts, this`cornerPts, this`lastPruneNumPts, this`lastPruneNumBackups
    {
      Lists(pts, cornerPts, lastPruneNumPts, lastPruneNumBackups)
    }

    lemma ListsAre()
      requires Valid()
      ensures |cornerPts| == numStates && PointsOk(pts, numStates) && Distinct(pts) && ListsOk(Now())
      ensures Now() == Lists(pts, cornerPts, lastPruneNumPts, lastPruneNumBackups)
      ensures useSawtoothSupportList ==> SupportOk(pts, supportList, numStates)
    {
    }

    ghost function ValueAt(b: CVector): real
      requires Valid() && Belief(b, numStates)
      reads this`pts, this`supportList, this`cornerPts
    {
      LookedUp(cornerPts, useSawtoothSupportList, pts, supportList, b)
    }

    /** The bound never drops below a value function that its corners and points respect. */
    lemma ValueIsSound(value: seq<real> -> real, b: CVector)
      requires Valid() && Sound(value) && Belief(b, numStates)
      ensures value(Dense(b)) <= ValueAt(b)
    {
      CandidatesOk(useSawtoothSupportList, pts, supportList, b, numStates);
      BoundIsSound(value, cornerPts, Candidates(useSawtoothSupportList, pts, supportList, b), b);
    }

    method GetValue(b: CVector) returns (minValue: real)
      requires Valid() && Belief(b, numStates)
      ensures minValue == ValueAt(b)
    {
      CandidatesOk(useSawtoothSupportList, pts, supportList, b, numStates);
      var ptsToCheck := if useSawtoothSupportList then supportList[First(b)] else pts;
      assert b.Valid() && b.size == numStates;
      hide Belief, SupportOk, PointBound;
      var innerCornerPtsB := InnerProdDense(cornerPts, b);
      minValue := innerCornerPtsB;
      for i := 0 to |ptsToCheck|
        invariant minValue == Bound(cornerPts, ptsToCheck[..i], b)
      {
        var c := ptsToCheck[i];
        assert c in ptsToCheck;
        BeliefSize(c.b, numStates);
        var innerCornerPtsC := InnerProdDense(cornerPts, c.b);
        var bound := GetBVValue(cornerPts, b, c.b, c.v, innerCornerPtsB, innerCornerPtsC);
        BoundPush(cornerPts, ptsToCheck, i, b);
        if bound.Some? {
          minValue := Min(minValue, bound.value);
        }
      }
      assert ptsToCheck[..|ptsToCheck|] == ptsToCheck;
    }

    /** Takes a point off the lists of the states it stores. */
    method DeleteAndForward(victim: BVPair)
      requires Valid() && victim in pts
      modifies this`supportList
      ensures useSawtoothSupportList ==> |supportList| == numStates
      ensures useSawtoothSupportList ==> forall i | 0 <= i < numStates ::
        supportList[i] == if victim.b.Has(i) then Without(old(supportList[i]), victim) else old(supportList[i])
    {
      if useSawtoothSupportList {
        ghost var d := victim.b.data;
        for j := 0 to |victim.b.data|
          invariant |supportList| == numStates
          invariant forall i | 0 <= i < numStates ::
            supportList[i] == if Stored(d[..j], i) then Without(old(supportList[i]), victim) else old(supportList[i])
        {
          var k := victim.b.data[j].index;
          EntryOf(victim.b, numStates, j);
          StoredStep(d, j);
          supportList := supportList[k := Without(supportList[k], victim)];
        }
        assert d[..|d|] == d;
      }
    }

    /** Whether `xPair` dominates `yPair`; the corner caches of both must be up to date. */
    method DominatesPair(xPair: BVPair, yPair: BVPair) returns (dominates: bool)
      requires Valid() && xPair in pts && yPair in pts
      requires xPair.innerCornerCache == Plane(cornerPts, xPair.b)
      requires yPair.innerCornerCache == Plane(cornerPts, yPair.b)
      ensures dominates <==> PointDominates(cornerPts, xPair, yPair)
    {
      var xValueAtY := GetBVValue(cornerPts, yPair.b, xPair.b, xPair.v,
                                  yPair.innerCornerCache, xPair.innerCornerCache);
      dominates := xValueAtY.Some? && xValueAtY.value < yPair.v + BOUNDS_PRUNE_EPS;
    }

    ghost predicate CachesOk()
      reads this`pts, this`cornerPts, pts
      requires |cornerPts| == numStates && PointsOk(pts, numStates)
    {
      forall p | p in pts :: p.innerCornerCache == Plane(cornerPts, p.b)
    }

    lemma AllSpare(y: BVPair)
      requires Valid() && y in pts
      requires useSawtoothSupportList ==> |supportList| == numStates && |y.b.data| > 0 && First(y.b) < numStates
      requires var list := if useSawtoothSupportList then supportList[First(y.b)] else pts; SparedBy(list, |list|, y)
      ensures Undominated(cornerPts, useSawtoothSupportList, pts, lastPruneNumBackups, y)
    {
      hide SupportOk, Spares, Belief;
      if useSawtoothSupportList {
        forall x | x in pts && Rivals(true, x, y)
          ensures x in supportList[First(y.b)]
        {
          RivalInList(pts, supportList, x, y, numStates);
        }
      }
    }

    lemma DominatorFound(x: BVPair, y: BVPair)
      requires Valid() && x in pts && y in pts && x != y && PointDominates(cornerPts, x, y)
      requires !Skipped(lastPruneNumBackups, x, y)
      requires useSawtoothSupportList ==>
        |supportList| == numStates && |y.b.data| > 0 && First(y.b) < numStates && x in supportList[First(y.b)]
      ensures HasDominator(cornerPts, useSawtoothSupportList, pts, lastPruneNumBackups, y)
    {
      hide PointDominates, Belief;
      if useSawtoothSupportList {
        assert ListOk(pts, supportList[First(y.b)], First(y.b));
      }
      assert Rivals(useSawtoothSupportList, x, y);
    }

    /** Looks for a point that dominates the candidate, in the pairs that pruning does not skip. */
    method FindDominator(candidate: BVPair) returns (opponent: Option<BVPair>)
      requires Valid() && CachesOk() && candidate in pts
      ensures opponent.Some? ==>
        && opponent.value in pts && opponent.value != candidate
        && PointDominates(cornerPts, opponent.value, candidate)
        && (useSawtoothSupportList ==>
              |candidate.b.data| > 0 && First(candidate.b) < |supportList|
              && opponent.value in supportList[First(candidate.b)])
        && HasDominator(cornerPts, useSawtoothSupportList, pts, lastPruneNumBackups, candidate)
      ensures opponent.None? ==> Undominated(cornerPts, useSawtoothSupportList, pts, lastPruneNumBackups, candidate)
    {
      hide *;
      CandidatesAre(candidate);
      var ptsToCheck := if useSawtoothSupportList then supportList[First(candidate.b)] else pts;
      NoneChecked(ptsToCheck, candidate);
      for i := 0 to |ptsToCheck|
        invariant SparedBy(ptsToCheck, i, candidate)
      {
        var opp := ptsToCheck[i];
        assert opp in ptsToCheck;
        PairIs(opp, candidate);
        if candidate == opp {
        } else if candidate.numBackupsAtCreation <= lastPruneNumBackups
                  && opp.numBackupsAtCreation <= lastPruneNumBackups {
        } else {
          var dominates := DominatesPair(opp, candidate);
          if dominates {
            DominatorFound(opp, candidate);
            return Some(opp);
          }
        }
        OneMoreChecked(ptsToCheck, i, candidate);
      }
      AllSpare(candidate);
      return None;
    }

    /** None of the first `n` listed points is known to dominate `y`. */
    ghost predicate SparedBy(list: seq<BVPair>, n: nat, y: BVPair)
      reads this`cornerPts, this`lastPruneNumBackups
    {
      n <= |list| && forall j | 0 <= j < n ::
        Belief(list[j].b, |cornerPts|) && Belief(y.b, |cornerPts|)
        && Spares(cornerPts, lastPruneNumBackups, list[j], y)
    }

    lemma NoneChecked(list: seq<BVPair>, y: BVPair)
      ensures SparedBy(list, 0, y)
    {
    }

    lemma OneMoreChecked(list: seq<BVPair>, n: nat, y: BVPair)
      requires n < |list| && SparedBy(list, n, y) && Belief(list[n].b, |cornerPts|) && Belief(y.b, |cornerPts|)
      requires Spares(cornerPts, lastPruneNumBackups, list[n], y)
      ensures SparedBy(list, n + 1, y)
    {
    }

    lemma CandidatesAre(y: BVPair)
      requires Valid() && y in pts
      ensures |cornerPts| == numStates && Belief(y.b, numStates)
      ensures useSawtoothSupportList ==>
        |supportList| == numStates && |y.b.data| > 0 && First(y.b) < numStates
      ensures forall p | p in (if useSawtoothSupportList then supportList[First(y.b)] else pts) :: p in pts
    {
      CandidatesOk(useSawtoothSupportList, pts, supportList, y.b, numStates);
    }

    /** What is known of a pair of listed points. */
    lemma PairIs(x: BVPair, y: BVPair)
      requires Valid() && CachesOk() && x in pts && y in pts
      ensures Belief(x.b, |cornerPts|) && Belief(y.b, |cornerPts|)
      ensures x.innerCornerCache == Plane(cornerPts, x.b) && y.innerCornerCache == Plane(cornerPts, y.b)
      ensures Skipped(lastPruneNumBackups, x, y) <==>
        x.numBackupsAtCreation <= lastPruneNumBackups && y.numBackupsAtCreation <= lastPruneNumBackups
      ensures Spares(cornerPts, lastPruneNumBackups, x, y) <==>
        x == y || Skipped(lastPruneNumBackups, x, y) || !PointDominates(cornerPts, x, y)
    {
    }

    /** Recomputes the plane value cached in every point. */
    method RefreshCaches()
      requires Valid()
      modifies pts
      ensures CachesOk()
    {
      hide SupportOk;
      for i := 0 to |pts|
        invariant forall j | 0 <= j < i :: pts[j].innerCornerCache == Plane(cornerPts, pts[j].b)
      {
        assert pts[i] in pts;
        BeliefSize(pts[i].b, numStates);
        pts[i].innerCornerCache := InnerProdDense(cornerPts, pts[i].b);
      }
    }

    /** What pruning may cost after `deleted` points have gone, compared with the lists it started from. */
    ghost predicate CostWithin(deleted: nat, pts0: seq<BVPair>, support0: seq<seq<BVPair>>)
      requires Valid() && PointsOk(pts0, numStates)
      requires useSawtoothSupportList ==> SupportOk(pts0, support0, numStates)
      reads this`pts, this`supportList, this`cornerPts
    {
      forall b | Belief(b, numStates) ::
        && ValueAt(b) <= LookedUp(cornerPts, useSawtoothSupportList, pts0, support0, b)
                         + deleted as real * BOUNDS_PRUNE_EPS
        && Bound(cornerPts, pts, b) <= Bound(cornerPts, pts0, b) + deleted as real * BOUNDS_PRUNE_EPS
    }

    lemma NoCostYet()
      requires Valid()
      ensures CostWithin(0, pts, supportList)
    {
      assert 0 as real * BOUNDS_PRUNE_EPS == 0.0;
    }

    /** No point is dominated by a rival, skipped pairs aside. */
    ghost predicate NoneDominated(lastPrune: int)
      requires |cornerPts| == numStates && PointsOk(pts, numStates)
      reads this`pts, this`cornerPts
    {
      forall y | y in pts :: Undominated(cornerPts, useSawtoothSupportList, pts, lastPrune, y)
    }

    /** Whatever is no longer on the list had a dominator on the list `pts0`. */
    ghost predicate DroppedOk(pts0: seq<BVPair>)
      requires |cornerPts| == numStates && PointsOk(pts0, numStates)
      reads this`pts, this`cornerPts, this`lastPruneNumBackups
    {
      forall p | p in pts0 && p !in pts :: HasDominator(cornerPts, useSawtoothSupportList, pts0, lastPruneNumBackups, p)
    }

    lemma DroppedOneMore(pts0: seq<BVPair>, before: seq<BVPair>, y: BVPair)
      requires |cornerPts| == numStates && PointsOk(pts0, numStates) && PointsOk(before, numStates)
      requires (forall p | p in before :: p in pts0) && y in before && (forall p | p in before && p != y :: p in pts)
      requires forall p | p in pts0 && p !in before ::
        HasDominator(cornerPts, useSawtoothSupportList, pts0, lastPruneNumBackups, p)
      requires HasDominator(cornerPts, useSawtoothSupportList, before, lastPruneNumBackups, y)
      ensures DroppedOk(pts0)
    {
      hide PointDominates, Belief, Rivals, Skipped;
      assert HasDominator(cornerPts, useSawtoothSupportList, pts0, lastPruneNumBackups, y);
    }

    lemma FullyPruned(pts0: seq<BVPair>)
      requires |cornerPts| == numStates && PointsOk(pts0, numStates) && PointsOk(pts, numStates)
      requires (forall p | p in pts :: p in pts0) && NoneDominated(lastPruneNumBackups)
      ensures PairsOk(cornerPts, useSawtoothSupportList, pts)
        <==> SkippedPairsOk(cornerPts, useSawtoothSupportList, pts, lastPruneNumBackups)
      ensures SkippedPairsOk(cornerPts, useSawtoothSupportList, pts0, lastPruneNumBackups) ==>
        PairsOk(cornerPts, useSawtoothSupportList, pts)
    {
      hide PointDominates, Belief, Rivals, Skipped;
      forall x, y | x in pts && y in pts && Rivals(useSawtoothSupportList, x, y)
        ensures Spares(cornerPts, lastPruneNumBackups, x, y)
      {
        assert Undominated(cornerPts, useSawtoothSupportList, pts, lastPruneNumBackups, y);
      }
    }

    /** Drops dominated points, and no others. No value rises by more than the tolerance for each point dropped,
        whether it is looked up through the support lists or by scanning all points. No dominated point is left
        exactly if the skipped pairs among those left are all right, for which it is enough that they were before. */
    method Prune(numBackups: int)
      requires Valid()
      modifies this`pts, this`supportList, this`lastPruneNumPts, this`lastPruneNumBackups, pts
      ensures Valid() && |pts| <= |old(pts)| && forall p | p in pts :: p in old(pts)
      ensures CostWithin(|old(pts)| - |pts|, old(pts), old(supportList))
      ensures NoneDominated(old(lastPruneNumBackups)) && lastPruneNumBackups == numBackups
      ensures forall p | p in old(pts) && p !in pts ::
        old(HasDominator(cornerPts, useSawtoothSupportList, pts, lastPruneNumBackups, p))
      ensures PairsOk(cornerPts, useSawtoothSupportList, pts)
        <==> SkippedPairsOk(cornerPts, useSawtoothSupportList, pts, old(lastPruneNumBackups))
      ensures old(SkippedPairsOk(cornerPts, useSawtoothSupportList, pts, lastPruneNumBackups)) ==>
        PairsOk(cornerPts, useSawtoothSupportList, pts)
      ensures Pruned(useSawtoothSupportList, old(Now()), Now(), numBackups)
    {
      hide *;
      ListsAre();
      ghost var s, support0 := Now(), supportList;
      RefreshCaches();
      NoCostYet();
      DropDominated();
      ListsAre();
      FullyPruned(s.points);
      PruningIs(s.points, support0, s, numBackups);
      lastPruneNumPts := |pts|;
      lastPruneNumBackups := numBackups;
      ListsAre();
    }

    /** Something has been dropped from `pts0`, unless `pts` is the same list. */
    ghost predicate SomeDropped(pts0: seq<BVPair>)
      reads this`pts
    {
      pts == pts0 || exists p :: p in pts0 && p !in pts
    }

    /** The pass over the list, once the caches are up to date. */
    method DropDominated()
      requires Valid() && CachesOk()
      modifies this`pts, this`supportList
      ensures Valid() && |pts| <= |old(pts)| && forall p | p in pts :: p in old(pts)
      ensures CostWithin(|old(pts)| - |pts|, old(pts), old(supportList))
      ensures NoneDominated(lastPruneNumBackups) && DroppedOk(old(pts)) && SomeDropped(old(pts))
    {
      hide Belief, SupportOk, CostWithin, PointDominates, CachesOk, PointsOk, Distinct, First, Rivals, Undominated;
      hide HasDominator;
      ghost var pts0, support0 := pts, supportList;
      ghost var deleted := 0;
      NoCostYet();
      var i := 0;
      while i < |pts|
        invariant i <= |pts| && Valid() && CachesOk()
        invariant deleted == |pts0| - |pts| && forall p | p in pts :: p in pts0
        invariant CostWithin(deleted, pts0, support0)
        invariant forall j | 0 <= j < i ::
          Undominated(cornerPts, useSawtoothSupportList, pts, lastPruneNumBackups, pts[j])
        invariant DroppedOk(pts0) && SomeDropped(pts0)
        decreases |pts| - i
      {
        var candidate := pts[i];
        var dominator := FindDominator(candidate);
        if dominator.Some? {
          ghost var before := pts;
          Delete(i, dominator.value, deleted, pts0, support0);
          deleted := deleted + 1;
          DroppedOneMore(pts0, before, candidate);
          assert candidate in pts0 && candidate !in pts by { GoneNow(before, i); }
          forall j | 0 <= j < i
            ensures Undominated(cornerPts, useSawtoothSupportList, pts, lastPruneNumBackups, pts[j])
          {
            assert pts[j] == before[j];
            UndominatedKept(cornerPts, useSawtoothSupportList, before, pts, lastPruneNumBackups, pts[j]);
          }
        } else {
          i := i + 1;
        }
      }
      forall y | y in pts
        ensures Undominated(cornerPts, useSawtoothSupportList, pts, lastPruneNumBackups, y)
      {
        var j :| 0 <= j < |pts| && pts[j] == y;
      }
    }

    lemma GoneNow(before: seq<BVPair>, i: nat)
      requires Distinct(before) && i < |before|
      ensures before[i] !in before[..i] + before[i + 1..]
    {
    }

    lemma PruningIs(pts0: seq<BVPair>, support0: seq<seq<BVPair>>, s: Lists, numBackups: int)
      requires Valid() && ListsOk(s) && s == Lists(pts0, cornerPts, lastPruneNumPts, lastPruneNumBackups)
      requires |pts| <= |pts0| && (forall p | p in pts :: p in pts0) && DroppedOk(pts0)
      requires SomeDropped(pts0)
      requires useSawtoothSupportList ==> SupportOk(pts0, support0, numStates)
      requires CostWithin(|pts0| - |pts|, pts0, support0) && NoneDominated(lastPruneNumBackups)
      ensures Pruned(useSawtoothSupportList, s, Lists(pts, cornerPts, |pts|, numBackups), numBackups)
      ensures forall p | p in pts0 && p !in pts ::
        HasDominator(s.corners, useSawtoothSupportList, pts0, s.lastPrune, p)
    {
      hide Belief, SupportOk, HasDominator, Undominated, Bound;
    }

    /** Deletes the dominated point at position `i`. */
    method Delete(i: nat, dominator: BVPair, ghost deleted: nat, ghost pts0: seq<BVPair>,
                  ghost support0: seq<seq<BVPair>>)
      requires Valid() && i < |pts| && dominator in pts && dominator != pts[i]
      requires PointDominates(cornerPts, dominator, pts[i])
      requires useSawtoothSupportList ==>
        && |pts[i].b.data| > 0 && First(pts[i].b) < |supportList| && dominator in supportList[First(pts[i].b)]
      requires PointsOk(pts0, numStates) && (useSawtoothSupportList ==> SupportOk(pts0, support0, numStates))
      requires CostWithin(deleted, pts0, support0) && CachesOk()
      modifies this`pts, this`supportList
      ensures Valid() && pts == old(pts)[..i] + old(pts)[i + 1..] && CachesOk()
      ensures forall p | p in pts :: p in old(pts)
      ensures CostWithin(deleted + 1, pts0, support0)
    {
      hide Belief, SupportOk, PointDominates, Bound;
      ghost var before, supportBefore := pts, supportList;
      var victim := pts[i];
      DeleteAndForward(victim);
      pts := pts[..i] + pts[i + 1..];
      RemovedAt(before, i);
      if useSawtoothSupportList {
        SupportAfterRemoval(before, supportBefore, pts, supportList, victim, numStates);
      }
      forall b | Belief(b, numStates)
        ensures ValueAt(b) <= LookedUp(cornerPts, useSawtoothSupportList, before, supportBefore, b) + BOUNDS_PRUNE_EPS
        ensures Bound(cornerPts, pts, b) <= Bound(cornerPts, before, b) + BOUNDS_PRUNE_EPS
      {
        DeletionCost(cornerPts, useSawtoothSupportList, before, supportBefore, pts, supportList, dominator, victim, b);
      }
    }

    /** Prunes once the list has outgrown what the last pruning left. */
    method MaybePrune(numBackups: int)
      requires Valid()
      modifies this`pts, this`supportList, this`lastPruneNumPts, this`lastPruneNumBackups, pts
      ensures Valid() && |pts| <= |old(pts)| && forall p | p in pts :: p in old(pts)
      ensures CostWithin(|old(pts)| - |pts|, old(pts), old(supportList))
      ensures if |old(pts)| > NextPruneNumPts(old(lastPruneNumPts))
              then NoneDominated(old(lastPruneNumBackups)) && lastPruneNumBackups == numBackups
              else pts == old(pts) && lastPruneNumBackups == old(lastPruneNumBackups)
      ensures MaybePruned(useSawtoothSupportList, old(Now()), Now(), numBackups)
    {
      ListsAre();
      if |pts| > NextPruneNumPts(lastPruneNumPts) {
        Prune(numBackups);
      } else {
        NoCostYet();
      }
    }

    /** Whether the belief counts as a corner point, and of which state. */
    method WhichCornerPoint(b: CVector) returns (corner: Option<nat>)
      requires Belief(b, numStates)
      ensures corner.Some? ==> AtCorner(b, numStates) && corner.value == CornerOf(b, numStates)
      ensures corner.None? ==> !AtCorner(b, numStates)
    {
      BeliefSize(b, numStates);
      hide At, Belief;
      corner := None;
      for i := 0 to numStates
        invariant corner.None? ==> forall k: nat | k < i :: b.Get(k) <= CORNER_EPS
        invariant corner.Some? ==> corner.value < i && b.Get(corner.value) > CORNER_EPS
        invariant corner.Some? ==> forall k: nat | k < i && k != corner.value :: b.Get(k) <= CORNER_EPS
      {
        var value := Lookup(b, i);
        BeliefSign(b, numStates, i);
        if Abs(value) > CORNER_EPS {
          if corner.None? {
            corner := Some(i);
          } else {
            return None;
          }
        }
      }
      if corner.Some? {
        CornerIsUnique(b, numStates, corner.value);
      }
    }

    /** Adds a point to the lists, or, if it is at a corner, overwrites the corner value. The pairs that the next
        pruning skips then need no pruning exactly if none of them did before and the point fits. */
    method AddPoint(bv: BVPair)
      requires Valid() && bv !in pts && Belief(bv.b, numStates)
      modifies this`pts, this`supportList, this`cornerPts
      ensures Valid()
      ensures old(ListsOk(Now())) && Now() == AddedTo(old(Now()), bv)
      ensures SkippedOk(useSawtoothSupportList, Now())
        <==> old((AtCorner(bv.b, numStates) || SkippedOk(useSawtoothSupportList, Now()))
                 && Fits(useSawtoothSupportList, Now(), bv))
      ensures forall value | old(Sound(value)) && value(Dense(bv.b)) <= bv.v && CornerExact(bv.b, numStates) ::
        Sound(value)
    {
      hide Rivals, PointDominates, Sublinear, CornersValid, CornerExact, SkippedOk, Fits, AtCorner, NearCorner;
      ListsAre();
      BeliefSize(bv.b, numStates);
      ghost var corners0 := cornerPts;
      AddedOk(Now(), bv);
      AddedExactly(useSawtoothSupportList, Now(), bv);
      var wc := WhichCornerPoint(bv.b);
      if wc.None? {
        PushSupport(bv);
        pts := pts + [bv];
      } else {
        cornerPts := cornerPts[wc.value := bv.v];
      }
      forall value | old(Sound(value)) && value(Dense(bv.b)) <= bv.v && CornerExact(bv.b, numStates)
        ensures Sound(value)
      {
        CornerStaysValid(value, corners0, cornerPts, bv, numStates);
      }
    }

    method PushSupport(bv: BVPair)
      requires Valid() && bv !in pts && Belief(bv.b, numStates)
      modifies this`supportList
      ensures useSawtoothSupportList ==> SupportOk(pts + [bv], supportList, numStates)
    {
      if useSawtoothSupportList {
        ghost var d, before := bv.b.data, supportList;
        for j := 0 to |bv.b.data|
          invariant |supportList| == numStates
          invariant forall i | 0 <= i < numStates ::
            supportList[i] == if Stored(d[..j], i) then before[i] + [bv] else before[i]
        {
          var k := bv.b.data[j].index;
          EntryOf(bv.b, numStates, j);
          StoredStep(d, j);
          supportList := supportList[k := supportList[k] + [bv]];
        }
        assert d[..|d|] == d;
        SupportAfterPush(pts, before, bv, supportList, numStates);
      }
    }

    /** The expected bound over the outcomes. */
    ghost function ExpectedBound(outcomes: seq<Option<BeliefEdge>>): real
      requires Valid() && EdgesOk(outcomes, numStates)
      reads this`pts, this`supportList, this`cornerPts
    {
      if outcomes == [] then 0.0
      else
        var last := outcomes[|outcomes| - 1];
        ExpectedBound(outcomes[..|outcomes| - 1])
        + if last.Some? then Times(last.value.obsProb, ValueAt(last.value.next)) else 0.0
    }

    lemma ExpectedPush(outcomes: seq<Option<BeliefEdge>>, o: nat)
      requires Valid() && EdgesOk(outcomes, numStates) && o < |outcomes|
      ensures EdgesOk(outcomes[..o], numStates) && EdgesOk(outcomes[..o + 1], numStates)
      ensures outcomes[o].Some? ==> Belief(outcomes[o].value.next, numStates)
      ensures ExpectedBound(outcomes[..o + 1]) == ExpectedBound(outcomes[..o])
        + if outcomes[o].Some? then Times(outcomes[o].value.obsProb, ValueAt(outcomes[o].value.next)) else 0.0
    {
      hide Valid, Belief, ValueAt, Times;
      assert outcomes[..o + 1][..o] == outcomes[..o];
      assert outcomes[o] in outcomes;
    }

    /** The one-step backup of an action. */
    ghost function Backup(q: QEntry): real
      requires Valid() && EdgesOk(q.outcomes, numStates)
      reads this`pts, this`supportList, this`cornerPts
    {
      q.immediateReward + Times(discount, ExpectedBound(q.outcomes))
    }

    lemma {:induction false} ExpectedIsSound(value: seq<real> -> real, outcomes: seq<Option<BeliefEdge>>)
      requires Valid() && Sound(value) && EdgesOk(outcomes, numStates)
      ensures Expected(value, outcomes) <= ExpectedBound(outcomes)
    {
      hide Valid, Sound, Belief, ValueAt, Times;
      if outcomes != [] {
        var last := outcomes[|outcomes| - 1];
        assert last in outcomes;
        ExpectedIsSound(value, outcomes[..|outcomes| - 1]);
        if last.Some? {
          ValueIsSound(value, last.value.next);
          TimesMono(last.value.obsProb, value(Dense(last.value.next)), ValueAt(last.value.next));
        }
      }
    }

    /** A backup never drops below the true value of the action. */
    lemma BackupIsSound(value: seq<real> -> real, q: QEntry)
      requires Valid() && Sound(value) && EdgesOk(q.outcomes, numStates) && discount >= 0.0
      ensures TrueQ(value, discount, q) <= Backup(q)
    {
      ExpectedIsSound(value, q.outcomes);
      TimesMono(discount, Expected(value, q.outcomes), ExpectedBound(q.outcomes));
    }

    /** The value function is not below the bound at any outcome. */
    ghost predicate AboveAt(value: seq<real> -> real, outcomes: seq<Option<BeliefEdge>>)
      requires Valid() && EdgesOk(outcomes, numStates)
      reads this`pts, this`supportList, this`cornerPts
    {
      forall e | e in outcomes && e.Some? :: ValueAt(e.value.next) <= value(Dense(e.value.next))
    }

    /** The value function is not above the bound at any outcome. */
    ghost predicate BelowAt(value: seq<real> -> real, outcomes: seq<Option<BeliefEdge>>)
      requires Valid() && EdgesOk(outcomes, numStates)
      reads this`pts, this`supportList, this`cornerPts
    {
      forall e | e in outcomes && e.Some? :: value(Dense(e.value.next)) <= ValueAt(e.value.next)
    }

    /** `val` is what the action is worth if the outcomes are worth the bound there: it lies between the worth under any
        value function that is not above the bound at the outcomes, and under any that is not below it, so it is equal
        to the worth under one that agrees with it. */
    ghost predicate IsLookahead(q: QEntry, val: real)
      requires Valid() && EdgesOk(q.outcomes, numStates)
      reads this`pts, this`supportList, this`cornerPts
    {
      && (forall value: seq<real> -> real | AboveAt(value, q.outcomes) :: val <= TrueQ(value, discount, q))
      && (forall value: seq<real> -> real | BelowAt(value, q.outcomes) :: TrueQ(value, discount, q) <= val)
    }

    lemma {:induction false} ExpectedAbove(value: seq<real> -> real, outcomes: seq<Option<BeliefEdge>>)
      requires Valid() && EdgesOk(outcomes, numStates)
      ensures AboveAt(value, outcomes) ==> ExpectedBound(outcomes) <= Expected(value, outcomes)
      ensures BelowAt(value, outcomes) ==> Expected(value, outcomes) <= ExpectedBound(outcomes)
    {
      hide Valid, Belief, ValueAt, Times;
      if outcomes != [] {
        var last, rest := outcomes[|outcomes| - 1], outcomes[..|outcomes| - 1];
        assert last in outcomes && forall e | e in rest :: e in outcomes;
        ExpectedAbove(value, rest);
        if last.Some? {
          var bound, worth := ValueAt(last.value.next), value(Dense(last.value.next));
          if bound <= worth {
            TimesMono(last.value.obsProb, bound, worth);
          }
          if worth <= bound {
            TimesMono(last.value.obsProb, worth, bound);
          }
        }
      }
    }

    /** A backup is exactly the lookahead on the bound. */
    lemma BackupIsLookahead(q: QEntry)
      requires Valid() && EdgesOk(q.outcomes, numStates) && discount >= 0.0
      ensures IsLookahead(q, Backup(q))
    {
      hide Valid, ExpectedBound, AboveAt, BelowAt, Times;
      forall value: seq<real> -> real
        ensures AboveAt(value, q.outcomes) ==> Backup(q) <= TrueQ(value, discount, q)
        ensures BelowAt(value, q.outcomes) ==> TrueQ(value, discount, q) <= Backup(q)
      {
        ExpectedAbove(value, q.outcomes);
        if AboveAt(value, q.outcomes) {
          TimesMono(discount, ExpectedBound(q.outcomes), Expected(value, q.outcomes));
        }
        if BelowAt(value, q.outcomes) {
          TimesMono(discount, Expected(value, q.outcomes), ExpectedBound(q.outcomes));
        }
      }
    }

    /** With a single outcome, the backup is the reward plus the discounted bound there, and the true value of the
        action the reward plus the discounted value there. */
    lemma SureBackup(q: QEntry, next: CVector, value: seq<real> -> real)
      requires Valid() && Belief(next, numStates) && q.outcomes == [Some(BeliefEdge(1.0, next))]
      ensures EdgesOk(q.outcomes, numStates) && Backup(q) == q.immediateReward + discount * ValueAt(next)
      ensures TrueQ(value, discount, q) == q.immediateReward + discount * value(Dense(next))
    {
      hide Valid, Belief, ValueAt;
      assert EdgesOk(q.outcomes, numStates);
      ExpectedPush(q.outcomes, 0);
      assert q.outcomes[..0] == [] && q.outcomes[..1] == q.outcomes;
      UnitTimes(ValueAt(next));
      UnitTimes(value(Dense(next)));
      assert Expected(value, q.outcomes) == Expected(value, []) + Times(1.0, value(Dense(next)));
      TimesIs(discount, ValueAt(next));
      TimesIs(discount, value(Dense(next)));
    }

    /** Sums the looked-up bounds over the outcomes. */
    method ExpectBound(outcomes: seq<Option<BeliefEdge>>) returns (val: real)
      requires Valid() && EdgesOk(outcomes, numStates)
      ensures val == ExpectedBound(outcomes)
    {
      val := 0.0;
      assert EdgesOk(outcomes[..0], numStates) && ExpectedBound(outcomes[..0]) == 0.0;
      hide Valid, Belief, ValueAt, Times, ExpectedBound, EdgesOk;
      for o := 0 to |outcomes|
        invariant EdgesOk(outcomes[..o], numStates) && val == ExpectedBound(outcomes[..o])
      {
        ExpectedPush(outcomes, o);
        var e := outcomes[o];
        if e.Some? {
          var next := GetValue(e.value.next);
          val := val + Times(e.value.obsProb, next);
        }
      }
      assert outcomes[..|outcomes|] == outcomes;
    }

    /** Backs up one action and caches the result. */
    method GetNewUBValueQ(cn: BeliefNode, a: nat) returns (val: real)
      requires Valid() && a < |cn.Q| && EdgesOk(cn.Q[a].outcomes, numStates)
      modifies cn`Q
      ensures val == Backup(old(cn.Q[a])) && (discount >= 0.0 ==> IsLookahead(old(cn.Q[a]), val))
      ensures cn.Q == old(cn.Q)[a := old(cn.Q[a]).(ubVal := Some(val))]
    {
      hide Valid, Times, ExpectedBound, EdgesOk, IsLookahead;
      if discount >= 0.0 {
        BackupIsLookahead(cn.Q[a]);
      }
      var expected := ExpectBound(cn.Q[a].outcomes);
      TimesIs(discount, expected);
      val := cn.Q[a].immediateReward + discount * expected;
      cn.Q := cn.Q[a := cn.Q[a].(ubVal := Some(val))];
    }

    /** Every entry has been backed up afresh. */
    ghost predicate Fresh(q: seq<QEntry>, q': seq<QEntry>)
      requires Valid() && forall a | 0 <= a < |q| :: EdgesOk(q[a].outcomes, numStates)
      reads this`pts, this`supportList, this`cornerPts
    {
      |q| == |q'| && forall a | 0 <= a < |q| :: q'[a].ubVal == Some(Backup(q[a]))
    }

    /** Each entry is as before or has been backed up afresh. */
    ghost predicate Refreshed(q: seq<QEntry>, q': seq<QEntry>)
      requires Valid() && forall a | 0 <= a < |q| :: EdgesOk(q[a].outcomes, numStates)
      reads this`pts, this`supportList, this`cornerPts
    {
      && SameActions(q, q')
      && forall a | 0 <= a < |q| :: q'[a] == q[a] || q'[a].ubVal == Some(Backup(q[a]))
    }

    /** `a` is the first action of highest cached value. */
    ghost predicate IsBest(q: seq<QEntry>, a: nat, val: real) {
      && AllDefined(q) && a < |q| && q[a].ubVal == Some(val)
      && (forall b | 0 <= b < |q| :: q[b].ubVal.value <= val)
      && (forall b | 0 <= b < a :: q[b].ubVal.value < val)
    }

    /** `best` is the first of highest cached value among the first `n` actions, all of which have one. */
    ghost predicate BestSoFar(q: seq<QEntry>, n: nat, best: nat, val: real) {
      && n <= |q| && (n > 0 ==> best < n && q[best].ubVal == Some(val))
      && (forall b | 0 <= b < n :: q[b].ubVal.Some? && q[b].ubVal.value <= val)
      && (forall b | 0 <= b < best && b < n :: q[b].ubVal.value < val)
    }

    lemma BestOfNone(q: seq<QEntry>)
      ensures BestSoFar(q, 0, 0, 0.0)
    {
    }

    lemma BestStep(q: seq<QEntry>, n: nat, best: nat, maxVal: real, q': seq<QEntry>, val: real)
      requires BestSoFar(q, n, best, maxVal) && n < |q| == |q'|
      requires q' == q[n := q'[n]] && q'[n].ubVal == Some(val)
      ensures if n == 0 || val > maxVal then BestSoFar(q', n + 1, n, val) else BestSoFar(q', n + 1, best, maxVal)
    {
    }

    lemma BestOfAll(q: seq<QEntry>, best: nat, val: real)
      requires q != [] && BestSoFar(q, |q|, best, val)
      ensures IsBest(q, best, val)
    {
    }

    /** Backs up every action. */
    method GetNewUBValueSimple(cn: BeliefNode) returns (maxVal: real, maxUBAction: nat)
      requires Valid() && cn.NodeOk(numStates) && |cn.Q| > 0
      modifies cn`Q
      ensures Refreshed(old(cn.Q), cn.Q) && Fresh(old(cn.Q), cn.Q) && IsBest(cn.Q, maxUBAction, maxVal)
    {
      ghost var q0 := cn.Q;
      hide Valid, Belief, EdgesOk, Backup, Refreshed, Fresh, IsBest, BestSoFar;
      maxVal, maxUBAction := 0.0, 0;
      BestOfNone(cn.Q);
      for a := 0 to |cn.Q|
        invariant |cn.Q| == |q0| && BestSoFar(cn.Q, a, maxUBAction, maxVal)
        invariant forall b | 0 <= b < a :: cn.Q[b] == q0[b].(ubVal := Some(Backup(q0[b])))
        invariant forall b | a <= b < |q0| :: cn.Q[b] == q0[b]
      {
        ghost var before := cn.Q;
        var val := GetNewUBValueQ(cn, a);
        BestStep(before, a, maxUBAction, maxVal, cn.Q, val);
        if a == 0 || val > maxVal {
          maxVal, maxUBAction := val, a;
        }
      }
      AllFresh(q0, cn.Q);
      BestOfAll(cn.Q, maxUBAction, maxVal);
    }

    lemma AllFresh(q: seq<QEntry>, q': seq<QEntry>)
      requires Valid() && |q| == |q'| && forall a | 0 <= a < |q| :: EdgesOk(q[a].outcomes, numStates)
      requires forall a | 0 <= a < |q| :: q'[a] == q[a].(ubVal := Some(Backup(q[a])))
      ensures Refreshed(q, q') && Fresh(q, q')
    {
      hide Valid, EdgesOk, Backup;
    }

    /** Entry `b` after the actions in `order` have been backed up. */
    ghost function Recomputed(q0: seq<QEntry>, order: seq<nat>, b: nat): QEntry
      requires Valid() && b < |q0| && EdgesOk(q0[b].outcomes, numStates)
      reads this`pts, this`supportList, this`cornerPts
    {
      if b in order then q0[b].(ubVal := Some(Backup(q0[b]))) else q0[b]
    }

    /** After the actions in `order` have been backed up, action `a` is the first of highest cached value. */
    ghost predicate IsNext(q0: seq<QEntry>, order: seq<nat>, a: nat)
      requires Valid() && forall b | 0 <= b < |q0| :: EdgesOk(q0[b].outcomes, numStates)
      reads this`pts, this`supportList, this`cornerPts
    {
      && a < |q0| && (forall b | 0 <= b < |q0| :: Recomputed(q0, order, b).ubVal.Some?)
      && var best := Recomputed(q0, order, a).ubVal.value;
         && (forall b | 0 <= b < |q0| :: Recomputed(q0, order, b).ubVal.value <= best)
         && (forall b | 0 <= b < a :: Recomputed(q0, order, b).ubVal.value < best)
    }

    /** Each action in `order` is backed up when its turn comes as the one of highest cached value, and only once. */
    ghost predicate IsLazy(q0: seq<QEntry>, order: seq<nat>)
      requires Valid() && forall b | 0 <= b < |q0| :: EdgesOk(q0[b].outcomes, numStates)
      reads this`pts, this`supportList, this`cornerPts
    {
      forall i | 0 <= i < |order| :: order[i] !in order[..i] && IsNext(q0, order[..i], order[i])
    }

    lemma OneMoreLazy(q0: seq<QEntry>, order: seq<nat>, a: nat)
      requires Valid() && forall b | 0 <= b < |q0| :: EdgesOk(q0[b].outcomes, numStates)
      requires IsLazy(q0, order) && a !in order && IsNext(q0, order, a)
      ensures IsLazy(q0, order + [a])
    {
      hide Valid, EdgesOk, IsNext;
      var all := order + [a];
      forall i | 0 <= i < |all|
        ensures all[i] !in all[..i] && IsNext(q0, all[..i], all[i])
      {
        assert i < |order| ==> all[..i] == order[..i];
        assert i == |order| ==> all[..i] == order;
      }
    }

    /** Backs up the action of highest cached value until that action is one already backed up. The ghost result is the
        order in which actions are backed up. */
    method GetNewUBValueUseCache(cn: BeliefNode) returns (maxVal: real, maxUBAction: nat, ghost order: seq<nat>)
      requires Valid() && cn.NodeOk(numStates) && |cn.Q| > 0 && AllDefined(cn.Q)
      modifies cn`Q
      ensures Refreshed(old(cn.Q), cn.Q) && IsBest(cn.Q, maxUBAction, maxVal)
      ensures IsLazy(old(cn.Q), order) && maxUBAction in order
      ensures forall b | 0 <= b < |cn.Q| :: cn.Q[b] == Recomputed(old(cn.Q), order, b)
      ensures maxVal == Backup(old(cn.Q[maxUBAction]))
    {
      hide Valid, Belief, EdgesOk, Backup, IsLazy, Refreshed, IsBest, Recomputed, IsNext, AllDefined;
      hide BoundPairs.IsArgmax;
      ghost var q0 := cn.Q;
      var n := |cn.Q|;
      var cached := CachedValues(cn.Q);
      var updated := seq(n, a => false);
      order := [];
      NothingLazy(q0);
      maxUBAction := BoundPairs.ArgmaxElt(cached);
      while !updated[maxUBAction]
        invariant |cn.Q| == |q0| == |cached| == |updated| == n
        invariant forall b | 0 <= b < n :: cn.Q[b].ubVal == Some(cached[b])
        invariant forall b: nat | b < n :: cn.Q[b] == Recomputed(q0, order, b)
        invariant IsLazy(q0, order) && forall b: nat :: b in order <==> b < n && updated[b]
        invariant maxUBAction < n && BoundPairs.IsArgmax(cached, maxUBAction) && |order| <= n
        decreases n - |order|
      {
        IsNextOf(q0, cn.Q, order, cached, maxUBAction);
        OneMoreLazy(q0, order, maxUBAction);
        LazyIsShort(q0, order + [maxUBAction]);
        NotYet(q0, order, maxUBAction);
        var val := GetNewUBValueQ(cn, maxUBAction);
        RecomputedMore(q0, order, maxUBAction);
        order := order + [maxUBAction];
        cached := cached[maxUBAction := val];
        updated := updated[maxUBAction := true];
        maxUBAction := BoundPairs.ArgmaxElt(cached);
      }
      maxVal := cached[maxUBAction];
      LazyDone(q0, cn.Q, order, cached, maxUBAction);
    }

    method CachedValues(q: seq<QEntry>) returns (cached: seq<real>)
      requires AllDefined(q)
      ensures |cached| == |q| && forall b | 0 <= b < |q| :: q[b].ubVal == Some(cached[b])
    {
      cached := [];
      for a := 0 to |q|
        invariant |cached| == a && forall b | 0 <= b < a :: q[b].ubVal == Some(cached[b])
      {
        cached := cached + [q[a].ubVal.value];
      }
    }

    lemma NotYet(q0: seq<QEntry>, order: seq<nat>, a: nat)
      requires Valid() && a < |q0| && EdgesOk(q0[a].outcomes, numStates) && a !in order
      ensures Recomputed(q0, order, a) == q0[a]
    {
    }

    /** Backing up one more action changes its entry and no other. */
    lemma RecomputedMore(q0: seq<QEntry>, order: seq<nat>, a: nat)
      requires Valid() && a < |q0| && forall b | 0 <= b < |q0| :: EdgesOk(q0[b].outcomes, numStates)
      ensures forall b: nat | b < |q0| ::
        Recomputed(q0, order + [a], b) ==
          (if b == a then q0[b].(ubVal := Some(Backup(q0[b]))) else Recomputed(q0, order, b))
    {
      hide Valid, EdgesOk, Backup;
    }

    lemma LazyIsShort(q0: seq<QEntry>, order: seq<nat>)
      requires Valid() && (forall b | 0 <= b < |q0| :: EdgesOk(q0[b].outcomes, numStates)) && IsLazy(q0, order)
      ensures |order| <= |q0|
    {
      hide Valid, EdgesOk, Recomputed;
      forall b | b in order
        ensures b < |q0|
      {
        var i :| 0 <= i < |order| && order[i] == b;
        assert IsNext(q0, order[..i], order[i]);
      }
      hide *;
      OrderDistinct(q0, order);
      BoundPairs.ItemsSize(order);
      BoundPairs.SubsetOfRange(BoundPairs.Items(order), |q0|);
    }

    lemma OrderDistinct(q0: seq<QEntry>, order: seq<nat>)
      requires Valid() && (forall b | 0 <= b < |q0| :: EdgesOk(q0[b].outcomes, numStates)) && IsLazy(q0, order)
      ensures forall i | 0 <= i < |order| :: order[i] !in order[..i]
    {
      hide Valid, EdgesOk, IsNext;
    }

    lemma LazyDone(q0: seq<QEntry>, q: seq<QEntry>, order: seq<nat>, cached: seq<real>, a: nat)
      requires Valid() && forall b | 0 <= b < |q0| :: EdgesOk(q0[b].outcomes, numStates)
      requires |q| == |q0| == |cached| && BoundPairs.IsArgmax(cached, a) && a in order
      requires forall b: nat | b < |q| :: q[b] == Recomputed(q0, order, b) && q[b].ubVal == Some(cached[b])
      ensures Refreshed(q0, q) && IsBest(q, a, cached[a]) && cached[a] == Backup(q0[a])
    {
      hide Valid, EdgesOk, Backup;
      assert q[a] == Recomputed(q0, order, a);
    }

    lemma NothingLazy(q0: seq<QEntry>)
      requires Valid() && forall b | 0 <= b < |q0| :: EdgesOk(q0[b].outcomes, numStates)
      ensures IsLazy(q0, []) && forall b: nat | b < |q0| :: Recomputed(q0, [], b) == q0[b]
    {
    }

    lemma IsNextOf(q0: seq<QEntry>, q: seq<QEntry>, order: seq<nat>, cached: seq<real>, a: nat)
      requires Valid() && forall b | 0 <= b < |q0| :: EdgesOk(q0[b].outcomes, numStates)
      requires |q| == |q0| == |cached| && BoundPairs.IsArgmax(cached, a)
      requires forall b | 0 <= b < |q| :: q[b] == Recomputed(q0, order, b) && q[b].ubVal == Some(cached[b])
      ensures IsNext(q0, order, a)
    {
      hide Valid, EdgesOk, Recomputed;
    }

    /** Backups keep cached values sound, and the best of them lies above the node's value. */
    lemma NewValueIsSound(value: seq<real> -> real, b: CVector, q: seq<QEntry>, q': seq<QEntry>, a: nat, val: real)
      requires Valid() && Sound(value) && discount >= 0.0
      requires forall i | 0 <= i < |q| :: EdgesOk(q[i].outcomes, numStates)
      requires QSound(value, discount, q) && BellmanAt(value, discount, b, q)
      requires Refreshed(q, q') && IsBest(q', a, val)
      ensures QSound(value, discount, q') && value(Dense(b)) <= val
    {
      hide Valid, Sound, EdgesOk, Backup, TrueQ;
      forall i | 0 <= i < |q|
        ensures TrueQ(value, discount, q'[i]) == TrueQ(value, discount, q[i])
        ensures TrueQ(value, discount, q[i]) <= q'[i].ubVal.value
      {
        SameTrueQ(value, discount, q[i], q'[i]);
        BackupIsSound(value, q[i]);
      }
    }

    /** What a listed point says about its own belief is never forgotten. */
    lemma ValueAtPoint(p: BVPair)
      requires Valid() && p in pts
      ensures Belief(p.b, numStates) && ValueAt(p.b) <= p.v
    {
      var b := p.b;
      CandidatesOk(useSawtoothSupportList, pts, supportList, b, numStates);
      BeliefFilled(b, numStates);
      if useSawtoothSupportList {
        RivalInList(pts, supportList, p, p, numStates);
      }
      hide Belief, SupportOk, Plane, PointBound, Distinct;
      OwnBound(cornerPts, b, p.v);
      BoundIsBelow(cornerPts, Candidates(useSawtoothSupportList, pts, supportList, b), b, p);
    }

    lemma CornerRemembered(b: CVector, v: real, corners0: seq<real>)
      requires Valid() && Belief(b, numStates) && b.size == numStates && CornerExact(b, numStates)
      requires AtCorner(b, numStates) && |corners0| == numStates && cornerPts == corners0[CornerOf(b, numStates) := v]
      ensures ValueAt(b) <= v
    {
      hide Valid, Belief, ValueAt, NearCorner;
      var k := CornerOf(b, numStates);
      assert Dense(b) == Corner(k, numStates);
      ValueAtCorner(b, k);
    }

    lemma CostAt(deleted: nat, pts0: seq<BVPair>, support0: seq<seq<BVPair>>, b: CVector)
      requires Valid() && PointsOk(pts0, numStates) && Belief(b, numStates)
      requires useSawtoothSupportList ==> SupportOk(pts0, support0, numStates)
      requires CostWithin(deleted, pts0, support0)
      ensures ValueAt(b) <= LookedUp(cornerPts, useSawtoothSupportList, pts0, support0, b)
                            + deleted as real * BOUNDS_PRUNE_EPS
    {
    }

    lemma ValueAtCorner(b: CVector, k: nat)
      requires Valid() && Belief(b, numStates) && k < numStates && Dense(b) == Corner(k, numStates)
      ensures ValueAt(b) <= cornerPts[k]
    {
      CandidatesOk(useSawtoothSupportList, pts, supportList, b, numStates);
      BeliefSize(b, numStates);
      DotCorner(k, numStates, cornerPts, numStates);
      PlaneIs(cornerPts, b);
      hide Belief, SupportOk, PointBound, Distinct, Plane;
      var points := Candidates(useSawtoothSupportList, pts, supportList, b);
      if points != [] {
        BoundIsBelow(cornerPts, points, b, points[0]);
      }
    }

    /** The bound at `b` is at most `v`, up to one tolerance for each of `deleted` points that were pruned. */
    ghost predicate Remembers(b: CVector, v: real, deleted: int)
      requires Valid() && Belief(b, numStates)
      reads this`pts, this`supportList, this`cornerPts
    {
      ValueAt(b) <= v + deleted as real * BOUNDS_PRUNE_EPS
    }

    /** Adds a point, and prunes if it is time. For a belief that is no corner, or exactly one, that keeps the bound
        valid, and the bound at the belief is then at most the value added, up to what pruning costs. */
    method AddAndPrune(bv: BVPair, ghost value: seq<real> -> real)
      requires Valid() && bv !in pts && Belief(bv.b, numStates) && Sound(value) && value(Dense(bv.b)) <= bv.v
      modifies this`pts, this`supportList, this`cornerPts, this`lastPruneNumPts, this`lastPruneNumBackups, pts, bv
      ensures Valid() && bv.b.size == numStates
      ensures CornerExact(bv.b, numStates) ==> Sound(value) && Remembers(bv.b, bv.v, |old(pts)| + 1 - |pts|)
      ensures Step(useSawtoothSupportList, old(Now()), bv, Now())
    {
      hide *;
      BeliefSize(bv.b, numStates);
      ListsAre();
      ghost var s := Now();
      AddPoint(bv);
      ListsAre();
      ghost var t, support1, exact := Now(), supportList, CornerExact(bv.b, numStates);
      AddedSize(s, bv);
      assert pts == old(pts) || pts == old(pts) + [bv];
      if exact {
        RememberedNow(s, bv, value);
      }
      MaybePrune(bv.numBackupsAtCreation);
      ListsAre();
      StepIs(useSawtoothSupportList, s, bv, Now());
      if exact {
        StillRemembered(t, support1, |s.points| + 1, bv, value);
      }
    }

    /** Right after a point has been added, it is found again, and the bound is valid. */
    lemma RememberedNow(s: Lists, bv: BVPair, value: seq<real> -> real)
      requires Valid() && Belief(bv.b, numStates) && bv.b.size == numStates && CornerExact(bv.b, numStates)
      requires |s.corners| == numStates && Now() == AddedTo(s, bv) && Sound(value)
      ensures LookedUp(cornerPts, useSawtoothSupportList, pts, supportList, bv.b) <= bv.v
      ensures Sublinear(value, numStates) && CornersValid(value, cornerPts, numStates) && PointsSound(value, pts)
    {
      hide Belief, SupportOk, Sublinear, PointsOk, Distinct, CornersValid, CornerExact, NearCorner, LookedUp;
      if AtCorner(bv.b, numStates) {
        CornerRemembered(bv.b, bv.v, s.corners);
      } else {
        ValueAtPoint(bv);
      }
    }

    /** Pruning keeps that, up to its cost. */
    lemma StillRemembered(t: Lists, support: seq<seq<BVPair>>, size: nat, bv: BVPair, value: seq<real> -> real)
      requires Valid() && Belief(bv.b, numStates) && t.corners == cornerPts && PointsOk(t.points, numStates)
      requires useSawtoothSupportList ==> SupportOk(t.points, support, numStates)
      requires |pts| <= |t.points| <= size && CostWithin(|t.points| - |pts|, t.points, support)
      requires LookedUp(cornerPts, useSawtoothSupportList, t.points, support, bv.b) <= bv.v
      requires Sublinear(value, numStates) && CornersValid(value, cornerPts, numStates) && PointsSound(value, t.points)
      requires forall p | p in pts :: p in t.points
      ensures Sound(value) && Remembers(bv.b, bv.v, size - |pts|)
    {
      CostAt(|t.points| - |pts|, t.points, support, bv.b);
      hide Belief, SupportOk, Sublinear, PointsOk, Distinct, CornersValid, LookedUp, CostWithin;
      assert (|t.points| - |pts|) as real <= (size - |pts|) as real;
    }

    /** Gives the node a new upper bound and, on request, remembers it as a point. */
    method SetUBForNode(cn: BeliefNode, newUB: real, addBV: bool, numBackups: int, ghost value: seq<real> -> real)
      returns (ghost added: BVPair)
      requires Valid() && Belief(cn.s, numStates)
      requires Sound(value) && value(Dense(cn.s)) <= newUB
      modifies this`pts, this`supportList, this`cornerPts, this`lastPruneNumPts, this`lastPruneNumBackups, pts, cn`ubVal
      ensures Valid() && cn.ubVal == newUB && cn.s.size == numStates
      ensures !addBV || CornerExact(cn.s, numStates) ==> Sound(value)
      ensures addBV && CornerExact(cn.s, numStates) ==> Remembers(cn.s, newUB, |old(pts)| + 1 - |pts|)
      ensures !addBV ==> supportList == old(supportList) && Now() == old(Now())
      ensures fresh(added) && added.b == cn.s && added.v == newUB && added.numBackupsAtCreation == numBackups
      ensures addBV ==> Step(useSawtoothSupportList, old(Now()), added, Now())
    {
      hide Step;
      hide Belief, SupportOk, Sublinear, PointsOk, Distinct, CornersValid, CornerExact, NearCorner, CostWithin;
      hide PointsSound, Remembers;
      BeliefSize(cn.s, numStates);
      var newBV := new BVPair(cn.s, newUB, numBackups);
      added := newBV;
      cn.ubVal := newUB;
      if addBV {
        AddAndPrune(newBV, value);
      }
    }

    /** The bound of a node that has just been created. */
    method InitNodeBound(cn: BeliefNode, numBackups: int, ghost value: seq<real> -> real)
      returns (ghost added: BVPair)
      requires Valid() && Belief(cn.s, numStates) && Sound(value)
      requires cn.isTerminal ==> value(Dense(cn.s)) <= 0.0
      modifies this`pts, this`supportList, this`cornerPts, this`lastPruneNumPts, this`lastPruneNumBackups, pts, cn`ubVal
      ensures Valid() && value(Dense(cn.s)) <= cn.ubVal && cn.s.size == numStates
      ensures !cn.isTerminal ==> Sound(value) && cn.ubVal == old(ValueAt(cn.s)) == ValueAt(cn.s)
      ensures cn.isTerminal ==> cn.ubVal == 0.0
      ensures cn.isTerminal && CornerExact(cn.s, numStates) ==>
        Sound(value) && Remembers(cn.s, 0.0, |old(pts)| + 1 - |pts|)
      ensures !cn.isTerminal ==> Now() == old(Now())
      ensures fresh(added) && added.b == cn.s && added.v == cn.ubVal && added.numBackupsAtCreation == numBackups
      ensures cn.isTerminal ==> Step(useSawtoothSupportList, old(Now()), added, Now())
    {
      hide Step;
      BeliefSize(cn.s, numStates);
      hide Belief, SupportOk, ValueAt, Sublinear, PointsSound, CornerExact;
      if cn.isTerminal {
        added := SetUBForNode(cn, 0.0, true, numBackups, value);
      } else {
        var bound := GetValue(cn.s);
        ValueIsSound(value, cn.s);
        added := SetUBForNode(cn, bound, false, numBackups, value);
      }
    }

    /** Backs up a node. Whatever value function lay below the bound and satisfies the Bellman equation still does
        at this node, and, unless the belief is nearly a corner without being it, everywhere else. */
    method Update(cn: BeliefNode, numBackups: int, ghost value: seq<real> -> real)
      returns (maxUBAction: nat, ghost added: BVPair)
      requires Valid() && cn.NodeOk(numStates) && |cn.Q| > 0 && discount >= 0.0
      requires Sound(value) && cn.NodeSound(value, discount) && BellmanAt(value, discount, cn.s, cn.Q)
      modifies this`pts, this`supportList, this`cornerPts, this`lastPruneNumPts, this`lastPruneNumBackups, pts
      modifies cn`ubVal, cn`Q
      ensures Valid() && cn.NodeOk(numStates) && SameActions(old(cn.Q), cn.Q)
      ensures cn.NodeSound(value, discount) && cn.s.size == numStates
      ensures IsBest(cn.Q, maxUBAction, cn.ubVal) && cn.ubVal == old(Backup(cn.Q[maxUBAction]))
      ensures var ubVal := cn.ubVal; old(IsLookahead(cn.Q[maxUBAction], ubVal))
      ensures CornerExact(cn.s, numStates) ==> Sound(value) && Remembers(cn.s, cn.ubVal, |old(pts)| + 1 - |pts|)
      ensures fresh(added) && added.b == cn.s && added.v == cn.ubVal && added.numBackupsAtCreation == numBackups
      ensures Step(useSawtoothSupportList, old(Now()), added, Now())
    {
      hide Step;
      ghost var q0 := cn.Q;
      var newUBVal;
      hide Valid, Sound, Belief, QSound, BellmanAt, CornerExact, EdgesOk, Backup, IsLookahead;
      if cn.Q[0].ubVal.None? {
        newUBVal, maxUBAction := GetNewUBValueSimple(cn);
      } else {
        ghost var order;
        newUBVal, maxUBAction, order := GetNewUBValueUseCache(cn);
      }
      NewValueIsSound(value, cn.s, q0, cn.Q, maxUBAction, newUBVal);
      BackupIsLookahead(q0[maxUBAction]);
      added := SetUBForNode(cn, newUBVal, true, numBackups, value);
    }
  }

  lemma SameTrueQ(value: seq<real> -> real, discount: real, q: QEntry, q': QEntry)
    requires q' == q.(ubVal := q'.ubVal)
    ensures TrueQ(value, discount, q') == TrueQ(value, discount, q)
  {
  }

  /** A belief that counts as a corner is that corner. */
  ghost predicate CornerExact(b: CVector, n: nat)
    requires b.size == n
  {
    forall k: nat | k < n && NearCorner(b, k) :: Dense(b) == Corner(k, n)
  }

  /** Overwriting the corner value of state `k` by any upper bound at the belief `b` keeps the corner values valid,
      whatever the value function and the other corner values are. */
  ghost predicate SafeCorner(b: CVector, k: nat, n: nat)
    requires b.size == n && k < n
  {
    forall value: seq<real> -> real, corners, v :: SafeFor(value, corners, v, b, k, n)
  }

  ghost predicate SafeFor(value: seq<real> -> real, corners: seq<real>, v: real, b: CVector, k: nat, n: nat)
    requires b.size == n && k < n
  {
    Sublinear(value, n) && CornersValid(value, corners, n) && value(Dense(b)) <= v ==>
      CornersValid(value, corners[k := v], n)
  }

  /** The value function that is the probability of state `k`. */
  function Share(k: nat): seq<real> -> real {
    (u: seq<real>) => if k < |u| then u[k] else 0.0
  }

  lemma ShareIsSublinear(k: nat, n: nat)
    requires k < n
    ensures Sublinear(Share(k), n) && CornersValid(Share(k), Corner(k, n), n)
  {
  }

  lemma {:induction false} SumCorner(k: nat, n: nat, i: nat)
    requires k < n && i <= n
    ensures Sum(Corner(k, n), i) == if k < i then 1.0 else 0.0
  {
    if i > 0 {
      SumCorner(k, n, i - 1);
    }
  }

  /** A belief that gives state `k` all probability is that corner. */
  lemma FullShare(b: CVector, k: nat, n: nat)
    requires Belief(b, n) && k < n
    ensures b.size == n && b.Get(k) <= 1.0 && (b.Get(k) == 1.0 <==> Dense(b) == Corner(k, n))
  {
    BeliefSize(b, n);
    var u, c := Dense(b), Corner(k, n);
    forall i: nat | i < n
      ensures u[i] == b.Get(i) >= 0.0
    {
      BeliefSign(b, n, i);
    }
    SumCorner(k, n, n);
    if u[k] >= 1.0 && u != c {
      var i :| 0 <= i < n && u[i] != c[i];
      assert c[i] < u[i];
      SumMono(c, u, n);
    }
  }

  /** Overwriting a corner value is safe exactly for the corner itself, however near to it the belief is. */
  lemma SafeExactly(b: CVector, k: nat, n: nat)
    requires Belief(b, n) && k < n
    ensures b.size == n && (SafeCorner(b, k, n) <==> Dense(b) == Corner(k, n))
  {
    FullShare(b, k, n);
    if Dense(b) == Corner(k, n) {
    } else {
      ShareIsSublinear(k, n);
      hide Sublinear;
      var v := Share(k)(Dense(b));
      assert v == b.Get(k) < 1.0;
      assert Share(k)(Corner(k, n)) == 1.0;
      assert !CornersValid(Share(k), Corner(k, n)[k := v], n);
      assert !SafeFor(Share(k), Corner(k, n), v, b, k, n);
    }
  }

  /** So `CornerExact` is the exact condition for adding a point safely. */
  lemma CornerExactIsSafe(b: CVector, n: nat)
    requires Belief(b, n)
    ensures b.size == n
    ensures CornerExact(b, n) <==> forall k: nat | k < n && NearCorner(b, k) :: SafeCorner(b, k, n)
  {
    BeliefSize(b, n);
    hide NearCorner, Belief, SafeCorner;
    forall k: nat | k < n
      ensures SafeCorner(b, k, n) <==> Dense(b) == Corner(k, n)
    {
      SafeExactly(b, k, n);
    }
  }

  /** A belief that gives 1e-7 to its second state: it counts as the corner of the first. */
  function AlmostSure(): CVector {
    CVector(2, [CEntry(0, 0.9999999), CEntry(1, 0.0000001)])
  }

  /** An instance of the failing half. */
  lemma AlmostSureIsUnsafe()
    ensures Belief(AlmostSure(), 2) && NearCorner(AlmostSure(), 0) && !SafeCorner(AlmostSure(), 0, 2)
  {
    AlmostSureIsBelief();
    FullShare(AlmostSure(), 0, 2);
    hide AlmostSure, Belief, NearCorner, SafeCorner;
    SafeExactly(AlmostSure(), 0, 2);
  }

  lemma AlmostSureIsBelief()
    ensures Belief(AlmostSure(), 2) && NearCorner(AlmostSure(), 0) && AlmostSure().Get(0) < 1.0
  {
    var b := AlmostSure();
    AtStored(b.data, 0);
    AtStored(b.data, 1);
    hide At;
    var d := Dense(b);
    assert d[0] == b.Get(0) && d[1] == b.Get(1);
    assert Sum(d, 2) == Sum(d, 1) + d[1] && Sum(d, 1) == Sum(d, 0) + d[0];
  }

  lemma {:induction false} DotCorner(k: nat, n: nat, corners: seq<real>, i: nat)
    requires k < n == |corners| && i <= n
    ensures Dot(Corner(k, n), corners, i) == if k < i then corners[k] else 0.0
  {
    if i > 0 {
      DotCorner(k, n, corners, i - 1);
    }
  }

  lemma CornerStaysValid(value: seq<real> -> real, corners: seq<real>, corners': seq<real>, bv: BVPair, n: nat)
    requires bv.b.size == n && CornersValid(value, corners, n) && CornerExact(bv.b, n) && value(Dense(bv.b)) <= bv.v
    requires corners' == if AtCorner(bv.b, n) then corners[CornerOf(bv.b, n) := bv.v] else corners
    ensures CornersValid(value, corners', n)
  {
  }

  lemma BoundPush(corners: seq<real>, points: seq<BVPair>, i: nat, b: CVector)
    requires Belief(b, |corners|) && PointsOk(points, |corners|) && i < |points|
    ensures PointsOk(points[..i + 1], |corners|) && Belief(points[i].b, |corners|)
    ensures Bound(corners, points[..i + 1], b)
         == Min(Bound(corners, points[..i], b), PointBound(corners, points[i].b, points[i].v, b))
    ensures Bound(corners, points[..i], b) <= Plane(corners, b)
  {
    assert points[..i + 1][..i] == points[..i];
    assert points[i] in points;
    BoundIsBelow(corners, points[..i], b, points[i]);
  }
}
