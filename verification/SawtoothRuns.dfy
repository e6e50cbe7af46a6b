/** The sawtooth lists over whole runs: additions in any order, with a pruning whenever the list has outgrown the
    last one. */
module SawtoothRuns {
  import opened RealArith
  import opened SparseVectors
  import opened Beliefs
  import opened PointerLists
  import opened SawtoothBound

  /** `h` are the states of the lists while the points `a` are added. The corner values at the start are arbitrary.
      The backup count never falls. */
  ghost predicate Run(useSupport: bool, h: seq<Lists>, a: seq<BVPair>) {
    && |h| == |a| + 1
    && ListsOk(h[0]) && h[0].points == [] && h[0].lastNum == 0 && h[0].lastPrune == -1
    && (forall i | 0 <= i < |a| :: 0 <= a[i].numBackupsAtCreation)
    && (forall i, j | 0 <= i < j < |a| :: a[i].numBackupsAtCreation <= a[j].numBackupsAtCreation)
    && (forall i | 0 <= i < |a| :: Step(useSupport, h[i], a[i], h[i + 1]))
  }

  /** No listed point, and no pruning, is later than backup count `k`. */
  ghost predicate NotAfter(s: Lists, k: int) {
    (forall p | p in s.points :: 0 <= p.numBackupsAtCreation <= k) && s.lastPrune <= k
  }

  lemma StepOk(useSupport: bool, s: Lists, bv: BVPair, t: Lists, k: int)
    requires Step(useSupport, s, bv, t) && NotAfter(s, bv.numBackupsAtCreation)
    requires 0 <= bv.numBackupsAtCreation <= k
    ensures ListsOk(s) && ListsOk(t) && |t.corners| == |s.corners| && Belief(bv.b, |s.corners|) && NotAfter(t, k)
    ensures t.corners == AddedTo(s, bv).corners
  {
    hide Belief, Distinct, Undominated, HasDominator, Bound, AtCorner;
    assert forall p | p in AddedTo(s, bv).points :: p in s.points || p == bv;
  }

  lemma {:induction false} RunOk(useSupport: bool, h: seq<Lists>, a: seq<BVPair>, i: nat, k: int)
    requires Run(useSupport, h, a) && i < |h|
    requires -1 <= k && (i > 0 ==> a[i - 1].numBackupsAtCreation <= k)
    ensures ListsOk(h[i]) && |h[i].corners| == |h[0].corners| && NotAfter(h[i], k)
  {
    hide Step, ListsOk;
    if i > 0 {
      RunOk(useSupport, h, a, i - 1, a[i - 1].numBackupsAtCreation);
      StepOk(useSupport, h[i - 1], a[i - 1], h[i], k);
    }
  }

  // ---------- Validity ----------

  /** Corners and points lie above the value function. */
  ghost predicate SoundLists(value: seq<real> -> real, s: Lists) {
    CornersValid(value, s.corners, |s.corners|) && PointsSound(value, s.points)
  }

  lemma StepSound(value: seq<real> -> real, useSupport: bool, s: Lists, bv: BVPair, t: Lists)
    requires Step(useSupport, s, bv, t) && SoundLists(value, s)
    requires bv.b.size == |s.corners| && CornerExact(bv.b, |s.corners|) && value(Dense(bv.b)) <= bv.v
    ensures SoundLists(value, t)
  {
    hide Belief, Distinct, Undominated, HasDominator, Bound, AtCorner, CornersValid, PointsOk, CornerExact;
    CornerStaysValid(value, s.corners, AddedTo(s, bv).corners, bv, |s.corners|);
    assert forall p | p in t.points :: p in AddedTo(s, bv).points;
  }

  /** In every run, whatever sublinear value function is respected by the corner values at the start and by every
      value added is respected by the bound, at all times and at every belief. */
  lemma {:induction false} RunSound(value: seq<real> -> real, useSupport: bool, h: seq<Lists>, a: seq<BVPair>, i: nat,
                                    b: CVector)
    requires Run(useSupport, h, a) && i < |h|
    requires Belief(b, |h[0].corners|) && Sublinear(value, |h[0].corners|) && SoundLists(value, h[0])
    requires forall j | 0 <= j < |a| ::
      a[j].b.size == |h[0].corners| && CornerExact(a[j].b, |h[0].corners|) && value(Dense(a[j].b)) <= a[j].v
    ensures ListsOk(h[i]) && |h[i].corners| == |h[0].corners| && SoundLists(value, h[i])
    ensures value(Dense(b)) <= Bound(h[i].corners, h[i].points, b)
  {
    hide Step, Belief, Sublinear, CornersValid, CornerExact, Bound;
    RunOk(useSupport, h, a, i, if i > 0 then a[i - 1].numBackupsAtCreation else -1);
    if i > 0 {
      RunSound(value, useSupport, h, a, i - 1, b);
      StepSound(value, useSupport, h[i - 1], a[i - 1], h[i]);
    }
    BoundIsSound(value, h[i].corners, h[i].points, b);
  }

  // ---------- Corner values ----------

  lemma {:induction false} DotShift(u: seq<real>, c: seq<real>, k: nat, v: real, n: nat)
    requires n <= |u| == |c| && k < |c|
    ensures Dot(u, c[k := v], n) == Dot(u, c, n) - if k < n then Times(c[k] - v, u[k]) else 0.0
  {
    if n > 0 {
      DotShift(u, c, k, v, n - 1);
      if k == n - 1 {
        DotSame(u, c, k, v, k);
        assert u[k] * c[k] - u[k] * v == (c[k] - v) * u[k];
      }
    }
  }

  lemma {:induction false} DotSame(u: seq<real>, c: seq<real>, k: nat, v: real, n: nat)
    requires n <= k < |c| == |u|
    ensures Dot(u, c[k := v], n) == Dot(u, c, n)
  {
    if n > 0 {
      DotSame(u, c, k, v, n - 1);
    }
  }

  lemma PlaneShift(corners: seq<real>, k: nat, v: real, b: CVector)
    requires Belief(b, |corners|) && k < |corners|
    ensures Plane(corners[k := v], b) == Plane(corners, b) - Times(corners[k] - v, b.Get(k))
  {
    hide Times, At;
    DotShift(Dense(b), corners, k, v, b.size);
  }

  /** What the point (c, v) would give at `b` if it counted regardless of the plane. */
  ghost function Reach(corners: seq<real>, c: CVector, v: real, b: CVector): real
    requires Belief(b, |corners|) && Belief(c, |corners|)
  {
    Plane(corners, b) - Times(Ratio(b, c, |corners|), Plane(corners, c) - v)
  }

  /** The share of state `k` in `b` that is left when `c` has been fitted under it. */
  ghost function Spare(b: CVector, c: CVector, n: nat, k: nat): real
    requires Belief(b, n) && Belief(c, n)
  {
    b.Get(k) - Times(Ratio(b, c, n), c.Get(k))
  }

  lemma ReachShift(corners: seq<real>, k: nat, v: real, c: CVector, w: real, b: CVector)
    requires Belief(b, |corners|) && Belief(c, |corners|) && k < |corners|
    ensures Reach(corners[k := v], c, w, b)
         == Reach(corners, c, w, b) - Times(corners[k] - v, Spare(b, c, |corners|, k))
  {
    PlaneShift(corners, k, v, b);
    PlaneShift(corners, k, v, c);
    var d, r := corners[k] - v, Ratio(b, c, |corners|);
    hide Plane, Ratio, Belief, At, CVector.Get;
    ShiftTerms(d, r, b.Get(k), c.Get(k), Plane(corners, c), w);
  }

  lemma ShiftTerms(d: real, r: real, bk: real, ck: real, plane: real, w: real)
    ensures Times(d, bk) - Times(d, bk - Times(r, ck)) == Times(r, plane - w) - Times(r, plane - Times(d, ck) - w)
  {
    hide Times;
    TimesMinus(d, bk, Times(r, ck));
    TimesMinus(r, plane - w, Times(d, ck));
    assert plane - w - Times(d, ck) == plane - Times(d, ck) - w;
    TimesAssoc(d, r, ck);
    TimesAssoc(r, d, ck);
    TimesCommutes(d, r);
  }

  lemma TimesCommutes(x: real, y: real)
    ensures Times(x, y) == Times(y, x)
  {
  }

  /** Exactly when a point dominates another one after a corner value has been overwritten: the bound it gives has
      changed by the change of the corner value times the spare share. */
  lemma DominatesAfterCorner(corners: seq<real>, k: nat, v: real, x: BVPair, y: BVPair)
    requires Belief(x.b, |corners|) && Belief(y.b, |corners|) && k < |corners|
    ensures PointDominates(corners[k := v], x, y) <==>
      && Plane(corners, x.b) - Times(corners[k] - v, x.b.Get(k)) > x.v
      && (forall i: nat :: x.b.Has(i) ==> y.b.Has(i))
      && Reach(corners, x.b, x.v, y.b) - Times(corners[k] - v, Spare(y.b, x.b, |corners|, k)) < y.v + BOUNDS_PRUNE_EPS
  {
    PlaneShift(corners, k, v, x.b);
    ReachShift(corners, k, v, x.b, x.v, y.b);
    hide Plane, Ratio, Belief, At, CVector.Get, CVector.Has, Times, Spare;
  }

  /** Lowering a corner value raises no bound. */
  lemma PointBoundFalls(corners: seq<real>, k: nat, v: real, c: CVector, w: real, b: CVector)
    requires Belief(b, |corners|) && Belief(c, |corners|) && k < |corners| && v <= corners[k]
    ensures PointBound(corners[k := v], c, w, b) <= PointBound(corners, c, w, b)
    ensures Plane(corners[k := v], b) <= Plane(corners, b)
  {
    var n, d, r := |corners|, corners[k] - v, Ratio(b, c, |corners|);
    PlaneShift(corners, k, v, b);
    PlaneShift(corners, k, v, c);
    ReachShift(corners, k, v, c, w, b);
    RatioBelow(b, c, n, k);
    RatioRange(b, c, n);
    BeliefSign(b, n, k);
    BeliefSign(c, n, k);
    hide Plane, Ratio, Belief, At, CVector.Get, CVector.Has, Times;
    TimesMono(d, 0.0, b.Get(k));
    TimesMono(d, 0.0, c.Get(k));
    TimesMono(d, 0.0, Spare(b, c, n, k));
    TimesIs(d, 0.0);
    if Plane(corners[k := v], c) <= w {
      TimesMono(r, Plane(corners[k := v], c) - w, 0.0);
      TimesIs(r, 0.0);
    }
  }

  lemma {:induction false} BoundFalls(corners: seq<real>, k: nat, v: real, points: seq<BVPair>, b: CVector)
    requires Belief(b, |corners|) && PointsOk(points, |corners|) && k < |corners| && v <= corners[k]
    ensures Bound(corners[k := v], points, b) <= Bound(corners, points, b)
  {
    hide Plane, PointBound, Belief;
    if points == [] {
      PointBoundFalls(corners, k, v, b, 0.0, b);
    } else {
      var p := points[|points| - 1];
      assert p in points;
      BoundFalls(corners, k, v, points[..|points| - 1], b);
      PointBoundFalls(corners, k, v, p.b, p.v, b);
    }
  }

  // ---------- What a run remembers ----------

  ghost predicate CornersFall(s: Lists, t: Lists) {
    |t.corners| == |s.corners| && forall k | 0 <= k < |s.corners| :: t.corners[k] <= s.corners[k]
  }

  /** The bound at `b` in state `t` is at most `v`, up to one tolerance for each of `gone` points. */
  ghost predicate Recalls(t: Lists, b: CVector, v: real, gone: int)
    requires ListsOk(t) && Belief(b, |t.corners|)
  {
    Bound(t.corners, t.points, b) <= v + gone as real * BOUNDS_PRUNE_EPS
  }

  lemma AddingLowers(s: Lists, bv: BVPair, b: CVector)
    requires ListsOk(s) && Belief(bv.b, |s.corners|) && Belief(b, |s.corners|) && ListsOk(AddedTo(s, bv))
    requires CornersFall(s, AddedTo(s, bv))
    ensures Bound(AddedTo(s, bv).corners, AddedTo(s, bv).points, b) <= Bound(s.corners, s.points, b)
  {
    hide Belief, Distinct, PointBound, Plane, AtCorner, NearCorner;
    if AtCorner(bv.b, |s.corners|) {
      BoundFalls(s.corners, CornerOf(bv.b, |s.corners|), bv.v, s.points, b);
    } else {
      assert (s.points + [bv])[..|s.points|] == s.points;
    }
  }

  lemma StepRecalls(useSupport: bool, s: Lists, bv: BVPair, t: Lists, b: CVector, v: real, gone: int)
    requires Step(useSupport, s, bv, t) && Belief(b, |s.corners|) && |t.corners| == |s.corners| && ListsOk(t)
    requires Bound(AddedTo(s, bv).corners, AddedTo(s, bv).points, b) <= v + gone as real * BOUNDS_PRUNE_EPS
    ensures Recalls(t, b, v, gone + |s.points| + 1 - |t.points|)
  {
    var mid := AddedTo(s, bv);
    AddedSize(s, bv);
    hide Belief, Distinct, Bound, AtCorner, Undominated, HasDominator, AddedTo;
    var lost := |mid.points| - |t.points|;
    assert Bound(t.corners, t.points, b)
        <= Bound(mid.corners, mid.points, b) + lost as real * BOUNDS_PRUNE_EPS;
    assert (gone + lost) as real == gone as real + lost as real;
    assert (gone + lost) as real <= (gone + |s.points| + 1 - |t.points|) as real;
  }

  lemma AddedIsRecalled(s: Lists, bv: BVPair)
    requires ListsOk(s) && Belief(bv.b, |s.corners|) && ListsOk(AddedTo(s, bv))
    requires bv.b.size == |s.corners| && CornerExact(bv.b, |s.corners|)
    ensures Bound(AddedTo(s, bv).corners, AddedTo(s, bv).points, bv.b) <= bv.v
  {
    var n, t := |s.corners|, AddedTo(s, bv);
    hide Belief, Distinct, NearCorner;
    if AtCorner(bv.b, n) {
      hide Bound;
      var k := CornerOf(bv.b, n);
      DotCorner(k, n, t.corners, n);
      BoundIsBelow(t.corners, t.points, bv.b, bv);
    } else {
      hide Bound, Plane, PointBound;
      OwnBound(t.corners, bv.b, bv.v);
      BoundIsBelow(t.corners, t.points, bv.b, bv);
    }
  }

  /** In every run, the value added for a belief is remembered for good, up to one tolerance for each point that has
      gone since, as long as corner values do not rise and the belief is sure of a state if it is nearly so. */
  lemma {:induction false} RunRemembers(useSupport: bool, h: seq<Lists>, a: seq<BVPair>, i: nat, j: nat)
    requires Run(useSupport, h, a) && i < j < |h|
    requires a[i].b.size == |h[0].corners| && CornerExact(a[i].b, |h[0].corners|)
    requires forall k | i < k < j :: CornersFall(h[k], h[k + 1])
    ensures ListsOk(h[j]) && |h[j].corners| == |h[0].corners| && Belief(a[i].b, |h[0].corners|)
    ensures Recalls(h[j], a[i].b, a[i].v, |h[i].points| + (j - i) - |h[j].points|)
  {
    var k := j - 1;
    RunOk(useSupport, h, a, k, a[k].numBackupsAtCreation) by {
      assert k > 0 ==> a[k - 1].numBackupsAtCreation <= a[k].numBackupsAtCreation;
    }
    RunOk(useSupport, h, a, j, a[k].numBackupsAtCreation);
    StepOk(useSupport, h[k], a[k], h[j], a[k].numBackupsAtCreation);
    assert ListsOk(AddedTo(h[k], a[k]));
    hide Belief, CornerExact, Bound, MaybePruned, PointsOk, Distinct;
    if j == i + 1 {
      AddedIsRecalled(h[i], a[i]);
      StepRecalls(useSupport, h[i], a[i], h[j], a[i].b, a[i].v, 0);
    } else {
      RunRemembers(useSupport, h, a, i, k);
      assert CornersFall(h[k], h[k + 1]);
      AddingLowers(h[k], a[k], a[i].b);
      StepRecalls(useSupport, h[k], a[k], h[j], a[i].b, a[i].v, |h[i].points| + (k - i) - |h[k].points|);
    }
  }

  // ---------- Skipped pairs ----------

  lemma StepSkipped(useSupport: bool, s: Lists, bv: BVPair, t: Lists)
    requires Step(useSupport, s, bv, t) && SkippedOk(useSupport, AddedTo(s, bv))
    ensures ListsOk(t) && SkippedOk(useSupport, t)
    ensures |AddedTo(s, bv).points| > NextPruneNumPts(s.lastNum) ==> PairsOk(t.corners, useSupport, t.points)
  {
    hide Belief, Distinct, Bound, AtCorner, HasDominator, PointDominates, Rivals, AddedTo;
    AddedKeepsNum(s, bv);
    var mid := AddedTo(s, bv);
    if |mid.points| > NextPruneNumPts(mid.lastNum) {
      forall x, y | x in t.points && y in t.points && x != y && Rivals(useSupport, x, y)
        ensures !PointDominates(t.corners, x, y)
      {
        assert Undominated(mid.corners, useSupport, t.points, mid.lastPrune, y);
      }
    }
  }

  lemma AddedKeepsNum(s: Lists, bv: BVPair)
    ensures AddedTo(s, bv).lastNum == s.lastNum && AddedTo(s, bv).lastPrune == s.lastPrune
  {
  }

  ghost predicate SkipsRightly(useSupport: bool, s: Lists, bv: BVPair) {
    ListsOk(AddedTo(s, bv)) && SkippedOk(useSupport, AddedTo(s, bv))
  }

  ghost predicate FitsIn(useSupport: bool, s: Lists, bv: BVPair) {
    ListsOk(s) && Belief(bv.b, |s.corners|) && Fits(useSupport, s, bv)
  }

  /** Until moment `n` of the run, no addition has left a skipped pair that needs pruning. */
  ghost predicate SkippedOkUntil(useSupport: bool, h: seq<Lists>, a: seq<BVPair>, n: nat)
    requires Run(useSupport, h, a) && n <= |a|
  {
    forall i | 0 <= i < n :: SkipsRightly(useSupport, h[i], a[i])
  }

  /** Until then, every point has fitted when it was added. */
  ghost predicate FittedUntil(useSupport: bool, h: seq<Lists>, a: seq<BVPair>, n: nat)
    requires Run(useSupport, h, a) && n <= |a|
  {
    forall i | 0 <= i < n :: FitsIn(useSupport, h[i], a[i])
  }

  /** In every run, skipping is justified throughout exactly if every point fits when it is added. */
  lemma {:induction false} SkippingIsJustifiedExactly(useSupport: bool, h: seq<Lists>, a: seq<BVPair>, n: nat)
    requires Run(useSupport, h, a) && n <= |a|
    ensures ListsOk(h[n])
    ensures SkippedOkUntil(useSupport, h, a, n) <==> FittedUntil(useSupport, h, a, n)
    ensures SkippedOkUntil(useSupport, h, a, n) ==> SkippedOk(useSupport, h[n])
  {
    RunOk(useSupport, h, a, n, if n > 0 then a[n - 1].numBackupsAtCreation else -1);
    if n > 0 {
      var s, bv := h[n - 1], a[n - 1];
      assert Step(useSupport, s, bv, h[n]);
      hide Fits, SkippedOk, Belief, ListsOk, MaybePruned, AtCorner, AddedTo;
      SkippingIsJustifiedExactly(useSupport, h, a, n - 1);
      AddedExactly(useSupport, s, bv);
      if SkippedOk(useSupport, AddedTo(s, bv)) {
        StepSkipped(useSupport, s, bv, h[n]);
      }
    }
  }

  /** A point that is added in time and is not nearly sure of a state: the guard under which nothing can go wrong. */
  ghost predicate InTime(s: Lists, bv: BVPair) {
    s.lastPrune < 0 || (!AtCorner(bv.b, |s.corners|) && bv.numBackupsAtCreation > s.lastPrune)
  }

  lemma InTimeFits(useSupport: bool, s: Lists, bv: BVPair)
    requires ListsOk(s) && Belief(bv.b, |s.corners|) && NotAfter(s, bv.numBackupsAtCreation)
    requires 0 <= bv.numBackupsAtCreation && InTime(s, bv)
    ensures Fits(useSupport, s, bv)
  {
    hide Belief, Distinct, AtCorner, PointDominates, Rivals;
  }

  /** In a run of such additions every pruning leaves no point that is dominated by a rival. */
  lemma InTimeIsEnough(useSupport: bool, h: seq<Lists>, a: seq<BVPair>, i: nat)
    requires Run(useSupport, h, a) && i < |a| && forall j | 0 <= j <= i :: InTime(h[j], a[j])
    ensures ListsOk(h[i + 1]) && SkippedOk(useSupport, h[i + 1])
    ensures |AddedTo(h[i], a[i]).points| > NextPruneNumPts(h[i].lastNum) ==>
      PairsOk(h[i + 1].corners, useSupport, h[i + 1].points)
  {
    forall j | 0 <= j <= i
      ensures FitsIn(useSupport, h[j], a[j])
    {
      RunOk(useSupport, h, a, j, a[j].numBackupsAtCreation);
      assert Step(useSupport, h[j], a[j], h[j + 1]);
      hide Step, Fits, InTime;
      InTimeFits(useSupport, h[j], a[j]);
    }
    hide Fits, SkippedOk, Belief, ListsOk, AtCorner, AddedTo;
    SkippingIsJustifiedExactly(useSupport, h, a, i + 1);
    assert SkipsRightly(useSupport, h[i], a[i]);
    StepSkipped(useSupport, h[i], a[i], h[i + 1]);
  }

  /** A pair outlives a pruning if neither point has a dominator among the pairs that pruning looks at, whether or
      not one of the two dominates the other. */
  lemma PairStays(useSupport: bool, s: Lists, bv: BVPair, t: Lists, x: BVPair, y: BVPair)
    requires Step(useSupport, s, bv, t) && x in AddedTo(s, bv).points && y in AddedTo(s, bv).points
    requires var mid := AddedTo(s, bv);
      && !HasDominator(mid.corners, useSupport, mid.points, mid.lastPrune, x)
      && !HasDominator(mid.corners, useSupport, mid.points, mid.lastPrune, y)
    ensures x in t.points && y in t.points && t.corners == AddedTo(s, bv).corners
  {
    hide Belief, Distinct, Bound, AtCorner, HasDominator, PointDominates, Rivals, AddedTo, Undominated;
  }

  /** The only reasons for which a pruning leaves a dominated point: the pair was skipped, or, with support lists, the
      dominator lacks the point's first state. */
  lemma LeftOver(useSupport: bool, s: Lists, bv: BVPair, t: Lists, x: BVPair, y: BVPair)
    requires Step(useSupport, s, bv, t) && |AddedTo(s, bv).points| > NextPruneNumPts(s.lastNum)
    requires ListsOk(t) && x in t.points && y in t.points && x != y && PointDominates(t.corners, x, y)
    ensures Skipped(s.lastPrune, x, y) || !Rivals(useSupport, x, y)
  {
    hide Belief, Distinct, Bound, AtCorner, HasDominator, PointDominates, Rivals, AddedTo, Skipped;
    AddedKeepsNum(s, bv);
    assert Undominated(t.corners, useSupport, t.points, s.lastPrune, y);
  }
}
