/** Runs in which dominated points stay on the sawtooth list: one way for each guard that can fail. There are five
    states, of which the last two are terminal. */
module SawtoothCases {
  import opened Wrappers
  import opened RealArith
  import opened SparseVectors
  import opened Beliefs
  import opened PointerLists
  import opened SawtoothBound
  import opened SawtoothRuns

  /** A belief between states 1 and 2. */
  function Mix(a: real): CVector {
    CVector(5, [CEntry(1, a), CEntry(2, 1.0 - a)])
  }

  /** A belief between the terminal states. */
  function Dead(): CVector {
    CVector(5, [CEntry(3, 0.5), CEntry(4, 0.5)])
  }

  function Sure(k: nat): CVector {
    CVector(5, [CEntry(k, 1.0)])
  }

  /** A belief over states 0, 1 and 2. */
  function Wide(): CVector {
    CVector(5, [CEntry(0, 0.25), CEntry(1, 0.375), CEntry(2, 0.375)])
  }

  /** The value function below which everything stays. */
  function Zero(): seq<real> -> real {
    (u: seq<real>) => 0.0
  }

  lemma ZeroIsSublinear(n: nat)
    ensures Sublinear(Zero(), n)
  {
    TimesOfZero();
  }

  lemma TimesOfZero()
    ensures forall r :: Times(r, 0.0) == 0.0
  {
  }

  lemma SumOfFive(u: seq<real>)
    requires |u| == 5
    ensures Sum(u, 5) == u[0] + u[1] + u[2] + u[3] + u[4]
  {
    assert Sum(u, 5) == Sum(u, 4) + u[4] && Sum(u, 4) == Sum(u, 3) + u[3] && Sum(u, 3) == Sum(u, 2) + u[2];
    assert Sum(u, 2) == Sum(u, 1) + u[1] && Sum(u, 1) == Sum(u, 0) + u[0];
  }

  lemma DotOfFive(u: seq<real>, v: seq<real>)
    requires |u| == 5 == |v|
    ensures Dot(u, v, 5) == u[0] * v[0] + u[1] * v[1] + u[2] * v[2] + u[3] * v[3] + u[4] * v[4]
  {
    assert Dot(u, v, 5) == Dot(u, v, 4) + u[4] * v[4] && Dot(u, v, 4) == Dot(u, v, 3) + u[3] * v[3];
    assert Dot(u, v, 3) == Dot(u, v, 2) + u[2] * v[2] && Dot(u, v, 2) == Dot(u, v, 1) + u[1] * v[1];
    assert Dot(u, v, 1) == Dot(u, v, 0) + u[0] * v[0];
  }

  lemma EntriesOf(b: CVector, k: nat)
    ensures |b.data| == 2 ==> b.Get(k) == Part(b.data[0], k) + Part(b.data[1], k)
    ensures |b.data| == 1 ==> b.Get(k) == Part(b.data[0], k)
    ensures |b.data| == 3 ==> b.Get(k) == Part(b.data[0], k) + Part(b.data[1], k) + Part(b.data[2], k)
  {
    var d := b.data;
    if |d| > 0 {
      assert At(d, k) == Part(d[0], k) + At(d[1..], k);
      if |d| > 1 {
        assert d[1..][1..] == d[2..];
        assert At(d[1..], k) == Part(d[1], k) + At(d[2..], k);
        if |d| > 2 {
          assert At(d[2..], k) == Part(d[2], k) + At(d[2..][1..], k);
        }
      }
    }
  }

  lemma MixIs(a: real)
    requires 0.0 < a < 1.0
    ensures Belief(Mix(a), 5) && Mix(a).size == 5
    ensures Mix(a).Get(1) == a && Mix(a).Get(2) == 1.0 - a
    ensures forall k: nat | k != 1 && k != 2 :: Mix(a).Get(k) == 0.0
    ensures forall k: nat :: Mix(a).Has(k) <==> k == 1 || k == 2
    ensures |Mix(a).data| > 0 && First(Mix(a)) == 1
  {
    var b := Mix(a);
    forall k: nat
      ensures b.Get(k) == if k == 1 then a else if k == 2 then 1.0 - a else 0.0
    {
      EntriesOf(b, k);
    }
    assert b.data[0].index == 1 && b.data[1].index == 2;
    var d := Dense(b);
    SumOfFive(d);
    assert d[0] == b.Get(0) && d[1] == b.Get(1) && d[2] == b.Get(2) && d[3] == b.Get(3) && d[4] == b.Get(4);
    hide At, Sum;
    assert b.Valid() && forall e | e in b.data :: e.value > 0.0;
  }

  lemma DeadIs()
    ensures Belief(Dead(), 5) && Dead().size == 5
    ensures forall k: nat :: Dead().Get(k) == if k == 3 || k == 4 then 0.5 else 0.0
    ensures forall k: nat :: Dead().Has(k) <==> k == 3 || k == 4
  {
    var b := Dead();
    forall k: nat
      ensures b.Get(k) == if k == 3 || k == 4 then 0.5 else 0.0
    {
      EntriesOf(b, k);
    }
    assert b.data[0].index == 3 && b.data[1].index == 4;
    SumOfFive(Dense(b));
    hide At, Sum;
  }

  lemma SureIs(k: nat)
    requires k < 5
    ensures Belief(Sure(k), 5) && Sure(k).size == 5 && AtCorner(Sure(k), 5) && CornerOf(Sure(k), 5) == k
    ensures CornerExact(Sure(k), 5)
  {
    var b := Sure(k);
    forall i: nat
      ensures b.Get(i) == if i == k then 1.0 else 0.0
    {
      EntriesOf(b, i);
    }
    SumOfFive(Dense(b));
    hide At, Sum;
    assert NearCorner(b, k);
    CornerIsUnique(b, 5, k);
    assert Dense(b) == Corner(k, 5);
  }

  lemma WideIs()
    ensures Belief(Wide(), 5) && Wide().size == 5
    ensures Wide().Get(0) == 0.25 && Wide().Get(1) == 0.375 && Wide().Get(2) == 0.375
    ensures Wide().Get(3) == 0.0 && Wide().Get(4) == 0.0
    ensures forall k: nat :: Wide().Has(k) <==> k < 3
    ensures |Wide().data| > 0 && First(Wide()) == 0
  {
    var b := Wide();
    forall k: nat
      ensures b.Get(k) == if k == 0 then 0.25 else if k == 1 || k == 2 then 0.375 else 0.0
    {
      EntriesOf(b, k);
    }
    assert b.data[0].index == 0 && b.data[1].index == 1 && b.data[2].index == 2;
    SumOfFive(Dense(b));
    hide At, Sum;
  }

  // ---------- Bounds between mixtures ----------

  lemma MixPlane(corners: seq<real>, a: real)
    requires |corners| == 5 && 0.0 < a < 1.0
    ensures Plane(corners, Mix(a)) == a * corners[1] + (1.0 - a) * corners[2]
  {
    var b, d := Mix(a), Dense(Mix(a));
    MixIs(a);
    DotOfFive(d, corners);
    assert d[0] == b.Get(0) && d[1] == b.Get(1) && d[2] == b.Get(2) && d[3] == b.Get(3) && d[4] == b.Get(4);
    hide At, Dot, Mix, Belief;
    ZeroTimes(0.0, corners[0]);
    ZeroTimes(0.0, corners[3]);
    ZeroTimes(0.0, corners[4]);
  }

  /** Scaled down to fit, a mixture touches another one in the state that the other one has less of. */
  lemma MixRatio(a: real, b: real)
    requires 0.0 < a < 1.0 && 0.0 < b < 1.0
    ensures Belief(Mix(a), 5) && Belief(Mix(b), 5)
    ensures b <= a ==> Times(Ratio(Mix(b), Mix(a), 5), a) == b
    ensures b >= a ==> Times(Ratio(Mix(b), Mix(a), 5), 1.0 - a) == 1.0 - b
  {
    MixIs(a);
    MixIs(b);
    var k := RatioTight(Mix(b), Mix(a), 5);
    RatioBelow(Mix(b), Mix(a), 5, 1);
    RatioBelow(Mix(b), Mix(a), 5, 2);
    var r := Ratio(Mix(b), Mix(a), 5);
    hide Ratio, Mix, CVector.Get, CVector.Has, Belief, Times;
    assert k == 1 || k == 2;
    TimesMinus(r, 1.0, a);
    UnitTimes(r);
    if k == 2 && b < a {
      TimesUp(r, 1.0 - a, 1.0 - b);
      TimesMonoLeft(1.0, r, a);
      UnitTimes(a);
    } else if k == 1 && b > a {
      TimesUp(r, a, b);
      TimesMonoLeft(1.0, r, 1.0 - a);
      UnitTimes(1.0 - a);
    } else if a == b {
      if k == 1 {
        TimesFixes(r, a);
      } else {
        TimesFixes(r, 1.0 - a);
      }
    }
  }

  /** What scales a positive number up is more than 1. */
  lemma TimesUp(r: real, x: real, y: real)
    requires 0.0 < x < y && Times(r, x) == y
    ensures r > 1.0
  {
    hide *;
    UnitTimes(x);
    if r <= 1.0 {
      TimesMonoLeft(r, 1.0, x);
    }
  }

  lemma TimesFixes(r: real, x: real)
    requires 0.0 < x && Times(r, x) == x
    ensures r == 1.0
  {
    hide *;
    UnitTimes(x);
    TimesCancel(r, 1.0, x);
    TimesCancel(1.0, r, x);
  }

  /** Between two mixtures the bound is a line: from the corner value beyond the belief to the value of the point. */
  lemma MixBound(corners: seq<real>, a: real, v: real, b: real)
    requires |corners| == 5 && 0.0 < a < 1.0 && 0.0 < b < 1.0
    requires a * corners[1] + (1.0 - a) * corners[2] > v
    ensures Belief(Mix(a), 5) && Belief(Mix(b), 5) && Plane(corners, Mix(a)) > v
    ensures var r := Ratio(Mix(b), Mix(a), 5);
      && 0.0 <= r <= 1.0
      && (b <= a ==> PointBound(corners, Mix(a), v, Mix(b)) == Times(1.0 - r, corners[2]) + Times(r, v))
      && (b >= a ==> PointBound(corners, Mix(a), v, Mix(b)) == Times(1.0 - r, corners[1]) + Times(r, v))
  {
    MixRatio(a, b);
    MixPlane(corners, a);
    MixPlane(corners, b);
    RatioRange(Mix(b), Mix(a), 5);
    var r := Ratio(Mix(b), Mix(a), 5);
    hide Ratio, Mix, Belief, Plane, Times;
    if b <= a {
      Line(r, a, b, corners[1], corners[2], v);
    }
    if b >= a {
      TimesMinus(r, 1.0, 1.0 - a);
      UnitTimes(r);
      Line(r, 1.0 - a, 1.0 - b, corners[2], corners[1], v);
    }
  }

  lemma Line(r: real, a: real, b: real, near: real, far: real, v: real)
    requires Times(r, a) == b
    ensures b * near + (1.0 - b) * far - Times(r, a * near + (1.0 - a) * far - v) == Times(1.0 - r, far) + Times(r, v)
  {
    var p := a * near + (1.0 - a) * far;
    TimesMinus(r, p, v);
    assert r * (a * near) == b * near;
    assert r * ((1.0 - a) * far) == r * far - b * far by {
      assert r * ((1.0 - a) * far) == r * far - (r * a) * far;
    }
    assert r * p == r * (a * near) + r * ((1.0 - a) * far);
  }

  /** Neither corner value nor distance lets a point of value 1 dominate. */
  lemma OneDoesNotDominate(corners: seq<real>, x: BVPair, a: real, y: BVPair, b: real)
    requires |corners| == 5 && 0.0 < a < 1.0 && 0.0 < b < 1.0 && corners[1] >= 1.0 && corners[2] == 2.0
    requires x.b == Mix(a) && y.b == Mix(b) && x.v == 1.0
    requires y.v == 0.0 || (y.v == 1.0 && a - b >= 0.015625) || (y.v == 1.0 && b - a >= 0.015625 && corners[1] == 2.0)
    ensures Belief(x.b, 5) && Belief(y.b, 5) && !PointDominates(corners, x, y)
  {
    var r := Ratio(Mix(b), Mix(a), 5) by { MixIs(a); }
    ProductNonNegative(a, corners[1] - 1.0);
    assert a * corners[1] + (1.0 - a) * corners[2] == a * (corners[1] - 1.0) + a + 2.0 * (1.0 - a);
    MixBound(corners, a, 1.0, b);
    MixRatio(a, b);
    UnitTimes(r);
    TimesTwo(1.0 - r);
    hide Ratio, Mix, Belief, Plane, Times, PointBound, CVector.Has;
    TimesMono(1.0 - r, 1.0, corners[1]);
    UnitTimes(1.0 - r);
    if a - b >= 0.015625 {
      FarBelow(r, a, b);
    } else if b - a >= 0.015625 {
      FarBelow(r, 1.0 - a, 1.0 - b);
    }
  }

  lemma TimesTwo(x: real)
    ensures Times(x, 2.0) == 2.0 * x
  {
  }

  lemma FarBelow(r: real, a: real, b: real)
    requires 0.0 < a < 1.0 && Times(r, a) == b && a - b >= 0.015625
    ensures r <= 1.0 - 0.015625
  {
    assert Times(1.0 - 0.015625, a) == a - 0.015625 * a;
    hide Times;
    if r > 1.0 - 0.015625 {
      TimesLess(1.0 - 0.015625, r, a);
    }
  }

  /** A point of value 0 dominates a point of value 1 next to it. */
  lemma ZeroDominates(corners: seq<real>, x: BVPair, y: BVPair)
    requires |corners| == 5 && corners[1] == 2.0 == corners[2]
    requires x.b == Mix(0.5) && y.b == Mix(0.484375) && x.v == 0.0 && y.v == 1.0
    ensures Belief(x.b, 5) && Belief(y.b, 5) && PointDominates(corners, x, y)
  {
    MixIs(0.5);
    MixIs(0.484375);
    MixBound(corners, 0.5, 0.0, 0.484375);
    MixRatio(0.5, 0.484375);
    var r := Ratio(Mix(0.484375), Mix(0.5), 5);
    TimesTwo(1.0 - r);
    TimesIs(r, 0.0);
    assert Times(r, 0.5) == r * 0.5;
    hide Ratio, Mix, Belief, Plane, Times, PointBound;
  }

  /** Lowering the corner value of state 1 to 1 makes points of value 1 dominate the ones nearer to that corner. */
  lemma DominatesByCorner(corners: seq<real>, x: BVPair, a: real, y: BVPair, b: real)
    requires |corners| == 5 && corners[1] == 1.0 && corners[2] == 2.0 && 0.0 < a < b < 1.0
    requires x.b == Mix(a) && y.b == Mix(b) && x.v == 1.0 == y.v
    ensures Belief(x.b, 5) && Belief(y.b, 5) && PointDominates(corners, x, y)
  {
    MixIs(a);
    MixIs(b);
    MixBound(corners, a, 1.0, b);
    var r := Ratio(Mix(b), Mix(a), 5);
    UnitTimes(r);
    UnitTimes(1.0 - r);
    hide Ratio, Mix, Belief, Plane, Times, PointBound;
  }

  lemma WideIsDominated(corners: seq<real>, x: BVPair, y: BVPair)
    requires |corners| == 5 && corners[0] == corners[1] == corners[2] == 2.0
    requires x.b == Mix(0.5) && y.b == Wide() && x.v == 0.0 && y.v == 1.0
    ensures Belief(x.b, 5) && Belief(y.b, 5) && PointDominates(corners, x, y)
  {
    MixIs(0.5);
    WideIs();
    MixPlane(corners, 0.5);
    WidePlane(corners);
    var k := RatioTight(Wide(), Mix(0.5), 5);
    var r := Ratio(Wide(), Mix(0.5), 5);
    assert r * 0.5 == 0.375 by {
      hide Ratio, Mix, Wide, Belief, Plane, CVector.Get, CVector.Has;
      assert k == 1 || k == 2;
    }
    assert Times(r, 2.0) == 1.5;
    hide Ratio, Mix, Wide, Belief, Plane, CVector.Get;
  }

  lemma WidePlane(corners: seq<real>)
    requires |corners| == 5 && corners[0] == corners[1] == corners[2] == 2.0
    ensures Wide().size == 5 && Plane(corners, Wide()) == 2.0
  {
    WideIs();
    var b, d := Wide(), Dense(Wide());
    DotOfFive(d, corners);
    assert d[0] == b.Get(0) && d[1] == b.Get(1) && d[2] == b.Get(2) && d[3] == b.Get(3) && d[4] == b.Get(4);
    hide At, Dot, Wide, Belief;
    ZeroTimes(0.0, corners[3]);
    ZeroTimes(0.0, corners[4]);
  }

  /** The terminal point is on the plane, so it dominates nothing, and no other point shares its states. */
  lemma DeadIsAlone(corners: seq<real>, x: BVPair, y: BVPair)
    requires |corners| == 5 && corners[3] == 0.0 == corners[4] && x.b == Dead() && x.v == 0.0 && Belief(y.b, 5)
    ensures Belief(x.b, 5) && !PointDominates(corners, x, y)
    ensures (exists k: nat :: k < 3 && y.b.Has(k)) ==> !PointDominates(corners, y, x)
  {
    DeadIs();
    var b, d := Dead(), Dense(Dead());
    DotOfFive(d, corners);
    assert d[0] == b.Get(0) && d[1] == b.Get(1) && d[2] == b.Get(2) && d[3] == b.Get(3) && d[4] == b.Get(4);
    hide At, Dot, Dead, Belief, PointBound;
    ZeroTimes(0.0, corners[0]);
    ZeroTimes(0.0, corners[1]);
    ZeroTimes(0.0, corners[2]);
  }

  // ---------- The runs ----------

  /** The bound is in the last state of a run. */
  ghost predicate OnRun(ub: SawtoothUpperBound, h: seq<Lists>, a: seq<BVPair>)
    reads ub
  {
    && ub.Valid() && ub.numStates == 5 && ub.Sound(Zero())
    && Run(ub.useSawtoothSupportList, h, a) && h[|a|] == ub.Now()
  }

  ghost function LastCount(a: seq<BVPair>): int {
    if a == [] then 0 else a[|a| - 1].numBackupsAtCreation
  }

  lemma {:induction false} CountsRise(useSupport: bool, h: seq<Lists>, a: seq<BVPair>, i: nat)
    requires Run(useSupport, h, a) && i < |a|
    ensures 0 <= a[i].numBackupsAtCreation <= LastCount(a)
  {
  }

  lemma RunPush(useSupport: bool, h: seq<Lists>, a: seq<BVPair>, bv: BVPair, t: Lists)
    requires Run(useSupport, h, a) && Step(useSupport, h[|a|], bv, t) && 0 <= LastCount(a) <= bv.numBackupsAtCreation
    ensures Run(useSupport, h + [t], a + [bv])
  {
    var h', a' := h + [t], a + [bv];
    hide Step;
    forall i | 0 <= i < |a'|
      ensures Step(useSupport, h'[i], a'[i], h'[i + 1])
      ensures 0 <= a'[i].numBackupsAtCreation <= bv.numBackupsAtCreation
    {
      if i < |a| {
        CountsRise(useSupport, h, a, i);
        assert h'[i] == h[i] && h'[i + 1] == h[i + 1] && a'[i] == a[i];
      }
    }
  }

  /** As long as the list is short, adding a point does nothing else. */
  lemma StepAppends(useSupport: bool, s: Lists, bv: BVPair, t: Lists)
    requires Step(useSupport, s, bv, t) && !AtCorner(bv.b, |s.corners|)
    ensures AddedTo(s, bv) == s.(points := s.points + [bv])
    ensures |s.points| + 1 <= NextPruneNumPts(s.lastNum) ==> t == AddedTo(s, bv)
  {
  }

  lemma NoCorner(b: CVector, n: nat, j: nat, k: nat)
    requires j < n && k < n && j != k && b.size == n && b.Get(j) > CORNER_EPS && b.Get(k) > CORNER_EPS
    ensures !AtCorner(b, n) && CornerExact(b, n)
  {
  }

  lemma EmptyRun(useSupport: bool, s: Lists)
    requires s.points == [] && s.lastNum == 0 && s.lastPrune == -1
    ensures Run(useSupport, [s], [])
  {
  }

  lemma ZeroIsBelow(s: Lists)
    requires |s.corners| == 5 && forall k | 0 <= k < 5 :: s.corners[k] >= 0.0
    requires forall p | p in s.points :: p.v >= 0.0
    ensures Sublinear(Zero(), 5) && CornersValid(Zero(), s.corners, 5) && PointsSound(Zero(), s.points)
  {
    ZeroIsSublinear(5);
  }

  /** The corner values are 2 for the first three states and 0 for the terminal ones. */
  method Start(useSupport: bool) returns (ub: SawtoothUpperBound, ghost h: seq<Lists>, ghost a: seq<BVPair>)
    ensures fresh(ub) && ub.useSawtoothSupportList == useSupport && OnRun(ub, h, a) && a == []
    ensures ub.Now() == Lists([], [2.0, 2.0, 2.0, 0.0, 0.0], 0, -1)
  {
    ub := new SawtoothUpperBound(5, useSupport, 0.5);
    for k := 0 to 3
      invariant fresh(ub) && ub.Valid() && ub.numStates == 5 && ub.useSawtoothSupportList == useSupport
      invariant ub.Now().(corners := []) == Lists([], [], 0, -1) && |ub.cornerPts| == 5
      invariant forall i | 0 <= i < 5 :: ub.cornerPts[i] == if i < k then 2.0 else 0.0
    {
      SureIs(k);
      var bv := new BVPair(Sure(k), 2.0, 0);
      hide Belief, Sure, AtCorner, NearCorner, CornerExact;
      ub.AddPoint(bv);
    }
    h, a := [ub.Now()], [];
    assert ub.cornerPts == [2.0, 2.0, 2.0, 0.0, 0.0];
    EmptyRun(useSupport, ub.Now());
    ZeroIsBelow(ub.Now());
  }

  /** Adds a mixture, as the update of a node would. */
  method AddMix(ub: SawtoothUpperBound, x: real, v: real, count: int, ghost h: seq<Lists>, ghost a: seq<BVPair>)
    returns (ghost h': seq<Lists>, ghost a': seq<BVPair>, ghost bv: BVPair)
    requires OnRun(ub, h, a) && 0.015625 <= x <= 0.984375 && v >= 0.0 && 0 <= LastCount(a) <= count
    modifies ub, ub.pts
    ensures OnRun(ub, h', a') && a' == a + [bv] && h' == h + [ub.Now()]
    ensures fresh(bv) && bv.b == Mix(x) && bv.v == v && bv.numBackupsAtCreation == count
    ensures Step(ub.useSawtoothSupportList, old(ub.Now()), bv, ub.Now())
    ensures AddedTo(old(ub.Now()), bv) == old(ub.Now()).(points := old(ub.pts) + [bv])
    ensures |old(ub.pts)| + 1 <= NextPruneNumPts(old(ub.lastPruneNumPts)) ==> ub.Now() == AddedTo(old(ub.Now()), bv)
  {
    MixIs(x);
    NoCorner(Mix(x), 5, 1, 2);
    hide Belief, Mix, AtCorner, NearCorner, CornerExact, Sublinear, CornersValid, PointsSound, PointsOk;
    hide SupportOk, Distinct, Step, Run;
    var cn := new BeliefNode(Mix(x), false);
    ghost var s := ub.Now();
    bv := ub.SetUBForNode(cn, v, true, count, Zero());
    StepAppends(ub.useSawtoothSupportList, s, bv, ub.Now());
    RunPush(ub.useSawtoothSupportList, h, a, bv, ub.Now());
    h', a' := h + [ub.Now()], a + [bv];
  }

  function Unit(i: nat): real {
    i as real * 0.015625
  }

  /** The points are mixtures of value 1 at equal distances, added one backup after the other. */
  ghost predicate Ones(points: seq<BVPair>, lo: nat, count: nat) {
    && lo > 0 && lo + |points| <= 64
    && forall j | 0 <= j < |points| :: IsOne(points[j], lo + j, count + j)
  }

  ghost predicate IsOne(p: BVPair, i: nat, count: int) {
    0 < i < 64 && p.b == Mix(Unit(i)) && p.v == 1.0 && p.numBackupsAtCreation == count
  }

  /** Adds mixtures of value 1, not so many that the list is pruned. */
  method AddOnes(ub: SawtoothUpperBound, lo: nat, n: nat, count: nat, ghost h: seq<Lists>, ghost a: seq<BVPair>)
    returns (ghost h': seq<Lists>, ghost a': seq<BVPair>, ghost ones: seq<BVPair>)
    requires OnRun(ub, h, a) && 0 < lo && lo + n <= 64 && 0 <= LastCount(a) <= count
    requires |ub.pts| + n <= NextPruneNumPts(ub.lastPruneNumPts)
    modifies ub, ub.pts
    ensures OnRun(ub, h', a') && LastCount(a) <= LastCount(a') <= count + n && (n > 0 ==> LastCount(a') < count + n)
    ensures Ones(ones, lo, count) && |ones| == n && (forall i | 0 <= i < |ones| :: fresh(ones[i]))
    ensures ub.Now() == old(ub.Now()).(points := old(ub.pts) + ones)
  {
    hide *;
    h', a', ones := h, a, [];
    OnRunIs(ub, h, a);
    ghost var s := ub.Now();
    NoOnes(lo, count);
    for j := 0 to n
      invariant OnRun(ub, h', a') && LastCount(a) <= LastCount(a') <= count + j && (j > 0 ==> LastCount(a') < count + j)
      invariant Ones(ones, lo, count) && |ones| == j && (forall i | 0 <= i < |ones| :: fresh(ones[i]))
      invariant ub.Now() == s.(points := s.points + ones) && ub.pts == old(ub.pts) + ones
    {
      ghost var bv;
      UnitBounds(lo + j);
      OnRunIs(ub, h', a');
      h', a', bv := AddMix(ub, Unit(lo + j), 1.0, count + j, h', a');
      OnRunIs(ub, h', a');
      OneMore(ones, lo, count, bv);
      assert s.points + ones + [bv] == s.points + (ones + [bv]);
      ones := ones + [bv];
    }
  }

  lemma NoOnes(lo: nat, count: nat)
    requires 0 < lo <= 64
    ensures Ones([], lo, count)
  {
  }

  lemma IsOneOf(p: BVPair, i: nat, count: int)
    requires 0 < i < 64 && p.b == Mix(Unit(i)) && p.v == 1.0 && p.numBackupsAtCreation == count
    ensures IsOne(p, i, count)
  {
  }

  lemma UnitBounds(i: nat)
    requires 0 < i < 64
    ensures 0.015625 <= Unit(i) <= 0.984375
  {
  }

  lemma OneMore(ones: seq<BVPair>, lo: nat, count: nat, bv: BVPair)
    requires Ones(ones, lo, count) && lo + |ones| < 64
    requires bv.b == Mix(Unit(lo + |ones|)) && bv.v == 1.0 && bv.numBackupsAtCreation == count + |ones|
    ensures Ones(ones + [bv], lo, count)
  {
    hide Mix, Unit;
  }

  /** Adds the terminal point, as the expansion of a node does when it finds a new terminal successor. */
  method AddDead(ub: SawtoothUpperBound, count: int, ghost h: seq<Lists>, ghost a: seq<BVPair>)
    returns (ghost h': seq<Lists>, ghost a': seq<BVPair>, ghost bv: BVPair)
    requires OnRun(ub, h, a) && 0 <= LastCount(a) <= count
    modifies ub, ub.pts
    ensures OnRun(ub, h', a') && a' == a + [bv] && h' == h + [ub.Now()]
    ensures fresh(bv) && bv.b == Dead() && bv.v == 0.0 && bv.numBackupsAtCreation == count
    ensures Step(ub.useSawtoothSupportList, old(ub.Now()), bv, ub.Now())
    ensures AddedTo(old(ub.Now()), bv) == old(ub.Now()).(points := old(ub.pts) + [bv])
  {
    DeadIs();
    NoCorner(Dead(), 5, 3, 4);
    hide Belief, Dead, AtCorner, NearCorner, CornerExact, Sublinear, CornersValid, PointsSound, PointsOk;
    hide SupportOk, Distinct, Step, Run;
    var cn := new BeliefNode(Dead(), true);
    ghost var s := ub.Now();
    bv := ub.InitNodeBound(cn, count, Zero());
    StepAppends(ub.useSawtoothSupportList, s, bv, ub.Now());
    RunPush(ub.useSawtoothSupportList, h, a, bv, ub.Now());
    h', a' := h + [ub.Now()], a + [bv];
  }

  lemma NoDominator(corners: seq<real>, useSupport: bool, points: seq<BVPair>, lastPrune: int, y: BVPair)
    requires PointsOk(points, |corners|) && Belief(y.b, |corners|)
    requires forall x | x in points ::
      x == y || Skipped(lastPrune, x, y) || !Rivals(useSupport, x, y) || !PointDominates(corners, x, y)
    ensures !HasDominator(corners, useSupport, points, lastPrune, y)
  {
  }

  /** Points of value 1 at these distances do not dominate one another, nor the point of value 0. */
  lemma OnesAreHarmless(corners: seq<real>, x: BVPair, i: nat, k: int, y: BVPair, j: nat, l: int)
    requires |corners| == 5 && corners[1] >= 1.0 && corners[2] == 2.0 && IsOne(x, i, k) && IsOne(y, j, l)
    requires i > j || (i < j && corners[1] == 2.0)
    ensures Belief(x.b, 5) && Belief(y.b, 5) && !PointDominates(corners, x, y)
  {
    hide Mix, PointDominates, Belief;
    OneDoesNotDominate(corners, x, Unit(i), y, Unit(j));
  }

  /** Nothing on this list of ten mixtures and the terminal point is dominated. */
  lemma FirstPruning(useSupport: bool, s: Lists, t: Lists, ones: seq<BVPair>, dead: BVPair, lo: nat, count: nat)
    requires s.corners == [2.0, 2.0, 2.0, 0.0, 0.0] && s.points == ones && Ones(ones, lo, count)
    requires dead.b == Dead() && dead.v == 0.0
    requires Step(useSupport, s, dead, t) && AddedTo(s, dead) == s.(points := ones + [dead])
    requires |ones| + 1 > NextPruneNumPts(s.lastNum)
    ensures t == Lists(ones + [dead], s.corners, |ones| + 1, dead.numBackupsAtCreation)
  {
    var mid := AddedTo(s, dead);
    hide Belief, PointDominates, Rivals, HasDominator, Undominated, Bound, AddedTo, Mix, Dead;
    forall y | y in mid.points
      ensures !HasDominator(mid.corners, useSupport, mid.points, mid.lastPrune, y)
    {
      forall x | x in mid.points
        ensures x == y || !PointDominates(mid.corners, x, y)
      {
        FirstHarmless(mid.corners, ones, dead, lo, count, x, y);
      }
      NoDominator(mid.corners, useSupport, mid.points, mid.lastPrune, y);
    }
  }

  lemma FirstHarmless(corners: seq<real>, ones: seq<BVPair>, dead: BVPair, lo: nat, count: nat, x: BVPair, y: BVPair)
    requires corners == [2.0, 2.0, 2.0, 0.0, 0.0] && Ones(ones, lo, count) && dead.b == Dead() && dead.v == 0.0
    requires x in ones + [dead] && y in ones + [dead]
    ensures Belief(x.b, 5) && Belief(y.b, 5) && (x == y || !PointDominates(corners, x, y))
  {
    hide Belief, PointDominates, Mix, Dead;
    DeadIs();
    if x in ones && y in ones {
      var i :| 0 <= i < |ones| && ones[i] == x;
      var j :| 0 <= j < |ones| && ones[j] == y;
      if i != j {
        OnesAreHarmless(corners, x, lo + i, count + i, y, lo + j, count + j);
      } else {
        OneIsBelief(x, lo + i, count + i);
      }
    } else if x in ones {
      var i :| 0 <= i < |ones| && ones[i] == x;
      OneIsBelief(x, lo + i, count + i);
      DeadIsAlone(corners, dead, x);
    } else if y in ones {
      var j :| 0 <= j < |ones| && ones[j] == y;
      OneIsBelief(y, lo + j, count + j);
      DeadIsAlone(corners, dead, y);
    }
  }

  lemma OneIsBelief(p: BVPair, i: nat, count: int)
    requires IsOne(p, i, count)
    ensures Belief(p.b, 5) && p.b.Has(1) && |p.b.data| > 0 && First(p.b) == 1
  {
    MixIs(Unit(i));
  }

  /** Ten updates at counts 0 to 9, and at count 10 a terminal successor that sets off the first pruning. */
  method Prelude(useSupport: bool)
    returns (ub: SawtoothUpperBound, ghost h: seq<Lists>, ghost a: seq<BVPair>, ghost first: seq<BVPair>,
             ghost dead: BVPair)
    ensures fresh(ub) && OnRun(ub, h, a) && ub.useSawtoothSupportList == useSupport && LastCount(a) == 10
    ensures ub.Now() == Lists(first + [dead], [2.0, 2.0, 2.0, 0.0, 0.0], 11, 10)
    ensures Ones(first, 22, 0) && |first| == 10 && (forall i | 0 <= i < |first| :: fresh(first[i]))
    ensures fresh(dead) && dead.b == Dead() && dead.v == 0.0 && dead.numBackupsAtCreation == 10
  {
    hide *;
    ub, h, a := Start(useSupport);
    OnRunIs(ub, h, a);
    h, a, first := AddOnes(ub, 22, 10, 0, h, a);
    OnRunIs(ub, h, a);
    assert ub.pts == first;
    ghost var s := ub.Now();
    h, a, dead := AddDead(ub, 10, h, a);
    FirstPruning(useSupport, s, ub.Now(), first, dead, 22, 0);
    OnRunIs(ub, h, a);
  }

  /** A late point. A terminal successor sets off a pruning while a node is being expanded; the value of the node is
      then added at the same backup count. It dominates an older point, and the next pruning skips the pair. */
  method LatePointStays(useSupport: bool)
    returns (ub: SawtoothUpperBound, ghost h: seq<Lists>, ghost a: seq<BVPair>, ghost x: BVPair, ghost q: BVPair)
    ensures OnRun(ub, h, a) && ub.useSawtoothSupportList == useSupport
    ensures |a| > 0 && |AddedTo(h[|a| - 1], a[|a| - 1]).points| > NextPruneNumPts(h[|a| - 1].lastNum)
    ensures x in ub.pts && q in ub.pts && x != q && Rivals(useSupport, q, x) && Skipped(h[|a| - 1].lastPrune, q, x)
    ensures |ub.cornerPts| == 5 && Belief(q.b, 5) && Belief(x.b, 5) && PointDominates(ub.cornerPts, q, x)
  {
    hide *;
    ghost var first, second, dead, last;
    ub, h, a, first, dead := Prelude(useSupport);
    OnRunIs(ub, h, a);
    h, a, q := AddMix(ub, 0.5, 0.0, 10, h, a);
    OnRunIs(ub, h, a);
    assert ub.pts == first + [dead] + [q];
    h, a, second := AddOnes(ub, 33, 10, 11, h, a);
    OnRunIs(ub, h, a);
    assert ub.pts == first + [dead] + [q] + second;
    ghost var s := ub.Now();
    UnitBounds(43);
    h, a, last := AddMix(ub, Unit(43), 1.0, 21, h, a);
    OnRunIs(ub, h, a);
    IsOneOf(last, 43, 21);
    x := first[9];
    LateHarmless(s.corners, useSupport, first, dead, q, second, last);
    PairStays(useSupport, s, last, ub.Now(), x, q);
    LateDominates(s.corners, useSupport, first, q);
  }

  lemma OnRunIs(ub: SawtoothUpperBound, h: seq<Lists>, a: seq<BVPair>)
    requires OnRun(ub, h, a)
    ensures Run(ub.useSawtoothSupportList, h, a) && |h| == |a| + 1 && h[|a|] == ub.Now()
    ensures ub.Now() == Lists(ub.pts, ub.cornerPts, ub.lastPruneNumPts, ub.lastPruneNumBackups)
    ensures a == [] ==> LastCount(a) == 0
    ensures a != [] ==> LastCount(a) == a[|a| - 1].numBackupsAtCreation
    ensures NextPruneNumPts(0) == 10 && NextPruneNumPts(11) == 22
  {
  }

  lemma LateDominates(corners: seq<real>, useSupport: bool, first: seq<BVPair>, q: BVPair)
    requires corners == [2.0, 2.0, 2.0, 0.0, 0.0] && Ones(first, 22, 0) && |first| == 10
    requires q.b == Mix(0.5) && q.v == 0.0 && q.numBackupsAtCreation == 10
    ensures Belief(q.b, 5) && Belief(first[9].b, 5)
    ensures PointDominates(corners, q, first[9]) && Rivals(useSupport, q, first[9]) && q != first[9]
    ensures Skipped(10, q, first[9])
  {
    hide PointDominates, Mix;
    var x := first[9];
    assert IsOne(x, 31, 9);
    OneIsBelief(x, 31, 9);
    MixIs(0.5);
    ZeroDominates(corners, q, x);
  }

  /** Among the points of this run, neither the first dominated one nor the late one has a dominator that the second
      pruning looks at. */
  lemma LateHarmless(corners: seq<real>, useSupport: bool, first: seq<BVPair>, dead: BVPair, q: BVPair,
                     second: seq<BVPair>, last: BVPair)
    requires corners == [2.0, 2.0, 2.0, 0.0, 0.0] && Ones(first, 22, 0) && |first| == 10
    requires dead.b == Dead() && dead.v == 0.0 && dead.numBackupsAtCreation == 10
    requires q.b == Mix(0.5) && q.v == 0.0 && q.numBackupsAtCreation == 10
    requires Ones(second, 33, 11) && |second| == 10 && IsOne(last, 43, 21)
    ensures var points := first + [dead] + [q] + second + [last];
      && PointsOk(points, 5) && Belief(q.b, 5) && Belief(first[9].b, 5)
      && !HasDominator(corners, useSupport, points, 10, first[9]) && !HasDominator(corners, useSupport, points, 10, q)
  {
    hide PointDominates, Mix, Dead, HasDominator, Belief, Rivals;
    var x, points := first[9], first + [dead] + [q] + second + [last];
    DeadIs();
    MixIs(0.5);
    assert IsOne(x, 31, 9);
    OneIsBelief(x, 31, 9);
    forall p | p in points
      ensures Belief(p.b, 5)
      ensures Skipped(10, p, x) || !PointDominates(corners, p, x)
      ensures Skipped(10, p, q) || !PointDominates(corners, p, q)
    {
      if p in first {
        var i :| 0 <= i < |first| && first[i] == p;
        OneIsBelief(p, 22 + i, i);
      } else if p in second + [last] {
        var i := 43;
        if p in second {
          i := LaterIndex(second, 11, p);
        }
        var k := p.numBackupsAtCreation;
        assert 33 <= i && IsOne(p, i, k);
        OnesAreHarmless(corners, p, i, k, x, 31, 9);
        OneDoesNotDominate(corners, p, Unit(i), q, 0.5);
      }
    }
    NoDominator(corners, useSupport, points, 10, x);
    NoDominator(corners, useSupport, points, 10, q);
  }

  lemma LaterIndex(second: seq<BVPair>, count: nat, p: BVPair) returns (i: nat)
    requires Ones(second, 33, count) && p in second
    ensures 33 <= i && IsOne(p, i, p.numBackupsAtCreation)
  {
    var j :| 0 <= j < |second| && second[j] == p;
    i := 33 + j;
  }

  /** Overwrites a corner value, as the update of a node does whose belief is sure of a state. */
  method AddSure(ub: SawtoothUpperBound, k: nat, v: real, count: int, ghost h: seq<Lists>, ghost a: seq<BVPair>)
    returns (ghost h': seq<Lists>, ghost a': seq<BVPair>)
    requires OnRun(ub, h, a) && k < 5 && v >= 0.0 && 0 <= LastCount(a) <= count
    requires |ub.pts| <= NextPruneNumPts(ub.lastPruneNumPts)
    modifies ub, ub.pts
    ensures OnRun(ub, h', a') && LastCount(a') == count
    ensures |old(ub.cornerPts)| == 5 && ub.Now() == old(ub.Now()).(corners := old(ub.cornerPts)[k := v])
  {
    SureIs(k);
    hide Belief, Sure, AtCorner, NearCorner, CornerExact, Sublinear, CornersValid, PointsSound, PointsOk;
    hide SupportOk, Distinct, Run;
    var cn := new BeliefNode(Sure(k), false);
    ghost var bv := ub.SetUBForNode(cn, v, true, count, Zero());
    RunPush(ub.useSawtoothSupportList, h, a, bv, ub.Now());
    h', a' := h + [ub.Now()], a + [bv];
  }

  /** An overwritten corner value. After a pruning, the value of corner 1 falls to that of the points, so each point
      comes to dominate the next one; the next pruning skips all these pairs. */
  method CornerPairStays(useSupport: bool)
    returns (ub: SawtoothUpperBound, ghost h: seq<Lists>, ghost a: seq<BVPair>, ghost x: BVPair, ghost y: BVPair)
    ensures OnRun(ub, h, a) && ub.useSawtoothSupportList == useSupport
    ensures |a| > 0 && |AddedTo(h[|a| - 1], a[|a| - 1]).points| > NextPruneNumPts(h[|a| - 1].lastNum)
    ensures x in ub.pts && y in ub.pts && x != y && Rivals(useSupport, x, y) && Skipped(h[|a| - 1].lastPrune, x, y)
    ensures |ub.cornerPts| == 5 && Belief(x.b, 5) && Belief(y.b, 5) && PointDominates(ub.cornerPts, x, y)
  {
    hide *;
    ghost var first, second, dead, last;
    ub, h, a, first, dead := Prelude(useSupport);
    OnRunIs(ub, h, a);
    h, a := AddSure(ub, 1, 1.0, 11, h, a);
    OnRunIs(ub, h, a);
    assert ub.pts == first + [dead] && ub.cornerPts == [2.0, 1.0, 2.0, 0.0, 0.0];
    h, a, second := AddOnes(ub, 33, 11, 12, h, a);
    OnRunIs(ub, h, a);
    assert ub.pts == first + [dead] + second;
    ghost var s := ub.Now();
    UnitBounds(44);
    h, a, last := AddMix(ub, Unit(44), 1.0, 23, h, a);
    OnRunIs(ub, h, a);
    IsOneOf(last, 44, 23);
    x, y := first[8], first[9];
    CornerHarmless(s.corners, useSupport, first, dead, second, last);
    PairStays(useSupport, s, last, ub.Now(), x, y);
    CornerDominates(s.corners, useSupport, first);
  }

  lemma CornerDominates(corners: seq<real>, useSupport: bool, first: seq<BVPair>)
    requires corners == [2.0, 1.0, 2.0, 0.0, 0.0] && Ones(first, 22, 0) && |first| == 10
    ensures Belief(first[8].b, 5) && Belief(first[9].b, 5) && first[8] != first[9]
    ensures PointDominates(corners, first[8], first[9]) && Rivals(useSupport, first[8], first[9])
    ensures Skipped(10, first[8], first[9])
  {
    hide PointDominates, Mix;
    assert IsOne(first[8], 30, 8) && IsOne(first[9], 31, 9);
    OneIsBelief(first[8], 30, 8);
    OneIsBelief(first[9], 31, 9);
    DominatesByCorner(corners, first[8], Unit(30), first[9], Unit(31));
  }

  lemma CornerHarmless(corners: seq<real>, useSupport: bool, first: seq<BVPair>, dead: BVPair,
                       second: seq<BVPair>, last: BVPair)
    requires corners == [2.0, 1.0, 2.0, 0.0, 0.0] && Ones(first, 22, 0) && |first| == 10
    requires dead.b == Dead() && dead.v == 0.0 && dead.numBackupsAtCreation == 10
    requires Ones(second, 33, 12) && |second| == 11 && IsOne(last, 44, 23)
    ensures var points := first + [dead] + second + [last];
      && PointsOk(points, 5) && Belief(first[8].b, 5) && Belief(first[9].b, 5)
      && !HasDominator(corners, useSupport, points, 10, first[8])
      && !HasDominator(corners, useSupport, points, 10, first[9])
  {
    hide PointDominates, Mix, Dead, HasDominator, Belief, Rivals;
    var x, y, points := first[8], first[9], first + [dead] + second + [last];
    DeadIs();
    assert IsOne(x, 30, 8) && IsOne(y, 31, 9);
    OneIsBelief(x, 30, 8);
    OneIsBelief(y, 31, 9);
    forall p | p in points
      ensures Belief(p.b, 5)
      ensures Skipped(10, p, x) || !PointDominates(corners, p, x)
      ensures Skipped(10, p, y) || !PointDominates(corners, p, y)
    {
      if p in first {
        var i :| 0 <= i < |first| && first[i] == p;
        OneIsBelief(p, 22 + i, i);
      } else if p in second + [last] {
        var i := 44;
        if p in second {
          i := LaterIndex(second, 12, p);
        }
        var k := p.numBackupsAtCreation;
        OnesAreHarmless(corners, p, i, k, x, 30, 8);
        OnesAreHarmless(corners, p, i, k, y, 31, 9);
      }
    }
    NoDominator(corners, useSupport, points, 10, x);
    NoDominator(corners, useSupport, points, 10, y);
  }

  /** Support lists look for dominators in one direction only: a point is compared with those that have its first
      state. Here the dominator lacks it, so the very first pruning leaves the dominated point on the list. */
  method OneSidedPointStays()
    returns (ub: SawtoothUpperBound, ghost h: seq<Lists>, ghost a: seq<BVPair>, ghost x: BVPair, ghost y: BVPair)
    ensures OnRun(ub, h, a) && ub.useSawtoothSupportList
    ensures |a| > 0 && |AddedTo(h[|a| - 1], a[|a| - 1]).points| > NextPruneNumPts(h[|a| - 1].lastNum)
    ensures x in ub.pts && y in ub.pts && x != y && !Skipped(h[|a| - 1].lastPrune, x, y) && !Rivals(true, x, y)
    ensures |ub.cornerPts| == 5 && Belief(x.b, 5) && Belief(y.b, 5) && PointDominates(ub.cornerPts, x, y)
  {
    hide *;
    ghost var ones, dead;
    ub, h, a := Start(true);
    OnRunIs(ub, h, a);
    h, a, y := AddWide(ub, 0, h, a);
    OnRunIs(ub, h, a);
    assert ub.pts == [y];
    h, a, x := AddMix(ub, 0.5, 0.0, 1, h, a);
    OnRunIs(ub, h, a);
    assert ub.pts == [y] + [x];
    h, a, ones := AddOnes(ub, 22, 8, 2, h, a);
    OnRunIs(ub, h, a);
    assert ub.pts == [y] + [x] + ones;
    ghost var s := ub.Now();
    h, a, dead := AddDead(ub, 10, h, a);
    OnRunIs(ub, h, a);
    OneSidedHarmless(s.corners, y, x, ones, dead);
    PairStays(true, s, dead, ub.Now(), x, y);
    WideIsDominated(s.corners, x, y);
    NeverSkipped(x, y);
    NoRivals(x, y);
  }

  lemma NoRivals(x: BVPair, y: BVPair)
    requires x.b == Mix(0.5) && y.b == Wide()
    ensures !Rivals(true, x, y)
  {
    MixIs(0.5);
    WideIs();
  }

  lemma NeverSkipped(x: BVPair, y: BVPair)
    ensures Skipped(-1, x, y) ==> x.numBackupsAtCreation < 0
  {
  }

  method AddWide(ub: SawtoothUpperBound, count: int, ghost h: seq<Lists>, ghost a: seq<BVPair>)
    returns (ghost h': seq<Lists>, ghost a': seq<BVPair>, ghost bv: BVPair)
    requires OnRun(ub, h, a) && 0 <= LastCount(a) <= count && |ub.pts| + 1 <= NextPruneNumPts(ub.lastPruneNumPts)
    modifies ub, ub.pts
    ensures OnRun(ub, h', a') && LastCount(a') == count
    ensures fresh(bv) && bv.b == Wide() && bv.v == 1.0 && bv.numBackupsAtCreation == count
    ensures ub.Now() == old(ub.Now()).(points := old(ub.pts) + [bv])
  {
    WideIs();
    NoCorner(Wide(), 5, 0, 1);
    hide Belief, Wide, AtCorner, NearCorner, CornerExact, Sublinear, CornersValid, PointsSound, PointsOk;
    hide SupportOk, Distinct, Step, Run;
    var cn := new BeliefNode(Wide(), false);
    ghost var s := ub.Now();
    bv := ub.SetUBForNode(cn, 1.0, true, count, Zero());
    StepAppends(ub.useSawtoothSupportList, s, bv, ub.Now());
    RunPush(ub.useSawtoothSupportList, h, a, bv, ub.Now());
    h', a' := h + [ub.Now()], a + [bv];
  }

  lemma OneSidedHarmless(corners: seq<real>, y: BVPair, x: BVPair, ones: seq<BVPair>, dead: BVPair)
    requires corners == [2.0, 2.0, 2.0, 0.0, 0.0] && y.b == Wide() && y.v == 1.0 && x.b == Mix(0.5) && x.v == 0.0
    requires Ones(ones, 22, 2) && dead.b == Dead() && dead.v == 0.0
    ensures var points := [y] + [x] + ones + [dead];
      && PointsOk(points, 5) && Belief(x.b, 5) && Belief(y.b, 5)
      && !HasDominator(corners, true, points, -1, x) && !HasDominator(corners, true, points, -1, y)
    ensures x != y
  {
    hide Mix, Dead, Wide, HasDominator, Belief, PointBound, Plane;
    var points := [y] + [x] + ones + [dead];
    DeadIs();
    MixIs(0.5);
    WideIs();
    forall p | p in points
      ensures Belief(p.b, 5)
      ensures p == y || !Rivals(true, p, y)
      ensures p == x || !PointDominates(corners, p, x)
    {
      if p in ones {
        var i :| 0 <= i < |ones| && ones[i] == p;
        OneIsBelief(p, 22 + i, 2 + i);
        MixIs(Unit(22 + i));
        OneDoesNotDominate(corners, p, Unit(22 + i), x, 0.5);
      } else if p == dead {
        DeadIsAlone(corners, p, x);
      } else {
        assert y.b.Has(0) && !x.b.Has(0);
      }
    }
    NoDominator(corners, true, points, -1, x);
    NoDominator(corners, true, points, -1, y);
  }
}
