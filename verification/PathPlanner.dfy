/** The path planner of LifeSurvey: a branch-and-bound search for the path with the most life samples. */
module PathPlanner {
  import opened GridIndex
  import opened LifeSurvey
  import opened RealArith

  /** The count given to a region that can no longer be sampled. */
  const LS_UNREACHABLE: nat := 9

  datatype LSPathEntry = LSPathEntry(lastMoveDirection: nat, pos: LSPos)

  type LSPath = seq<LSPathEntry>

  datatype LSValueEntry = LSValueEntry(unreachableRegionValue: real, regionCounts: seq<nat>)

  datatype LSModel = LSModel(grid: LSGrid, regionPriors: seq<real>) {

    /** What reading the model file guarantees: every open cell belongs to a region with a prior. */
    ghost predicate Valid() {
      && grid.Valid() && |regionPriors| <= LS_OBSTACLE
      && (forall r | 0 <= r < |regionPriors| :: 0.0 <= regionPriors[r] <= 1.0)
      && (forall pos | grid.Open(pos) :: grid.GetCell(pos) < |regionPriors|)
    }

    predicate LegalMove(e: LSPathEntry, dir: nat)
      requires grid.Valid()
    {
      && dir < 3 && grid.Open(GetNeighbor(e.pos, dir))
      && !(e.lastMoveDirection == LS_SE && dir == LS_NE)
      && !(e.lastMoveDirection == LS_NE && dir == LS_SE)
    }

    /** No open cell lies further to the east in the same row. */
    ghost predicate AtExit(pos: LSPos)
      requires grid.Valid()
    {
      forall x | pos.x < x < grid.width :: !grid.Open(LSPos(x, pos.y))
    }
  }

  function Next(e: LSPathEntry, dir: nat): LSPathEntry
    requires dir < 3
  {
    LSPathEntry(dir, GetNeighbor(e.pos, dir))
  }

  function Last(path: LSPath): LSPathEntry
    requires |path| > 0
  {
    path[|path| - 1]
  }

  function Front(path: LSPath): LSPath
    requires |path| > 0
  {
    path[..|path| - 1]
  }

  function Extend(path: LSPath, dir: nat): LSPath
    requires |path| > 0 && dir < 3
  {
    path + [Next(Last(path), dir)]
  }

  // ---------- Paths and their value ----------

  /** A path over open cells from `start`, without sharp turns, that has not passed an exit. */
  ghost predicate Legal(m: LSModel, start: LSPathEntry, path: LSPath): (legal: bool)
    requires m.grid.Valid()
    ensures legal ==> |path| > 0
  {
    if |path| == 0 then false
    else if |path| == 1 then path[0] == start && start.lastMoveDirection < 3 && m.grid.Open(start.pos)
    else
      var front := path[..|path| - 1];
      && Legal(m, start, front) && !m.AtExit(Last(front).pos)
      && m.LegalMove(Last(front), Last(path).lastMoveDirection)
      && Last(path) == Next(Last(front), Last(path).lastMoveDirection)
  }

  /** A legal path that ends at an exit. */
  ghost predicate Complete(m: LSModel, start: LSPathEntry, path: LSPath)
    requires m.grid.Valid()
  {
    Legal(m, start, path) && m.AtExit(Last(path).pos)
  }

  function AddsTo(m: LSModel, e: LSPathEntry, r: nat, dir: nat): (n: nat)
    requires m.grid.Valid() && dir < 3
    ensures n <= 1
  {
    if m.LegalMove(e, dir) && m.grid.GetCell(GetNeighbor(e.pos, dir)) == r then 1 else 0
  }

  /** How many cells of region `r` can be sampled in front of the path entry `e`. */
  function Forward(m: LSModel, e: LSPathEntry, r: nat): nat
    requires m.grid.Valid()
  {
    AddsTo(m, e, r, 0) + AddsTo(m, e, r, 1) + AddsTo(m, e, r, 2)
  }

  /** How many looks into region `r` the path gives. */
  function Count(m: LSModel, path: LSPath, r: nat): nat
    requires m.grid.Valid()
  {
    if path == [] then 0 else Count(m, path[..|path| - 1], r) + Forward(m, Last(path), r)
  }

  /** The probability that life is found in `count` independent looks. */
  function SampleProb(prior: real, count: nat): real {
    1.0 - Power(1.0 - prior, count)
  }

  /** The expected number of the first `n` regions in which the path samples life. */
  function PathValue(m: LSModel, path: LSPath, n: nat): real
    requires m.grid.Valid() && n <= |m.regionPriors|
  {
    if n == 0 then 0.0
    else PathValue(m, path, n - 1) + SampleProb(m.regionPriors[n - 1], Count(m, path, n - 1))
  }

  function Value(m: LSModel, path: LSPath): real
    requires m.grid.Valid()
  {
    PathValue(m, path, |m.regionPriors|)
  }

  lemma {:induction false} PowerBounds(x: real, n: nat)
    requires 0.0 <= x <= 1.0
    ensures 0.0 <= Power(x, n) <= 1.0
    ensures x == 1.0 ==> Power(x, n) == 1.0
  {
    hide Times;
    if n > 0 {
      var rest := Power(x, n - 1);
      PowerBounds(x, n - 1);
      TimesMono(x, 0.0, rest);
      TimesIs(x, 0.0);
      TimesMonoLeft(x, 1.0, rest);
      UnitTimes(rest);
    }
  }

  lemma PowerFalls(x: real, n: nat)
    requires 0.0 <= x <= 1.0
    ensures Power(x, n + 1) <= Power(x, n)
  {
    hide Times;
    PowerBounds(x, n);
    TimesMonoLeft(x, 1.0, Power(x, n));
    UnitTimes(Power(x, n));
  }

  /** More looks never lower the chance of finding life. */
  lemma {:induction false} SampleProbMonotone(prior: real, a: nat, b: nat)
    requires 0.0 <= prior <= 1.0 && a <= b
    ensures 0.0 <= SampleProb(prior, a) <= SampleProb(prior, b)
    ensures prior == 0.0 ==> SampleProb(prior, a) == 0.0
    decreases b
  {
    hide Power;
    PowerBounds(1.0 - prior, a);
    if a < b {
      SampleProbMonotone(prior, a, b - 1);
      PowerFalls(1.0 - prior, b - 1);
    }
  }

  // ---------- What the value of a path means ----------

  lemma {:induction false} PowerAdds(x: real, a: nat, b: nat)
    ensures Power(x, a + b) == Times(Power(x, a), Power(x, b))
  {
    hide Times;
    if a == 0 {
      UnitTimes(Power(x, b));
    } else {
      PowerAdds(x, a - 1, b);
      TimesAssoc(x, Power(x, a - 1), Power(x, b));
    }
  }

  /** One look finds life with the prior probability, and the chances that independent looks miss it multiply. */
  lemma MissesMultiply(prior: real, a: nat, b: nat)
    ensures SampleProb(prior, 0) == 0.0 && SampleProb(prior, 1) == prior
    ensures 1.0 - SampleProb(prior, a + b) == Times(1.0 - SampleProb(prior, a), 1.0 - SampleProb(prior, b))
  {
    PowerAdds(1.0 - prior, a, b);
    assert Power(1.0 - prior, 1) == Times(1.0 - prior, Power(1.0 - prior, 0));
    hide Power;
    UnitTimes(1.0 - prior);
  }

  /** Nothing else has these properties. */
  lemma {:induction false} OnlySampleProb(f: (real, nat) -> real, prior: real, n: nat)
    requires f(prior, 0) == 0.0 && f(prior, 1) == prior
    requires forall a: nat, b: nat :: 1.0 - f(prior, a + b) == Times(1.0 - f(prior, a), 1.0 - f(prior, b))
    ensures f(prior, n) == SampleProb(prior, n)
  {
    hide Times, Power, SampleProb;
    MissesMultiply(prior, 1, 0);
    if n > 0 {
      OnlySampleProb(f, prior, n - 1);
      MissesMultiply(prior, 1, n - 1);
      assert 1.0 - f(prior, 1 + (n - 1)) == Times(1.0 - f(prior, 1), 1.0 - f(prior, n - 1));
      assert 1 + (n - 1) == n;
    }
  }

  /** The probability that exactly `k` of the first `n` independent events happen, which have the probabilities `ps`. */
  ghost function Exactly(ps: seq<real>, n: nat, k: int): real
    requires n <= |ps|
  {
    if n == 0 then if k == 0 then 1.0 else 0.0
    else Times(ps[n - 1], Exactly(ps, n - 1, k - 1)) + Times(1.0 - ps[n - 1], Exactly(ps, n - 1, k))
  }

  /** The probability that at most `k` of them happen. */
  ghost function AtMost(ps: seq<real>, n: nat, k: int): real
    requires n <= |ps|
    decreases k
  {
    if k < 0 then 0.0 else AtMost(ps, n, k - 1) + Exactly(ps, n, k)
  }

  /** The sum, over the numbers up to `k`, of the number times the probability that so many happen. */
  ghost function Mean(ps: seq<real>, n: nat, k: int): real
    requires n <= |ps|
    decreases k
  {
    if k < 0 then 0.0 else Mean(ps, n, k - 1) + Times(k as real, Exactly(ps, n, k))
  }

  lemma {:induction false} NoneOfNone(ps: seq<real>, k: int)
    ensures AtMost(ps, 0, k) == (if k < 0 then 0.0 else 1.0) && Mean(ps, 0, k) == 0.0
    decreases k
  {
    if k >= 0 {
      NoneOfNone(ps, k - 1);
    }
  }

  lemma {:induction false} Negative(ps: seq<real>, n: nat, k: int)
    requires n <= |ps| && k < 0
    ensures Exactly(ps, n, k) == 0.0
  {
    if n > 0 {
      Negative(ps, n - 1, k - 1);
      Negative(ps, n - 1, k);
      TimesIs(ps[n - 1], 0.0);
      TimesIs(1.0 - ps[n - 1], 0.0);
    }
  }

  /** Whether the last event happens or not splits both sums. */
  lemma {:induction false} SplitSums(ps: seq<real>, n: nat, k: int)
    requires 0 < n <= |ps|
    ensures var p := ps[n - 1];
      && AtMost(ps, n, k) == Times(p, AtMost(ps, n - 1, k - 1)) + Times(1.0 - p, AtMost(ps, n - 1, k))
      && Mean(ps, n, k) == Times(p, Mean(ps, n - 1, k - 1) + AtMost(ps, n - 1, k - 1))
                           + Times(1.0 - p, Mean(ps, n - 1, k))
    decreases k
  {
    var p := ps[n - 1];
    hide Times;
    if k < 0 {
      TimesIs(p, 0.0);
      TimesIs(1.0 - p, 0.0);
    } else {
      SplitSums(ps, n, k - 1);
      var x, y := Exactly(ps, n - 1, k - 1), Exactly(ps, n - 1, k);
      if k == 0 {
        Negative(ps, n - 1, -1);
      }
      SplitTerm(p, k as real, x, y);
      TimesPlus(p, AtMost(ps, n - 1, k - 2), x);
      TimesPlus(1.0 - p, AtMost(ps, n - 1, k - 1), y);
      var before := Mean(ps, n - 1, k - 2) + AtMost(ps, n - 1, k - 2);
      var more := Times((k - 1) as real, x) + x;
      TimesPlus(p, before, more);
      TimesPlus(1.0 - p, Mean(ps, n - 1, k - 1), Times(k as real, y));
      assert (k - 1) as real == k as real - 1.0;
      if k == 0 {
        TimesIs((k - 1) as real, x);
        assert Mean(ps, n - 1, k - 1) + AtMost(ps, n - 1, k - 1) == before + more;
      } else {
        assert Mean(ps, n - 1, k - 1) == Mean(ps, n - 1, k - 2) + Times((k - 1) as real, x);
        assert AtMost(ps, n - 1, k - 1) == AtMost(ps, n - 1, k - 2) + x;
      }
    }
  }

  lemma SplitTerm(p: real, k: real, x: real, y: real)
    ensures Times(k, Times(p, x) + Times(1.0 - p, y)) == Times(p, Times(k - 1.0, x) + x) + Times(1.0 - p, Times(k, y))
  {
    assert k * (p * x) == p * (k * x) && k * ((1.0 - p) * y) == (1.0 - p) * (k * y);
    assert k * (p * x + (1.0 - p) * y) == k * (p * x) + k * ((1.0 - p) * y);
    assert (k - 1.0) * x + x == k * x;
  }

  ghost function Sum(ps: seq<real>, n: nat): real
    requires n <= |ps|
  {
    if n == 0 then 0.0 else Sum(ps, n - 1) + ps[n - 1]
  }

  /** The expected number of independent events that happen is the sum of their probabilities. */
  lemma {:induction false} MeanIsSum(ps: seq<real>, n: nat, k: int)
    requires n <= |ps| && n <= k
    ensures AtMost(ps, n, k) == 1.0 && Mean(ps, n, k) == Sum(ps, n)
  {
    hide Times, Exactly, AtMost, Mean;
    if n == 0 {
      NoneOfNone(ps, k);
    } else {
      MeanIsSum(ps, n - 1, k - 1);
      MeanIsSum(ps, n - 1, k);
      SplitSums(ps, n, k);
      Mixture(ps[n - 1], Sum(ps, n - 1));
    }
  }

  lemma Mixture(p: real, s: real)
    ensures Times(p, s + 1.0) + Times(1.0 - p, s) == s + p
    ensures Times(p, 1.0) + Times(1.0 - p, 1.0) == 1.0
  {
    assert p * (s + 1.0) == p * s + p;
    assert (1.0 - p) * s == s - p * s;
  }

  /** The chance to find life in a region is that of at least one success among its looks. */
  lemma {:induction false} SampleProbIsSuccess(prior: real, count: nat, n: nat)
    requires n <= count
    ensures SampleProb(prior, n) == 1.0 - Exactly(seq(count, _ => prior), n, 0)
  {
    var ps := seq(count, _ => prior);
    if n == 0 {
      MissesMultiply(prior, 0, 0);
    } else {
      SampleProbIsSuccess(prior, count, n - 1);
      MissesMultiply(prior, 1, n - 1);
      Negative(ps, n - 1, -1);
      TimesIs(prior, 0.0);
      assert 1 + (n - 1) == n && ps[n - 1] == prior;
      assert Exactly(ps, n, 0) == Times(prior, Exactly(ps, n - 1, -1)) + Times(1.0 - prior, Exactly(ps, n - 1, 0));
    }
  }

  /** The chances of a path to find life, region by region. */
  ghost function Chances(m: LSModel, path: LSPath): (ps: seq<real>)
    requires m.grid.Valid()
    ensures |ps| == |m.regionPriors|
    ensures forall r | 0 <= r < |ps| :: ps[r] == SampleProb(m.regionPriors[r], Count(m, path, r))
  {
    seq(|m.regionPriors|, r requires 0 <= r < |m.regionPriors| => SampleProb(m.regionPriors[r], Count(m, path, r)))
  }

  lemma {:induction false} ValueIsSum(m: LSModel, path: LSPath, n: nat)
    requires m.grid.Valid() && n <= |m.regionPriors|
    ensures PathValue(m, path, n) == Sum(Chances(m, path), n)
  {
    hide SampleProb, Count;
    if n > 0 {
      ValueIsSum(m, path, n - 1);
    }
  }

  /** The value of a path is the expected number of different regions in which it finds life. */
  lemma ValueIsExpectation(m: LSModel, path: LSPath)
    requires m.grid.Valid()
    ensures Value(m, path) == Mean(Chances(m, path), |m.regionPriors|, |m.regionPriors|)
  {
    ValueIsSum(m, path, |m.regionPriors|);
    hide Times, SampleProb, Count, Chances;
    MeanIsSum(Chances(m, path), |m.regionPriors|, |m.regionPriors|);
  }

  // ---------- Structure of legal paths ----------

  /** One step between neighbouring entries of a path: to the north-east, east or south-east, onto an open cell, and
      without a sharp turn between north-east and south-east. */
  ghost predicate IsStep(m: LSModel, e: LSPathEntry, f: LSPathEntry)
    requires m.grid.Valid()
  {
    && m.grid.Open(f.pos)
    && match f.lastMoveDirection
       case 0 => f.pos == LSPos(e.pos.x + 1, e.pos.y + 1) && e.lastMoveDirection != LS_SE
       case 1 => f.pos == LSPos(e.pos.x + 1, e.pos.y)
       case 2 => f.pos == LSPos(e.pos.x, e.pos.y - 1) && e.lastMoveDirection != LS_NE
       case _ => false
  }

  /** Entry `k` of a path is one step away from the entry before it, which is not at an exit. */
  ghost predicate StepAt(m: LSModel, path: LSPath, k: nat)
    requires m.grid.Valid() && 0 < k < |path|
  {
    IsStep(m, path[k - 1], path[k]) && !m.AtExit(path[k - 1].pos)
  }

  /** A path is legal exactly if it takes such steps from the start on, and none of them from an exit. */
  lemma {:induction false} LegalExactly(m: LSModel, start: LSPathEntry, path: LSPath)
    requires m.grid.Valid() && m.grid.Open(start.pos) && start.lastMoveDirection < 3
    ensures Legal(m, start, path) <==> path != [] && path[0] == start && forall k | 0 < k < |path| :: StepAt(m, path, k)
  {
    hide LSModel.AtExit, LSGrid.Open;
    if |path| > 1 {
      var n := |path| - 1;
      var front := path[..n];
      LegalExactly(m, start, front);
      StepIsMove(m, path[n - 1], path[n]);
      assert forall k | 0 < k < n :: StepAt(m, front, k) <==> StepAt(m, path, k);
      assert StepAt(m, path, n) <==> IsStep(m, Last(front), Last(path)) && !m.AtExit(Last(front).pos);
    }
  }

  lemma StepIsMove(m: LSModel, e: LSPathEntry, f: LSPathEntry)
    requires m.grid.Valid()
    ensures IsStep(m, e, f) <==>
      m.LegalMove(e, f.lastMoveDirection) && f == Next(e, f.lastMoveDirection)
  {
  }

  /** The cells in front of an entry that lie in region `r`: those that a legal step can lead to. */
  lemma ForwardCounts(m: LSModel, e: LSPathEntry, r: nat)
    requires m.grid.Valid()
    ensures Forward(m, e, r) ==
      |set dir: nat | dir < 3 && IsStep(m, e, Next(e, dir)) && m.grid.GetCell(GetNeighbor(e.pos, dir)) == r|
    ensures Count(m, [e], r) == Forward(m, e, r)
  {
    var s := set dir: nat | dir < 3 && IsStep(m, e, Next(e, dir)) && m.grid.GetCell(GetNeighbor(e.pos, dir)) == r;
    forall dir: nat | dir < 3
      ensures dir in s <==> AddsTo(m, e, r, dir) == 1
    {
      StepIsMove(m, e, Next(e, dir));
    }
    assert forall dir | dir in s :: dir < 3;
    assert Forward(m, e, r) == AddsTo(m, e, r, 0) + AddsTo(m, e, r, 1) + AddsTo(m, e, r, 2);
    assert [e][..0] == [] && Count(m, [e], r) == Count(m, [e][..0], r) + Forward(m, e, r);
    hide *;
    SizeBelowThree(s);
  }

  lemma SizeBelowThree(s: set<nat>)
    requires forall i | i in s :: i < 3
    ensures |s| == (if 0 in s then 1 else 0) + (if 1 in s then 1 else 0) + if 2 in s then 1 else 0
  {
    assert s == (if 0 in s then {0} else {}) + (if 1 in s then {1} else {}) + (if 2 in s then {2} else {});
  }

  lemma {:induction false} LegalPrefix(m: LSModel, start: LSPathEntry, path: LSPath, k: nat)
    requires m.grid.Valid() && Legal(m, start, path) && 1 <= k <= |path|
    ensures Legal(m, start, path[..k])
    ensures k < |path| ==> !m.AtExit(path[k - 1].pos)
    ensures k < |path| ==> (var dir := path[k].lastMoveDirection;
                            m.LegalMove(path[k - 1], dir) && path[k] == Next(path[k - 1], dir))
  {
    if k == |path| {
      assert path[..k] == path;
    } else {
      var front := path[..|path| - 1];
      assert front[..k] == path[..k];
      LegalPrefix(m, start, front, k);
    }
  }

  lemma {:induction false} LegalOpen(m: LSModel, start: LSPathEntry, path: LSPath)
    requires m.grid.Valid() && Legal(m, start, path)
    ensures m.grid.Open(Last(path).pos) && Last(path).lastMoveDirection < 3
  {
  }

  /** A path never comes back to a cell: the room to move shrinks along it. */
  lemma {:induction false} RoomFalls(m: LSModel, start: LSPathEntry, path: LSPath, k: nat)
    requires m.grid.Valid() && Legal(m, start, path) && 1 <= k < |path|
    ensures Room(m.grid, path[k - 1].pos) > Room(m.grid, Last(path).pos)
  {
    var front := path[..|path| - 1];
    LegalOpen(m, start, front);
    MovesUseRoom(m.grid, Last(front).pos, Last(path).lastMoveDirection);
    if k < |front| {
      RoomFalls(m, start, front, k);
    }
  }

  /** Two paths that end in the same way can be continued in the same way. */
  lemma {:induction false} Splice(m: LSModel, start: LSPathEntry, p: LSPath, q: LSPath, ext: LSPath)
    requires m.grid.Valid() && Legal(m, start, p) && Legal(m, start, q) && Last(p) == Last(q)
    requires Legal(m, start, q + ext)
    ensures Legal(m, start, p + ext) && Last(p + ext) == Last(q + ext)
    decreases |ext|
  {
    if ext == [] {
      assert p + ext == p && q + ext == q;
    } else {
      var rest := ext[..|ext| - 1];
      assert (p + ext)[..|p + ext| - 1] == p + rest;
      assert (q + ext)[..|q + ext| - 1] == q + rest;
      Splice(m, start, p, q, rest);
    }
  }

  lemma {:induction false} CountSplit(m: LSModel, path: LSPath, ext: LSPath, r: nat)
    requires m.grid.Valid()
    ensures Count(m, path + ext, r) == Count(m, path, r) + Count(m, ext, r)
    decreases |ext|
  {
    if ext == [] {
      assert path + ext == path;
    } else {
      var rest := ext[..|ext| - 1];
      assert (path + ext)[..|path + ext| - 1] == path + rest;
      CountSplit(m, path, rest, r);
    }
  }

  /** Region `r` can still be sampled after this entry. */
  ghost predicate Live(m: LSModel, e: LSPathEntry, r: nat)
    requires m.grid.Valid()
  {
    !m.AtExit(e.pos) && Reaches(m.grid, r, e.pos)
  }

  lemma AddedIsReached(m: LSModel, e: LSPathEntry, r: nat, dir: nat)
    requires m.grid.Valid() && m.grid.Open(e.pos) && dir < 3
    ensures AddsTo(m, e, r, dir) == 1 ==> Reaches(m.grid, r, e.pos)
  {
    if AddsTo(m, e, r, dir) == 1 {
      assert m.grid.Open(GetNeighbor(e.pos, dir)) && Reaches(m.grid, r, GetNeighbor(e.pos, dir));
    }
  }

  lemma ForwardIsReached(m: LSModel, e: LSPathEntry, r: nat)
    requires m.grid.Valid() && m.grid.Open(e.pos) && !Reaches(m.grid, r, e.pos)
    ensures Forward(m, e, r) == 0
  {
    AddedIsReached(m, e, r, 0);
    AddedIsReached(m, e, r, 1);
    AddedIsReached(m, e, r, 2);
  }

  /** A region that is out of reach stays out of reach, and no more looks into it are gained. */
  lemma DeadStays(m: LSModel, start: LSPathEntry, path: LSPath, r: nat)
    requires m.grid.Valid() && Legal(m, start, path) && |path| > 1 && !Live(m, path[|path| - 2], r)
    ensures !Live(m, Last(path), r) && Forward(m, Last(path), r) == 0
  {
    var e := path[|path| - 2];
    assert Last(path[..|path| - 1]) == e;
    LegalOpen(m, start, path[..|path| - 1]);
    assert !Reaches(m.grid, r, Last(path).pos) by {
      assert m.grid.Open(GetNeighbor(e.pos, Last(path).lastMoveDirection));
    }
    ForwardIsReached(m, Last(path), r);
  }

  lemma {:induction false} DeadSuffix(m: LSModel, start: LSPathEntry, path: LSPath, ext: LSPath, r: nat)
    requires m.grid.Valid() && Legal(m, start, path) && Legal(m, start, path + ext) && !Live(m, Last(path), r)
    ensures Count(m, ext, r) == 0 && !Live(m, Last(path + ext), r)
    decreases |ext|
  {
    if ext == [] {
      assert path + ext == path;
    } else {
      var rest := ext[..|ext| - 1];
      assert (path + ext)[..|path + ext| - 1] == path + rest;
      DeadSuffix(m, start, path, rest, r);
      DeadStays(m, start, path + ext, r);
    }
  }

  // ---------- Value entries ----------

  /** The value already settled by a path: the regions among the first `n` that it can no longer sample,
      except those whose count happens to be LS_UNREACHABLE. */
  ghost function Settled(m: LSModel, path: LSPath, n: nat): real
    requires m.grid.Valid() && |path| > 0 && n <= |m.regionPriors|
  {
    if n == 0 then 0.0
    else
      Settled(m, path, n - 1)
      + if !Live(m, Last(path), n - 1) && Count(m, path, n - 1) != LS_UNREACHABLE
        then SampleProb(m.regionPriors[n - 1], Count(m, path, n - 1)) else 0.0
  }

  /** The value entry `v` describes the path. */
  ghost predicate Tracks(m: LSModel, path: LSPath, v: LSValueEntry)
    requires m.grid.Valid() && |path| > 0
  {
    && |v.regionCounts| == |m.regionPriors|
    && v.unreachableRegionValue == Settled(m, path, |m.regionPriors|)
    && forall r | 0 <= r < |m.regionPriors| ::
         v.regionCounts[r] == if Live(m, Last(path), r) then Count(m, path, r) else LS_UNREACHABLE
  }

  /** The value entry with which the search enters the last cell of the path. */
  ghost predicate Before(m: LSModel, path: LSPath, v: LSValueEntry)
    requires m.grid.Valid() && |path| > 0
  {
    if |path| == 1 then
      v.unreachableRegionValue == 0.0 && v.regionCounts == seq(|m.regionPriors|, _ => 0)
    else
      Tracks(m, path[..|path| - 1], v)
  }

  /** `w` is `v` with the cells in front of `e` counted. */
  ghost predicate Counted(m: LSModel, e: LSPathEntry, v: LSValueEntry, w: LSValueEntry)
    requires m.grid.Valid()
  {
    && |v.regionCounts| == |w.regionCounts| == |m.regionPriors|
    && w.unreachableRegionValue == v.unreachableRegionValue
    && forall r | 0 <= r < |m.regionPriors| :: w.regionCounts[r] == v.regionCounts[r] + Forward(m, e, r)
  }

  ghost function FoldGain(m: LSModel, e: LSPathEntry, v: LSValueEntry, n: nat): real
    requires m.grid.Valid() && |v.regionCounts| == |m.regionPriors| && n <= |m.regionPriors|
  {
    if n == 0 then 0.0
    else
      FoldGain(m, e, v, n - 1)
      + if !Live(m, e, n - 1) && v.regionCounts[n - 1] != LS_UNREACHABLE
        then SampleProb(m.regionPriors[n - 1], v.regionCounts[n - 1]) else 0.0
  }

  /** `w` is `v` with the regions that are out of reach folded into the settled value. */
  ghost predicate Folded(m: LSModel, e: LSPathEntry, v: LSValueEntry, w: LSValueEntry)
    requires m.grid.Valid()
  {
    && |v.regionCounts| == |w.regionCounts| == |m.regionPriors|
    && w.unreachableRegionValue == v.unreachableRegionValue + FoldGain(m, e, v, |m.regionPriors|)
    && forall r | 0 <= r < |m.regionPriors| ::
         w.regionCounts[r] == if Live(m, e, r) then v.regionCounts[r] else LS_UNREACHABLE
  }

  /** One step of the search turns the entry for a path into the entry for the longer path. */
  lemma StepTracks(m: LSModel, start: LSPathEntry, path: LSPath, v: LSValueEntry, w: LSValueEntry, u: LSValueEntry)
    requires m.Valid() && Legal(m, start, path) && Before(m, path, v)
    requires Counted(m, Last(path), v, w) && Folded(m, Last(path), w, u)
    ensures Tracks(m, path, u)
  {
    var e := Last(path);
    var n := |m.regionPriors|;
    if |path| == 1 {
      forall r | 0 <= r < n
        ensures w.regionCounts[r] == Count(m, path, r)
      {
        assert path[..0] == [];
      }
      FirstGain(m, path, w, n);
    } else {
      forall r | 0 <= r < n
        ensures LaterCount(m, path, w, r)
      {
        if !Live(m, path[|path| - 2], r) {
          DeadStays(m, start, path, r);
        }
      }
      LaterGain(m, path, w, n);
    }
  }

  lemma {:induction false} FirstGain(m: LSModel, path: LSPath, w: LSValueEntry, n: nat)
    requires m.grid.Valid() && |path| > 0 && n <= |m.regionPriors| == |w.regionCounts|
    requires forall r | 0 <= r < n :: w.regionCounts[r] == Count(m, path, r)
    ensures FoldGain(m, Last(path), w, n) == Settled(m, path, n)
  {
    if n > 0 {
      FirstGain(m, path, w, n - 1);
    }
  }

  lemma {:induction false} LaterGain(m: LSModel, path: LSPath, w: LSValueEntry, n: nat)
    requires m.grid.Valid() && |path| > 1 && n <= |m.regionPriors| == |w.regionCounts|
    requires forall r | 0 <= r < n :: LaterCount(m, path, w, r)
    ensures Settled(m, path[..|path| - 1], n) + FoldGain(m, Last(path), w, n) == Settled(m, path, n)
  {
    if n > 0 {
      LaterGain(m, path, w, n - 1);
      assert LaterCount(m, path, w, n - 1);
      hide Live, Count, SampleProb;
    }
  }

  /** Region `r` is counted for a longer path as the step from the shorter one counts it. */
  ghost predicate LaterCount(m: LSModel, path: LSPath, w: LSValueEntry, r: nat)
    requires m.grid.Valid() && |path| > 1 && r < |w.regionCounts|
  {
    var front := path[..|path| - 1];
    && w.regionCounts[r] == (if Live(m, Last(front), r) then Count(m, path, r) else LS_UNREACHABLE)
    && (!Live(m, Last(front), r) ==> !Live(m, Last(path), r) && Count(m, path, r) == Count(m, front, r))
  }

  // ---------- The value that the search reports ----------

  /** What a complete path loses because some count is LS_UNREACHABLE. */
  ghost function Lost(m: LSModel, path: LSPath, n: nat): real
    requires m.grid.Valid() && n <= |m.regionPriors|
  {
    if n == 0 then 0.0
    else
      Lost(m, path, n - 1)
      + if Count(m, path, n - 1) == LS_UNREACHABLE
        then SampleProb(m.regionPriors[n - 1], LS_UNREACHABLE) else 0.0
  }

  lemma {:induction false} SettledAtExit(m: LSModel, path: LSPath, n: nat)
    requires m.grid.Valid() && |path| > 0 && m.AtExit(Last(path).pos) && n <= |m.regionPriors|
    ensures Settled(m, path, n) == PathValue(m, path, n) - Lost(m, path, n)
  {
    if n > 0 {
      SettledAtExit(m, path, n - 1);
    }
  }

  /** No region of interest gets exactly LS_UNREACHABLE looks. */
  ghost predicate NineFree(m: LSModel, path: LSPath)
    requires m.grid.Valid()
  {
    forall r | 0 <= r < |m.regionPriors| :: Count(m, path, r) == LS_UNREACHABLE ==> m.regionPriors[r] == 0.0
  }

  lemma {:induction false} LostNothing(m: LSModel, path: LSPath, n: nat)
    requires m.Valid() && n <= |m.regionPriors|
    ensures 0.0 <= Lost(m, path, n) <= PathValue(m, path, n)
    ensures Lost(m, path, n) == 0.0 <==>
      forall r | 0 <= r < n :: Count(m, path, r) == LS_UNREACHABLE ==> m.regionPriors[r] == 0.0
  {
    if n > 0 {
      LostNothing(m, path, n - 1);
      NineLooks(m.regionPriors[n - 1]);
      SampleProbMonotone(m.regionPriors[n - 1], Count(m, path, n - 1), Count(m, path, n - 1));
    }
  }

  lemma NineLooks(prior: real)
    requires 0.0 <= prior <= 1.0
    ensures SampleProb(prior, LS_UNREACHABLE) >= prior
    ensures prior == 0.0 ==> SampleProb(prior, LS_UNREACHABLE) == 0.0
  {
    SampleProbMonotone(prior, 1, LS_UNREACHABLE);
    SampleProbMonotone(prior, LS_UNREACHABLE, LS_UNREACHABLE);
    assert Power(1.0 - prior, 1) == (1.0 - prior) * Power(1.0 - prior, 0);
  }

  /** What the search reports for a complete path. */
  ghost function Reported(m: LSModel, path: LSPath): real
    requires m.grid.Valid()
  {
    Value(m, path) - Lost(m, path, |m.regionPriors|)
  }

  lemma ReportedBounds(m: LSModel, path: LSPath)
    requires m.Valid()
    ensures 0.0 <= Reported(m, path) <= Value(m, path)
    ensures Reported(m, path) == Value(m, path) <==> NineFree(m, path)
  {
    LostNothing(m, path, |m.regionPriors|);
  }

  /** The value reported for a complete path never exceeds its true value, and equals it exactly when no region
      of interest gets LS_UNREACHABLE looks. */
  lemma ReportedValue(m: LSModel, start: LSPathEntry, path: LSPath, v: LSValueEntry)
    requires m.Valid() && Complete(m, start, path) && Tracks(m, path, v)
    ensures v.unreachableRegionValue == Reported(m, path)
    ensures 0.0 <= v.unreachableRegionValue <= Value(m, path)
    ensures v.unreachableRegionValue == Value(m, path) <==> NineFree(m, path)
  {
    SettledAtExit(m, path, |m.regionPriors|);
    ReportedBounds(m, path);
  }

  // ---------- Dominance ----------

  ghost predicate Dominates(v: LSValueEntry, w: LSValueEntry) {
    && v.unreachableRegionValue >= w.unreachableRegionValue
    && |v.regionCounts| == |w.regionCounts|
    && forall i | 0 <= i < |v.regionCounts| :: v.regionCounts[i] >= w.regionCounts[i]
  }

  /** The look-up at place `k` of the table: the entry is dominated exactly if one stored there dominates it, and is
      stored itself otherwise. */
  ghost predicate LookedUp(table: seq<seq<LSValueEntry>>, k: nat, v: LSValueEntry, dominated: bool,
                           table': seq<seq<LSValueEntry>>) {
    && k < |table|
    && (dominated <==> exists j :: 0 <= j < |table[k]| && Dominates(table[k][j], v))
    && table' == if dominated then table else table[k := table[k] + [v]]
  }

  /** What trying one direction led to; nothing if the move is not legal. */
  datatype Tried = NotLegal | Tried(path: LSPath, value: real)

  /** `path` is the first of highest value among the first `n` directions tried, and nothing if none led to anything. */
  ghost predicate FirstBest(tried: seq<Tried>, n: nat, path: LSPath, value: real) {
    && n <= |tried|
    && (forall d | 0 <= d < n && tried[d].Tried? :: tried[d].value <= value)
    && ((path == [] && value == -999.0)
        || exists d :: 0 <= d < n && tried[d] == Tried(path, value) && value > -999.0
             && forall e | 0 <= e < d && tried[e].Tried? :: tried[e].value < value)
  }

  lemma FirstBestStep(tried: seq<Tried>, n: nat, path: LSPath, value: real, t: Tried)
    requires |tried| == n && FirstBest(tried, n, path, value) && value >= -999.0
    ensures if t.Tried? && t.value > value then FirstBest(tried + [t], n + 1, t.path, t.value)
            else FirstBest(tried + [t], n + 1, path, value)
  {
    var all := tried + [t];
    assert all[n] == t;
    if !(t.Tried? && t.value > value) && !(path == [] && value == -999.0) {
      var d :| 0 <= d < n && tried[d] == Tried(path, value) && value > -999.0
        && forall e | 0 <= e < d && tried[e].Tried? :: tried[e].value < value;
      assert all[d] == Tried(path, value);
    }
  }

  /** Whatever completes the dominated path completes the other one with at least the same value, provided that
      the value of the dominated completion is reported in full. */
  lemma DominatesForever(m: LSModel, start: LSPathEntry, p: LSPath, v: LSValueEntry, q: LSPath, w: LSValueEntry,
                         ext: LSPath)
    requires m.Valid() && Legal(m, start, p) && Legal(m, start, q) && Last(p) == Last(q)
    requires Tracks(m, p, v) && Tracks(m, q, w) && Dominates(v, w)
    requires Complete(m, start, q + ext) && NineFree(m, q + ext)
    ensures Complete(m, start, p + ext)
    ensures Value(m, p + ext) >= Value(m, q + ext)
  {
    Splice(m, start, p, q, ext);
    assert Complete(m, start, p + ext);
    hide Legal, Complete, Live, Count, Forward, NineFree, PathValue, Settled, SampleProb, Reaches, LSModel.AtExit;
    forall r | 0 <= r < |m.regionPriors|
      ensures GapOf(m, p, q, ext, r)
    {
      GapOfRegion(m, start, p, q, ext, r);
    }
    SumGaps(m, p, q, ext, |m.regionPriors|);
  }

  ghost function SettledTerm(m: LSModel, path: LSPath, r: nat): real
    requires m.grid.Valid() && |path| > 0 && r < |m.regionPriors|
  {
    if !Live(m, Last(path), r) && Count(m, path, r) != LS_UNREACHABLE
    then SampleProb(m.regionPriors[r], Count(m, path, r)) else 0.0
  }

  /** For region `r`, continuing `p` instead of `q` loses no more than `p` has already settled. */
  ghost predicate GapOf(m: LSModel, p: LSPath, q: LSPath, ext: LSPath, r: nat)
    requires m.grid.Valid() && |p| > 0 && |q| > 0 && r < |m.regionPriors|
  {
    SampleProb(m.regionPriors[r], Count(m, p + ext, r)) - SampleProb(m.regionPriors[r], Count(m, q + ext, r))
    >= SettledTerm(m, p, r) - SettledTerm(m, q, r)
  }

  lemma GapOfRegion(m: LSModel, start: LSPathEntry, p: LSPath, q: LSPath, ext: LSPath, r: nat)
    requires m.Valid() && Legal(m, start, p) && Legal(m, start, q) && Last(p) == Last(q)
    requires Legal(m, start, p + ext) && Legal(m, start, q + ext) && r < |m.regionPriors|
    requires NineFree(m, q + ext)
    requires Live(m, Last(p), r) ==> Count(m, p, r) >= Count(m, q, r)
    ensures GapOf(m, p, q, ext, r)
  {
    hide Power, SampleProb, Live, Count, Reaches, NineFree, LSModel.AtExit;
    if Live(m, Last(p), r) {
      CountSplit(m, p, ext, r);
      CountSplit(m, q, ext, r);
      SampleProbMonotone(m.regionPriors[r], Count(m, q + ext, r), Count(m, p + ext, r));
    } else {
      DeadTerm(m, start, p, ext, r);
      DeadTerm(m, start, q, ext, r);
    }
  }

  lemma DeadTerm(m: LSModel, start: LSPathEntry, path: LSPath, ext: LSPath, r: nat)
    requires m.Valid() && Legal(m, start, path) && Legal(m, start, path + ext) && r < |m.regionPriors|
    requires !Live(m, Last(path), r)
    ensures SampleProb(m.regionPriors[r], Count(m, path + ext, r)) >= SettledTerm(m, path, r)
    ensures NineFree(m, path + ext) ==>
      SampleProb(m.regionPriors[r], Count(m, path + ext, r)) == SettledTerm(m, path, r)
  {
    hide Power, SampleProb, Live, Count, Reaches, LSModel.AtExit;
    CountSplit(m, path, ext, r);
    DeadSuffix(m, start, path, ext, r);
    SampleProbMonotone(m.regionPriors[r], Count(m, path, r), Count(m, path, r));
  }

  lemma {:induction false} SumGaps(m: LSModel, p: LSPath, q: LSPath, ext: LSPath, n: nat)
    requires m.grid.Valid() && |p| > 0 && |q| > 0 && n <= |m.regionPriors|
    requires forall r | 0 <= r < n :: GapOf(m, p, q, ext, r)
    ensures PathValue(m, p + ext, n) - PathValue(m, q + ext, n) >= Settled(m, p, n) - Settled(m, q, n)
  {
    if n > 0 {
      SumGaps(m, p, q, ext, n - 1);
      assert GapOf(m, p, q, ext, n - 1);
    }
  }

  // ---------- The pruned search ----------

  /** The slot of a path entry in the table of known values. */
  function MapIndex(m: LSModel, e: LSPathEntry): (k: nat)
    requires m.grid.Valid() && m.grid.InBounds(e.pos) && e.lastMoveDirection < 3
    ensures k < 3 * |m.grid.data|
  {
    3 * m.grid.Index(e.pos) + e.lastMoveDirection
  }

  lemma MapIndexInjective(m: LSModel, d: LSPathEntry, e: LSPathEntry)
    requires m.grid.Valid() && m.grid.InBounds(d.pos) && d.lastMoveDirection < 3
    requires m.grid.InBounds(e.pos) && e.lastMoveDirection < 3
    requires MapIndex(m, d) == MapIndex(m, e)
    ensures d == e
  {
    assert m.grid.Index(d.pos) == m.grid.Index(e.pos);
    IndexInjective(m.grid.width, d.pos.x, d.pos.y, e.pos.x, e.pos.y);
  }

  /** `p` leads to the same entry as `q` with a value entry that dominates that of `q`. */
  ghost predicate Outdoes(m: LSModel, start: LSPathEntry, p: LSPath, q: LSPath)
    requires m.grid.Valid()
  {
    && Legal(m, start, p) && Legal(m, start, q) && Last(p) == Last(q)
    && exists v, w :: Tracks(m, p, v) && Tracks(m, q, w) && Dominates(v, w)
  }

  /** Complete paths that are reported at `floor` or more, and that pruning can only replace by one another. */
  ghost predicate Family(m: LSModel, start: LSPathEntry, family: iset<LSPath>, floor: real)
    requires m.grid.Valid()
  {
    && (forall q | q in family :: Complete(m, start, q) && floor <= Reported(m, q))
    && (forall p, q, ext | Outdoes(m, start, p, q) && q + ext in family :: p + ext in family)
  }

  /** `best` is as good as every family to which `q` belongs. */
  ghost predicate Matched(m: LSModel, start: LSPathEntry, q: LSPath, best: real)
    requires m.grid.Valid()
  {
    forall family, floor | Family(m, start, family, floor) && q in family :: floor <= best
  }

  /** Every complete path that starts with `path` is matched by `best`. */
  ghost predicate Covered(m: LSModel, start: LSPathEntry, path: LSPath, best: real)
    requires m.grid.Valid()
  {
    forall q | Complete(m, start, q) && path <= q :: 0.0 <= best && Matched(m, start, q, best)
  }

  /** All complete paths worth `floor` or more are reported in full. */
  ghost predicate ClearAbove(m: LSModel, start: LSPathEntry, floor: real)
    requires m.grid.Valid()
  {
    forall p | Complete(m, start, p) && floor <= Value(m, p) :: NineFree(m, p)
  }

  ghost function WorthAtLeast(m: LSModel, start: LSPathEntry, floor: real): iset<LSPath>
    requires m.grid.Valid()
  {
    iset q: LSPath | Complete(m, start, q) && floor <= Value(m, q)
  }

  /** Those paths are such a family: an outdone path is replaced by one worth at least as much. */
  lemma ClearFamily(m: LSModel, start: LSPathEntry, floor: real)
    requires m.Valid() && ClearAbove(m, start, floor)
    ensures Family(m, start, WorthAtLeast(m, start, floor), floor)
  {
    assert m.grid.Valid();
    hide Legal, LSModel.AtExit, Value, NineFree, Reported, Tracks, Dominates, LSModel.Valid, Last;
    var family := WorthAtLeast(m, start, floor);
    forall q | q in family
      ensures floor <= Reported(m, q)
    {
      ReportedBounds(m, q);
    }
    forall p, q, ext | Outdoes(m, start, p, q) && q + ext in family
      ensures p + ext in family
    {
      var v, w :| Tracks(m, p, v) && Tracks(m, q, w) && Dominates(v, w);
      DominatesForever(m, start, p, v, q, w, ext);
    }
  }

  /** A stored value entry describes a path that is covered, or is still being extended. */
  ghost predicate EntryOk(m: LSModel, start: LSPathEntry, k: nat, path: LSPath, v: LSValueEntry,
                          best: real, current: LSPath)
    requires m.grid.Valid()
  {
    && Legal(m, start, path)
    && m.grid.InBounds(Last(path).pos) && Last(path).lastMoveDirection < 3 && MapIndex(m, Last(path)) == k
    && Tracks(m, path, v)
    && (Covered(m, start, path, best) || path <= current)
  }

  /** `origins` gives, for each stored value entry, the path it was computed for. */
  ghost predicate MapOk(m: LSModel, start: LSPathEntry, table: seq<seq<LSValueEntry>>, origins: seq<seq<LSPath>>,
                        best: real, current: LSPath)
    requires m.grid.Valid()
  {
    && |table| == |origins| == 3 * |m.grid.data|
    && (forall k | 0 <= k < |table| :: |table[k]| == |origins[k]|)
    && (forall k, j | 0 <= k < |table| && 0 <= j < |table[k]| ::
          EntryOk(m, start, k, origins[k][j], table[k][j], best, current))
  }

  lemma CoveredMono(m: LSModel, start: LSPathEntry, path: LSPath, best: real, better: real)
    requires m.grid.Valid() && Covered(m, start, path, best) && best <= better
    ensures Covered(m, start, path, better)
  {
  }

  /** The one-step extensions in the first `n` directions are covered. */
  ghost predicate ExtensionsCovered(m: LSModel, start: LSPathEntry, path: LSPath, n: nat, best: real)
    requires m.grid.Valid() && |path| > 0 && n <= 3
  {
    forall d: nat | d < n && m.LegalMove(Last(path), d) :: Covered(m, start, Extend(path, d), best)
  }

  lemma NoneCovered(m: LSModel, start: LSPathEntry, path: LSPath, best: real)
    requires m.grid.Valid() && Legal(m, start, path)
    ensures |path| > 0 && ExtensionsCovered(m, start, path, 0, best)
  {
  }

  lemma OneMoreCovered(m: LSModel, start: LSPathEntry, path: LSPath, n: nat, best: real, better: real)
    requires m.grid.Valid() && |path| > 0 && n < 3 && best <= better
    requires ExtensionsCovered(m, start, path, n, best)
    requires m.LegalMove(Last(path), n) ==> Covered(m, start, Extend(path, n), better)
    ensures ExtensionsCovered(m, start, path, n + 1, better)
  {
    hide Covered, LSModel.LegalMove;
    forall d: nat | d < n && m.LegalMove(Last(path), d)
      ensures Covered(m, start, Extend(path, d), better)
    {
      CoveredMono(m, start, Extend(path, d), best, better);
    }
  }

  lemma MapMono(m: LSModel, start: LSPathEntry, table: seq<seq<LSValueEntry>>, origins: seq<seq<LSPath>>,
                best: real, better: real, current: LSPath)
    requires m.grid.Valid() && MapOk(m, start, table, origins, best, current) && best <= better
    ensures MapOk(m, start, table, origins, better, current)
  {
    hide Legal, Tracks, MapIndex, Covered;
    forall k, j | 0 <= k < |table| && 0 <= j < |table[k]|
      ensures EntryOk(m, start, k, origins[k][j], table[k][j], better, current)
    {
      assert EntryOk(m, start, k, origins[k][j], table[k][j], best, current);
      if Covered(m, start, origins[k][j], best) {
        CoveredMono(m, start, origins[k][j], best, better);
      }
    }
  }

  /** Storing the entry of the path now being extended. */
  lemma MapStore(m: LSModel, start: LSPathEntry, table: seq<seq<LSValueEntry>>, origins: seq<seq<LSPath>>,
                 best: real, path: LSPath, v: LSValueEntry, k: nat)
    requires m.grid.Valid() && Legal(m, start, path) && Tracks(m, path, v)
    requires MapOk(m, start, table, origins, best, Front(path))
    requires m.grid.InBounds(Last(path).pos) && Last(path).lastMoveDirection < 3 && MapIndex(m, Last(path)) == k
    ensures MapOk(m, start, table[k := table[k] + [v]], origins[k := origins[k] + [path]], best, path)
  {
    hide Legal, Tracks, MapIndex, Covered;
    var table', origins' := table[k := table[k] + [v]], origins[k := origins[k] + [path]];
    forall i, j | 0 <= i < |table'| && 0 <= j < |table'[i]|
      ensures EntryOk(m, start, i, origins'[i][j], table'[i][j], best, path)
    {
      if i != k || j < |table[k]| {
        assert EntryOk(m, start, i, origins[i][j], table[i][j], best, Front(path));
      }
    }
  }

  /** Once the current path is covered, the search can step back from it. */
  lemma MapClose(m: LSModel, start: LSPathEntry, table: seq<seq<LSValueEntry>>, origins: seq<seq<LSPath>>,
                 best: real, path: LSPath)
    requires m.grid.Valid() && |path| > 0
    requires MapOk(m, start, table, origins, best, path) && Covered(m, start, path, best)
    ensures MapOk(m, start, table, origins, best, Front(path))
  {
    hide Legal, Tracks, MapIndex, Covered;
    forall k, j | 0 <= k < |table| && 0 <= j < |table[k]|
      ensures EntryOk(m, start, k, origins[k][j], table[k][j], best, Front(path))
    {
      assert EntryOk(m, start, k, origins[k][j], table[k][j], best, path);
      if !Covered(m, start, origins[k][j], best) {
        assert origins[k][j] != path;
        assert origins[k][j] <= Front(path);
      }
    }
  }

  lemma NeverBack(m: LSModel, start: LSPathEntry, path: LSPath, earlier: LSPath)
    requires m.grid.Valid() && Legal(m, start, path) && 0 < |earlier| && earlier <= Front(path)
    ensures Last(earlier) != Last(path)
  {
    RoomFalls(m, start, path, |earlier|);
    assert path[|earlier| - 1] == Last(earlier);
  }

  /** Nothing is lost by pruning a dominated path. */
  lemma DominatedIsCovered(m: LSModel, start: LSPathEntry, path: LSPath, w: LSValueEntry,
                           origin: LSPath, v: LSValueEntry, k: nat, best: real)
    requires m.Valid() && Legal(m, start, path) && Tracks(m, path, w)
    requires m.grid.InBounds(Last(path).pos) && Last(path).lastMoveDirection < 3 && MapIndex(m, Last(path)) == k
    requires EntryOk(m, start, k, origin, v, best, Front(path)) && Dominates(v, w)
    ensures Covered(m, start, path, best)
  {
    assert m.grid.Valid();
    MapIndexInjective(m, Last(origin), Last(path));
    hide *;
    EntryOfOther(m, start, path, k, origin, v, best);
    OutdoneIsCovered(m, start, origin, path, best) by {
      SameEntry(m, start, origin, v, path, w);
    }
  }

  lemma SameEntry(m: LSModel, start: LSPathEntry, p: LSPath, v: LSValueEntry, q: LSPath, w: LSValueEntry)
    requires m.grid.Valid() && Legal(m, start, p) && Legal(m, start, q) && Last(p) == Last(q)
    requires Tracks(m, p, v) && Tracks(m, q, w) && Dominates(v, w)
    ensures Outdoes(m, start, p, q)
  {
  }

  /** A stored path with the same last entry is not a prefix of the current one, so it has been covered. */
  lemma EntryOfOther(m: LSModel, start: LSPathEntry, path: LSPath, k: nat, origin: LSPath, v: LSValueEntry, best: real)
    requires m.grid.Valid() && Legal(m, start, path)
    requires EntryOk(m, start, k, origin, v, best, Front(path))
    requires Last(origin) == Last(path)
    ensures Covered(m, start, origin, best) && Legal(m, start, origin) && Tracks(m, origin, v)
  {
    hide Legal, Tracks, MapIndex, Covered, LSModel.AtExit, LSGrid.Index;
    if origin <= Front(path) {
      NeverBack(m, start, path, origin);
      assert false;
    }
  }

  lemma OutdoneIsCovered(m: LSModel, start: LSPathEntry, p: LSPath, q: LSPath, best: real)
    requires m.grid.Valid() && Outdoes(m, start, p, q) && Covered(m, start, p, best)
    ensures Covered(m, start, q, best)
  {
    hide Legal, Tracks, Dominates, Reported, LSModel.AtExit;
    forall path: LSPath | Complete(m, start, path) && q <= path
      ensures 0.0 <= best && Matched(m, start, path, best)
    {
      var ext := path[|q|..];
      assert path == q + ext;
      Splice(m, start, p, q, ext);
      assert p <= p + ext && Complete(m, start, p + ext);
    }
  }

  lemma LegalStep(m: LSModel, start: LSPathEntry, path: LSPath, dir: nat)
    requires m.grid.Valid() && Legal(m, start, path) && !m.AtExit(Last(path).pos)
    requires dir < 3 && m.LegalMove(Last(path), dir)
    ensures Legal(m, start, Extend(path, dir)) && path <= Extend(path, dir)
    ensures Room(m.grid, Last(Extend(path, dir)).pos) < Room(m.grid, Last(path).pos)
  {
    LegalOpen(m, start, path);
    MovesUseRoom(m.grid, Last(path).pos, dir);
    assert Extend(path, dir)[..|path|] == path;
  }

  /** The move with which a complete path continues a path that is not at an exit. */
  lemma NextMove(m: LSModel, start: LSPathEntry, path: LSPath, q: LSPath) returns (dir: nat)
    requires m.grid.Valid() && Complete(m, start, q) && |path| > 0 && path <= q && !m.AtExit(Last(path).pos)
    ensures dir < 3 && m.LegalMove(Last(path), dir) && Extend(path, dir) <= q
  {
    hide LSModel.AtExit, LSModel.LegalMove, Legal;
    assert |q| == |path| ==> q == path;
    LegalPrefix(m, start, q, |path|);
    assert q[|path| - 1] == Last(path);
    dir := q[|path|].lastMoveDirection;
  }

  /** The longer path is ready to be searched when the shorter one has been. */
  lemma OneStepFurther(m: LSModel, start: LSPathEntry, path: LSPath, dir: nat, v: LSValueEntry)
    requires m.grid.Valid() && Legal(m, start, path) && !m.AtExit(Last(path).pos) && Tracks(m, path, v)
    requires dir < 3 && m.LegalMove(Last(path), dir)
    ensures var longer := Extend(path, dir);
      && Front(longer) == path && path <= longer && Last(longer) == Next(Last(path), dir)
      && Legal(m, start, longer) && Before(m, longer, v)
      && Room(m.grid, Last(longer).pos) < Room(m.grid, Last(path).pos)
  {
    hide Tracks, LSModel.AtExit;
    LegalStep(m, start, path, dir);
  }

  /** A path that is not at an exit is covered when all its one-step extensions are. */
  lemma CoveredByExtensions(m: LSModel, start: LSPathEntry, path: LSPath, best: real)
    requires m.grid.Valid() && Legal(m, start, path) && !m.AtExit(Last(path).pos)
    requires ExtensionsCovered(m, start, path, 3, best)
    ensures Covered(m, start, path, best)
  {
    hide Legal, Matched, LSModel.AtExit, LSModel.LegalMove;
    forall q: LSPath | Complete(m, start, q) && path <= q
      ensures 0.0 <= best && Matched(m, start, q, best)
    {
      var dir := NextMove(m, start, path, q);
    }
  }

  /** A complete path has no complete extension but itself. */
  lemma EndsHere(m: LSModel, start: LSPathEntry, path: LSPath)
    requires m.grid.Valid() && Complete(m, start, path)
    ensures forall q: LSPath | Complete(m, start, q) && path <= q :: q == path
  {
    hide LSModel.AtExit, Legal;
    forall q: LSPath | Complete(m, start, q) && path <= q
      ensures q == path
    {
      LegalPrefix(m, start, q, |path|);
      assert q[|path| - 1] == Last(path);
    }
  }

  /** A complete path is covered by the value reported for it. */
  lemma CoveredAtExit(m: LSModel, start: LSPathEntry, path: LSPath, best: real)
    requires m.Valid() && Complete(m, start, path) && Reported(m, path) <= best
    ensures Covered(m, start, path, best)
  {
    ReportedBounds(m, path);
    EndsHere(m, start, path);
  }

  class PathAndReactExec {
    const m: LSModel
    const start: LSPathEntry
    const regionReachable: seq<LSGrid>
    /** The path being extended; the search pushes and pops its entries. */
    var prefix: LSPath
    /** For every cell and move direction, the value entries of paths that came through there. */
    var bestValueMap: seq<seq<LSValueEntry>>
    ghost var origins: seq<seq<LSPath>>
    /** The best path value returned by any call so far. */
    ghost var best: real

    constructor (m: LSModel, startPos: LSPos)
      requires m.Valid()
      ensures this.m == m && start == LSPathEntry(LS_E, startPos) && ModelOk()
    {
      var maps: seq<LSGrid> := [];
      for r := 0 to |m.regionPriors|
        invariant |maps| == r
        invariant forall i | 0 <= i < r :: IsReachableMap(m.grid, i, maps[i])
      {
        var map0 := CalculateRegionReachable(m.grid, r);
        maps := maps + [map0];
      }
      this.m := m;
      start := LSPathEntry(LS_E, startPos);
      regionReachable := maps;
      prefix, bestValueMap, origins, best := [], [], [], 0.0;
    }

    ghost predicate ModelOk() {
      && m.Valid()
      && |regionReachable| == |m.regionPriors|
      && forall r | 0 <= r < |regionReachable| :: IsReachableMap(m.grid, r, regionReachable[r])
    }

    ghost predicate SearchOk(current: LSPath)
      requires m.grid.Valid()
      reads this`bestValueMap, this`origins, this`best
    {
      MapOk(m, start, bestValueMap, origins, best, current)
    }

    method GetAtExit(pos: LSPos) returns (atExit: bool)
      requires ModelOk() && m.grid.InBounds(pos)
      ensures atExit <==> m.AtExit(pos)
    {
      var x := pos.x + 1;
      while x < m.grid.width
        invariant pos.x < x <= m.grid.width
        invariant forall x' | pos.x < x' < x :: !m.grid.Open(LSPos(x', pos.y))
      {
        if m.grid.GetCell(LSPos(x, pos.y)) != LS_OBSTACLE {
          assert m.grid.Open(LSPos(x, pos.y));
          return false;
        }
        x := x + 1;
      }
      return true;
    }

    method DominatesEntry(val1: LSValueEntry, val2: LSValueEntry) returns (dominates: bool)
      requires |val1.regionCounts| == |val2.regionCounts|
      ensures dominates <==> Dominates(val1, val2)
    {
      if val1.unreachableRegionValue < val2.unreachableRegionValue {
        return false;
      }
      for i := 0 to |val1.regionCounts|
        invariant forall j | 0 <= j < i :: val1.regionCounts[j] >= val2.regionCounts[j]
      {
        if val1.regionCounts[i] < val2.regionCounts[i] {
          return false;
        }
      }
      return true;
    }

    /** Counts the cells in front of `entry`. */
    method CountForward(entry: LSPathEntry, v: LSValueEntry) returns (w: LSValueEntry)
      requires ModelOk() && |v.regionCounts| == |m.regionPriors|
      ensures Counted(m, entry, v, w) && |w.regionCounts| == |m.regionPriors|
    {
      w := v;
      for dir := 0 to 3
        invariant |w.regionCounts| == |v.regionCounts|
        invariant w.unreachableRegionValue == v.unreachableRegionValue
        invariant forall r | 0 <= r < |v.regionCounts| ::
          w.regionCounts[r] == v.regionCounts[r]
            + (if dir > 0 then AddsTo(m, entry, r, 0) else 0)
            + (if dir > 1 then AddsTo(m, entry, r, 1) else 0)
            + (if dir > 2 then AddsTo(m, entry, r, 2) else 0)
      {
        if m.LegalMove(entry, dir) {
          var r := m.grid.GetCell(GetNeighbor(entry.pos, dir));
          w := w.(regionCounts := w.regionCounts[r := w.regionCounts[r] + 1]);
        }
      }
    }

    /** Folds the counts of the regions that are out of reach into the settled value. */
    method FoldUnreachable(entry: LSPathEntry, atExit: bool, v: LSValueEntry) returns (w: LSValueEntry)
      requires ModelOk() && m.grid.Open(entry.pos) && |v.regionCounts| == |m.regionPriors|
      requires atExit <==> m.AtExit(entry.pos)
      ensures Folded(m, entry, v, w)
    {
      hide SampleProb, LSGrid.Index, Reaches, LSModel.AtExit;
      w := v;
      for r := 0 to |m.regionPriors|
        invariant |w.regionCounts| == |v.regionCounts|
        invariant w.unreachableRegionValue == v.unreachableRegionValue + FoldGain(m, entry, v, r)
        invariant forall i | 0 <= i < r ::
          w.regionCounts[i] == if Live(m, entry, i) then v.regionCounts[i] else LS_UNREACHABLE
        invariant forall i | r <= i < |v.regionCounts| :: w.regionCounts[i] == v.regionCounts[i]
      {
        assert IsReachableMap(m.grid, r, regionReachable[r]);
        if w.regionCounts[r] != LS_UNREACHABLE {
          if atExit || regionReachable[r].GetCell(entry.pos) == 0 {
            assert !Live(m, entry, r);
            var probLifeIsSampledInRegion := SampleProb(m.regionPriors[r], w.regionCounts[r]);
            w := LSValueEntry(w.unreachableRegionValue + probLifeIsSampledInRegion,
                              w.regionCounts[r := LS_UNREACHABLE]);
          } else {
            assert Live(m, entry, r);
          }
        }
      }
    }

    /** Prunes the current path if some path through the same cell is at least as good so far, and otherwise
        remembers it. */
    method GetValueIsDominated(pe: LSPathEntry, val: LSValueEntry) returns (dominated: bool)
      requires ModelOk() && Legal(m, start, prefix) && pe == Last(prefix) && Tracks(m, prefix, val)
      requires SearchOk(Front(prefix))
      modifies this`bestValueMap, this`origins
      ensures dominated ==> Covered(m, start, prefix, best) && SearchOk(Front(prefix))
      ensures !dominated ==> SearchOk(prefix)
      ensures m.grid.InBounds(pe.pos) && pe.lastMoveDirection < 3
      ensures LookedUp(old(bestValueMap), MapIndex(m, pe), val, dominated, bestValueMap)
    {
      LegalOpen(m, start, prefix);
      var k := MapIndex(m, pe);
      ghost var earlier := Front(prefix);
      hide Legal, Covered, NineFree, MapIndex, Dominates, Tracks, ModelOk, LSModel.Valid;
      var vec := bestValueMap[k];
      SameLengths(k, val, earlier);
      var j := FindDominator(vec, val);
      if j < |vec| {
        assert EntryOk(m, start, k, origins[k][j], vec[j], best, earlier);
        DominatedIsCovered(m, start, prefix, val, origins[k][j], vec[j], k, best);
        return true;
      }
      MapStore(m, start, bestValueMap, origins, best, prefix, val, k);
      bestValueMap := bestValueMap[k := vec + [val]];
      origins := origins[k := origins[k] + [prefix]];
      return false;
    }

    lemma SameLengths(k: nat, val: LSValueEntry, earlier: LSPath)
      requires m.grid.Valid() && SearchOk(earlier) && k < |bestValueMap| && |val.regionCounts| == |m.regionPriors|
      ensures forall j | 0 <= j < |bestValueMap[k]| :: |bestValueMap[k][j].regionCounts| == |val.regionCounts|
    {
      forall j | 0 <= j < |bestValueMap[k]|
        ensures |bestValueMap[k][j].regionCounts| == |val.regionCounts|
      {
        assert EntryOk(m, start, k, origins[k][j], bestValueMap[k][j], best, earlier);
      }
    }

    /** The first entry that dominates `val`, or the number of entries. */
    method FindDominator(vec: seq<LSValueEntry>, val: LSValueEntry) returns (j: nat)
      requires forall i | 0 <= i < |vec| :: |vec[i].regionCounts| == |val.regionCounts|
      ensures j <= |vec| && (j < |vec| ==> Dominates(vec[j], val))
      ensures forall i | 0 <= i < j :: !Dominates(vec[i], val)
    {
      hide Dominates;
      j := 0;
      while j < |vec|
        invariant j <= |vec| && forall i | 0 <= i < j :: !Dominates(vec[i], val)
      {
        var dominates := DominatesEntry(vec[j], val);
        if dominates {
          return;
        }
        j := j + 1;
      }
    }

    /** What a call has found: nothing, or a complete path through the prefix together with its value. */
    ghost predicate Found(through: LSPath, path: LSPath, value: real)
      requires m.grid.Valid()
    {
      || (value == -999.0 && path == [])
      || (Complete(m, start, path) && through <= path && value == Reported(m, path))
    }

    /** The best complete path that starts with the current prefix, unless a path as good was found before. */
    method GetBestExtension(valueSoFar: LSValueEntry) returns (bestPath: LSPath, bestPathValue: real)
      requires ModelOk() && Legal(m, start, prefix) && Before(m, prefix, valueSoFar)
      requires SearchOk(Front(prefix)) && best >= -999.0
      modifies this
      ensures prefix == old(prefix) && SearchOk(Front(prefix))
      ensures Found(prefix, bestPath, bestPathValue)
      ensures best == if bestPathValue > old(best) then bestPathValue else old(best)
      ensures Covered(m, start, prefix, best)
      decreases Room(m.grid, Last(prefix).pos), 2
    {
      ghost var path := prefix;
      var entry := Last(prefix);
      LegalOpen(m, start, path);
      BeforeSize(m, path, valueSoFar);
      assert m.Valid() && m.grid.Valid();
      hide ModelOk, LSModel.Valid, Front, Legal, Before, Covered, NineFree, MapOk, Tracks, Counted, Folded;
      hide LSModel.AtExit, Room, PathValue, Reported, LSGrid.GetCellBounded, LSGrid.Valid;
      bestPath, bestPathValue := [], -999.0;

      var counted := CountForward(entry, valueSoFar);
      var atExit := GetAtExit(entry.pos);
      var nextValueSoFar := FoldUnreachable(entry, atExit, counted);
      StepTracks(m, start, path, valueSoFar, counted, nextValueSoFar);

      var dominated := GetValueIsDominated(entry, nextValueSoFar);
      if dominated {
        return;
      }

      if atExit {
        bestPath, bestPathValue := prefix, nextValueSoFar.unreachableRegionValue;
        ReportedValue(m, start, path, nextValueSoFar);
        ghost var better := if bestPathValue > best then bestPathValue else best;
        MapMono(m, start, bestValueMap, origins, best, better, path);
        best := better;
        CoveredAtExit(m, start, path, best);
      } else {
        ghost var tried;
        bestPath, bestPathValue, tried := TryExtensions(nextValueSoFar);
      }
      MapClose(m, start, bestValueMap, origins, best, path);
    }

    lemma PlannedIsFound(path: LSPath, value: real)
      requires m.grid.Valid() && Found([start], path, value) && 0.0 <= value
      ensures Complete(m, start, path) && value == Reported(m, path)
    {
    }

    lemma ModelIs()
      requires ModelOk()
      ensures m.Valid() && m.grid.Valid()
    {
    }

    lemma NothingFound(through: LSPath)
      requires m.grid.Valid()
      ensures Found(through, [], -999.0)
    {
    }

    /** What direction `dir` led to is nothing, if that is no legal move, or what a call for the longer prefix found. */
    ghost predicate IsTried(path: LSPath, dir: nat, t: Tried)
      requires m.grid.Valid() && |path| > 0 && dir < 3
    {
      if m.LegalMove(Last(path), dir) then t.Tried? && Found(Extend(path, dir), t.path, t.value) else t.NotLegal?
    }

    ghost predicate AllTried(path: LSPath, tried: seq<Tried>, n: nat)
      requires m.grid.Valid() && |path| > 0
    {
      |tried| == n <= 3 && forall d: nat | d < n :: IsTried(path, d, tried[d])
    }

    lemma OneMoreTried(path: LSPath, tried: seq<Tried>, dir: nat, t: Tried, bestPath: LSPath, value: real,
                       bestPath': LSPath, value': real)
      requires m.grid.Valid() && |path| > 0 && dir < 3 && AllTried(path, tried, dir)
      requires if m.LegalMove(Last(path), dir) then t.Tried? && Found(Extend(path, dir), t.path, t.value)
               else t.NotLegal?
      requires FirstBest(tried, dir, bestPath, value) && value >= -999.0
      requires (bestPath', value') == if t.Tried? && t.value > value then (t.path, t.value) else (bestPath, value)
      ensures AllTried(path, tried + [t], dir + 1) && FirstBest(tried + [t], dir + 1, bestPath', value')
      ensures value' >= -999.0
    {
      FirstBestStep(tried, dir, bestPath, value, t);
      hide Found, LSModel.LegalMove, FirstBest;
    }

    lemma NothingTried(path: LSPath)
      requires m.grid.Valid() && |path| > 0
      ensures FirstBest([], 0, [], -999.0) && AllTried(path, [], 0)
    {
    }

    lemma FoundShorter(shorter: LSPath, longer: LSPath, path: LSPath, value: real)
      requires m.grid.Valid() && Found(longer, path, value) && shorter <= longer
      ensures Found(shorter, path, value)
    {
    }

    /** Pushes one more entry onto the prefix, searches on, and pops it again. */
    method TryExtension(dir: nat, nextValueSoFar: LSValueEntry) returns (extension: LSPath, extVal: real)
      requires ModelOk() && Legal(m, start, prefix) && !m.AtExit(Last(prefix).pos)
      requires Tracks(m, prefix, nextValueSoFar) && dir < 3 && m.LegalMove(Last(prefix), dir)
      requires SearchOk(prefix) && best >= -999.0
      modifies this
      ensures prefix == old(prefix) && SearchOk(prefix)
      ensures Found(prefix, extension, extVal) && Found(Extend(prefix, dir), extension, extVal)
      ensures best == if extVal > old(best) then extVal else old(best)
      ensures Covered(m, start, Extend(prefix, dir), best)
      decreases Room(m.grid, Last(prefix).pos), 0
    {
      hide *;
      ghost var path := prefix;
      ghost var longer := Extend(path, dir);
      ModelIs();
      OneStepFurther(m, start, path, dir, nextValueSoFar);
      prefix := Extend(prefix, dir);
      extension, extVal := GetBestExtension(nextValueSoFar);
      FoundShorter(path, longer, extension, extVal);
      prefix := Front(prefix);
    }

    /** Extends the current prefix, which is not at an exit, in each legal direction and keeps the first of the best
        outcomes. */
    method TryExtensions(nextValueSoFar: LSValueEntry)
      returns (bestPath: LSPath, bestPathValue: real, ghost tried: seq<Tried>)
      requires ModelOk() && Legal(m, start, prefix) && !m.AtExit(Last(prefix).pos)
      requires Tracks(m, prefix, nextValueSoFar)
      requires SearchOk(prefix) && best >= -999.0
      modifies this
      ensures prefix == old(prefix) && SearchOk(prefix)
      ensures Found(prefix, bestPath, bestPathValue)
      ensures AllTried(prefix, tried, 3)
      ensures FirstBest(tried, 3, bestPath, bestPathValue)
      ensures best == if bestPathValue > old(best) then bestPathValue else old(best)
      ensures Covered(m, start, prefix, best)
      decreases Room(m.grid, Last(prefix).pos), 1
    {
      ghost var path := prefix;
      var entry := Last(prefix);
      hide *;
      ModelIs();
      NoneCovered(m, start, path, best);
      NothingFound(path);
      bestPath, bestPathValue, tried := [], -999.0, [];
      NothingTried(path);
      for dir := 0 to 3
        invariant prefix == path && SearchOk(path)
        invariant Found(path, bestPath, bestPathValue)
        invariant AllTried(path, tried, dir) && bestPathValue >= -999.0
        invariant FirstBest(tried, dir, bestPath, bestPathValue)
        invariant best == if bestPathValue > old(best) then bestPathValue else old(best)
        invariant ExtensionsCovered(m, start, path, dir, best)
      {
        ghost var before := best;
        ghost var t, pathBefore, valueBefore := NotLegal, bestPath, bestPathValue;
        if m.LegalMove(entry, dir) {
          var extension, extVal := TryExtension(dir, nextValueSoFar);
          t := Tried(extension, extVal);
          if extVal > bestPathValue {
            bestPath, bestPathValue := extension, extVal;
          }
        }
        OneMoreTried(path, tried, dir, t, pathBefore, valueBefore, bestPath, bestPathValue);
        tried := tried + [t];
        OneMoreCovered(m, start, path, dir, before, best);
      }
      CoveredByExtensions(m, start, path, best);
    }

    /** If there is a complete path, a complete path is planned together with the value reported for it, which is
        its true value exactly if it has no region of interest with LS_UNREACHABLE looks. No path is worth more,
        unless some path worth as much has such a region. If all paths of greatest value are alike in this, then
        a best path is found together with its value exactly if they have no such region. */
    method GeneratePath() returns (plannedPath: LSPath, plannedPathValue: real)
      requires ModelOk() && m.grid.Open(start.pos) && start.lastMoveDirection < 3
      modifies this
      ensures Solvable(m, start) ==>
        Complete(m, start, plannedPath) && 0.0 <= plannedPathValue == Reported(m, plannedPath)
      ensures Solvable(m, start) ==> (plannedPathValue == Value(m, plannedPath) <==> NineFree(m, plannedPath))
      ensures forall q | Complete(m, start, q) :: Matched(m, start, q, plannedPathValue)
      ensures forall q | Complete(m, start, q) && ClearAbove(m, start, Value(m, q)) :: Value(m, q) <= plannedPathValue
      ensures Solvable(m, start) && BestAreClear(m, start) ==>
        IsBest(m, start, plannedPath) && plannedPathValue == Value(m, plannedPath)
      ensures Solvable(m, start) && BestAreAlike(m, start) ==>
        (IsBest(m, start, plannedPath) && plannedPathValue == Value(m, plannedPath) <==> BestAreClear(m, start))
    {
      prefix := [start];
      bestValueMap := seq(3 * |m.grid.data|, _ => []);
      origins, best := seq(3 * |m.grid.data|, _ => []), -999.0;
      var initialValue := LSValueEntry(0.0, seq(|m.regionPriors|, _ => 0));
      plannedPath, plannedPathValue := GetBestExtension(initialValue);
      hide *;
      FromStart(m, start, plannedPathValue);
      ClearIsMatched(m, start, plannedPathValue);
      if Solvable(m, start) {
        PlannedIsFound(plannedPath, plannedPathValue);
        ReportedBounds(m, plannedPath);
        PlannedIsBest(m, start, plannedPath, plannedPathValue);
      }
    }
  }

  /** There is a complete path. */
  ghost predicate Solvable(m: LSModel, start: LSPathEntry)
    requires m.grid.Valid()
  {
    exists q :: Complete(m, start, q)
  }

  /** A complete path of greatest value. */
  ghost predicate IsBest(m: LSModel, start: LSPathEntry, path: LSPath)
    requires m.grid.Valid()
  {
    Complete(m, start, path) && forall q | Complete(m, start, q) :: Value(m, q) <= Value(m, path)
  }

  ghost predicate BestAreClear(m: LSModel, start: LSPathEntry)
    requires m.grid.Valid()
  {
    forall q | IsBest(m, start, q) :: NineFree(m, q)
  }

  /** Either all paths of greatest value are reported in full or none is. */
  ghost predicate BestAreAlike(m: LSModel, start: LSPathEntry)
    requires m.grid.Valid()
  {
    forall p, q | IsBest(m, start, p) && IsBest(m, start, q) :: NineFree(m, p) <==> NineFree(m, q)
  }

  lemma BeforeSize(m: LSModel, path: LSPath, v: LSValueEntry)
    requires m.grid.Valid() && |path| > 0 && Before(m, path, v)
    ensures |v.regionCounts| == |m.regionPriors|
  {
  }

  lemma StartsAtStart(m: LSModel, start: LSPathEntry, path: LSPath)
    requires m.grid.Valid() && Legal(m, start, path)
    ensures [start] <= path
  {
    LegalPrefix(m, start, path, 1);
  }

  lemma FromStart(m: LSModel, start: LSPathEntry, best: real)
    requires m.grid.Valid() && Covered(m, start, [start], best)
    ensures forall q | Complete(m, start, q) :: 0.0 <= best && Matched(m, start, q, best)
  {
    hide Legal, LSModel.AtExit, Matched;
    forall q | Complete(m, start, q)
      ensures 0.0 <= best && Matched(m, start, q, best)
    {
      StartsAtStart(m, start, q);
    }
  }

  lemma ClearIsMatched(m: LSModel, start: LSPathEntry, best: real)
    requires m.Valid() && forall q | Complete(m, start, q) :: Matched(m, start, q, best)
    ensures forall q | Complete(m, start, q) && ClearAbove(m, start, Value(m, q)) :: Value(m, q) <= best
  {
    assert m.grid.Valid();
    hide Legal, LSModel.AtExit, LSModel.Valid, Value, Complete, ClearAbove, Family, LSGrid.Valid;
    forall q | Complete(m, start, q) && ClearAbove(m, start, Value(m, q))
      ensures Value(m, q) <= best
    {
      ClearFamily(m, start, Value(m, q));
      assert Matched(m, start, q, best);
    }
  }

  /** `best` was found, and is worth at least as much as any complete path that starts with `path`. */
  ghost predicate Beats(m: LSModel, start: LSPathEntry, best: LSPath, found: bool, path: LSPath)
    requires m.grid.Valid()
  {
    forall q | Complete(m, start, q) && path <= q :: found && Value(m, q) <= Value(m, best)
  }

  lemma BeatsMono(m: LSModel, start: LSPathEntry, best: LSPath, found: bool, better: LSPath, found': bool, path: LSPath)
    requires m.grid.Valid() && Beats(m, start, best, found, path)
    requires found ==> found' && Value(m, best) <= Value(m, better)
    ensures Beats(m, start, better, found', path)
  {
  }

  /** Among the complete paths that start with `path`, if any, one is worth the most. */
  lemma {:induction false} BestExtension(m: LSModel, start: LSPathEntry, path: LSPath)
    returns (best: LSPath, found: bool)
    requires m.grid.Valid() && Legal(m, start, path)
    ensures Beats(m, start, best, found, path) && (found ==> Complete(m, start, best))
    decreases Room(m.grid, Last(path).pos)
  {
    best, found := path, false;
    var e := Last(path);
    hide Value, LSModel.AtExit, LSModel.LegalMove, Legal, Room, LSGrid.Open, Extend, LSGrid.Valid, Last;
    if m.AtExit(e.pos) {
      EndsHere(m, start, path);
      assert Beats(m, start, path, true, path);
      return path, true;
    }
    hide Beats;
    for dir := 0 to 3
      invariant found ==> Complete(m, start, best)
      invariant forall d: nat | d < dir && m.LegalMove(e, d) :: Beats(m, start, best, found, Extend(path, d))
    {
      if m.LegalMove(e, dir) {
        LegalStep(m, start, path, dir);
        var other, some := BestExtension(m, start, Extend(path, dir));
        var better := if some && (!found || Value(m, best) < Value(m, other)) then other else best;
        forall d: nat | d < dir && m.LegalMove(e, d)
          ensures Beats(m, start, better, found || some, Extend(path, d))
        {
          BeatsMono(m, start, best, found, better, found || some, Extend(path, d));
        }
        BeatsMono(m, start, other, some, better, found || some, Extend(path, dir));
        best, found := better, found || some;
      }
    }
    BeatsAll(m, start, best, found, path);
  }

  lemma BeatsAll(m: LSModel, start: LSPathEntry, best: LSPath, found: bool, path: LSPath)
    requires m.grid.Valid() && |path| > 0 && !m.AtExit(Last(path).pos)
    requires forall d: nat | d < 3 && m.LegalMove(Last(path), d) :: Beats(m, start, best, found, Extend(path, d))
    ensures Beats(m, start, best, found, path)
  {
    hide LSModel.AtExit, LSModel.LegalMove, Legal, Value;
    forall q: LSPath | Complete(m, start, q) && path <= q
      ensures found && Value(m, q) <= Value(m, best)
    {
      var dir := NextMove(m, start, path, q);
    }
  }

  lemma SomeBest(m: LSModel, start: LSPathEntry, path: LSPath) returns (best: LSPath)
    requires m.grid.Valid() && Complete(m, start, path)
    ensures IsBest(m, start, best)
  {
    var found;
    LegalPrefix(m, start, path, 1);
    assert path[..1] == [path[0]] == [start];
    best, found := BestExtension(m, start, [start]);
    hide LSModel.AtExit, Legal, Value;
    forall q | Complete(m, start, q)
      ensures found && Value(m, q) <= Value(m, best)
    {
      StartsAtStart(m, start, q);
    }
  }

  lemma PlannedIsBest(m: LSModel, start: LSPathEntry, path: LSPath, value: real)
    requires m.Valid() && Complete(m, start, path) && value == Reported(m, path)
    requires forall q | Complete(m, start, q) && ClearAbove(m, start, Value(m, q)) :: Value(m, q) <= value
    ensures BestAreClear(m, start) ==> IsBest(m, start, path) && value == Value(m, path)
    ensures BestAreAlike(m, start) ==>
      (IsBest(m, start, path) && value == Value(m, path) <==> BestAreClear(m, start))
  {
    ReportedBounds(m, path);
    var best := SomeBest(m, start, path);
    hide Legal, LSModel.AtExit, LSModel.Valid, Value, Complete, NineFree, Reported, LSGrid.Valid;
    if BestAreClear(m, start) {
      assert ClearAbove(m, start, Value(m, best)) by {
        forall p | Complete(m, start, p) && Value(m, best) <= Value(m, p)
          ensures NineFree(m, p)
        {
          assert IsBest(m, start, p);
        }
      }
    }
  }

  // ---------- A worse path is planned ----------

  // Two routes lead out of the first cell. The route to the east passes nine looks at region 0, where there surely
  // is life, and then one look at region 1, where life is found half the time. The other route ends after one step.

  function TwoRoutes(): (m: LSModel)
    ensures m.grid.Valid() && m.regionPriors == [1.0, 0.5, 0.0]
  {
    var cells := seq(22, i => if i < 10 then 0 else if i == 10 then 1 else if i == 12 then 2 else LS_OBSTACLE);
    LSModel(LSGrid(11, 2, cells), [1.0, 0.5, 0.0])
  }

  function East(x: nat): LSPathEntry {
    LSPathEntry(LS_E, LSPos(x, 0))
  }

  function EastPath(n: nat): (path: LSPath)
    ensures |path| == n && (n > 0 ==> Last(path) == East(n - 1))
  {
    if n == 0 then [] else EastPath(n - 1) + [East(n - 1)]
  }

  function ShortPath(): LSPath {
    [East(0), Next(East(0), LS_NE)]
  }

  ghost predicate CellIs(g: LSGrid, pos: LSPos)
    requires g.Valid()
  {
    && (g.Open(pos) <==> (0 <= pos.x < 11 && pos.y == 0) || pos == LSPos(1, 1))
    && (g.Open(pos) ==> g.GetCell(pos) == if pos.y == 1 then 2 else if pos.x == 10 then 1 else 0)
  }

  /** The map, described cell by cell. */
  ghost predicate HasTwoRoutes(m: LSModel) {
    && m.grid.Valid() && m.regionPriors == [1.0, 0.5, 0.0] && m.grid.width == 11
    && forall pos :: CellIs(m.grid, pos)
  }

  lemma TwoRoutesCells()
    ensures HasTwoRoutes(TwoRoutes()) && TwoRoutes().Valid()
  {
    forall pos
      ensures CellIs(TwoRoutes().grid, pos)
    {
    }
    hide TwoRoutes;
    forall pos | TwoRoutes().grid.Open(pos)
      ensures TwoRoutes().grid.GetCell(pos) < 3
    {
      assert CellIs(TwoRoutes().grid, pos);
    }
  }

  /** What the route to the east sees and where it can go from the cell in column `x`. */
  ghost predicate EastStep(m: LSModel, x: nat)
    requires m.grid.Valid()
  {
    && m.grid.Open(LSPos(x, 0))
    && Forward(m, East(x), 0) == (if x < 9 then 1 else 0)
    && Forward(m, East(x), 1) == (if x == 9 then 1 else 0)
    && Forward(m, East(x), 2) == (if x == 0 then 1 else 0)
    && (m.AtExit(LSPos(x, 0)) <==> x == 10)
    && (x < 10 ==> m.LegalMove(East(x), LS_E) && Next(East(x), LS_E) == East(x + 1))
    && (forall dir: nat | m.LegalMove(East(x), dir) :: dir == LS_E || (x == 0 && dir == LS_NE))
  }

  lemma EastSteps(m: LSModel, x: nat)
    requires HasTwoRoutes(m) && x < 11
    ensures EastStep(m, x)
  {
    hide LSGrid.Open, LSGrid.GetCell, LSGrid.Index;
    var g := m.grid;
    assert CellIs(g, LSPos(x, 0)) && CellIs(g, LSPos(x, -1));
    assert CellIs(g, LSPos(x + 1, 0)) && CellIs(g, LSPos(x + 1, 1));
    assert m.AtExit(LSPos(x, 0)) <==> x == 10 by {
      assert x < 10 ==> g.Open(LSPos(x + 1, 0));
    }
  }

  /** The end of the short route. */
  ghost predicate ShortEnd(m: LSModel)
    requires m.grid.Valid()
  {
    var e := Next(East(0), LS_NE);
    && m.LegalMove(East(0), LS_NE) && m.AtExit(e.pos)
    && Forward(m, e, 0) == 0 && Forward(m, e, 1) == 0 && Forward(m, e, 2) == 0
  }

  lemma ShortEnds(m: LSModel)
    requires HasTwoRoutes(m)
    ensures ShortEnd(m)
  {
    hide LSGrid.Open, LSGrid.GetCell, LSGrid.Index;
    var g := m.grid;
    assert CellIs(g, LSPos(1, 1)) && CellIs(g, LSPos(2, 2)) && CellIs(g, LSPos(2, 1)) && CellIs(g, LSPos(1, 0));
    forall x | 1 < x < 11
      ensures !g.Open(LSPos(x, 1))
    {
      assert CellIs(g, LSPos(x, 1));
    }
  }

  /** The map as the steps of its two routes. */
  ghost predicate Routes(m: LSModel) {
    && m.Valid() && m.regionPriors == [1.0, 0.5, 0.0]
    && ShortEnd(m) && forall x: nat | x < 11 :: EastStep(m, x)
  }

  lemma {:induction false} EastWalk(m: LSModel, n: nat)
    requires Routes(m) && 1 <= n <= 11
    ensures Legal(m, East(0), EastPath(n))
    ensures Count(m, EastPath(n), 0) == if n < 10 then n else 9
    ensures Count(m, EastPath(n), 1) == if n < 10 then 0 else 1
    ensures Count(m, EastPath(n), 2) == 1
  {
    var path := EastPath(n);
    assert path[..n - 1] == EastPath(n - 1);
    assert EastStep(m, n - 1);
    if n == 1 {
      assert path == [East(0)];
      assert path[..0] == [];
    } else {
      assert EastStep(m, n - 2);
      EastWalk(m, n - 1);
    }
    hide LSModel.AtExit, LSModel.LegalMove, Forward, LSGrid.Open;
  }

  lemma CountOne(m: LSModel, e: LSPathEntry, r: nat)
    requires m.grid.Valid()
    ensures Count(m, [e], r) == Forward(m, e, r)
  {
    hide Forward;
    assert [e][..|[e]| - 1] == [];
  }

  lemma ShortWalk(m: LSModel)
    requires Routes(m)
    ensures Complete(m, East(0), ShortPath())
    ensures Count(m, ShortPath(), 0) == Count(m, ShortPath(), 2) == 1 && Count(m, ShortPath(), 1) == 0
  {
    var path, front := ShortPath(), [East(0)];
    assert EastStep(m, 0);
    hide LSModel.AtExit, LSModel.LegalMove, Forward, LSGrid.Open;
    assert path[..|path| - 1] == front;
    assert Legal(m, East(0), front);
    CountOne(m, East(0), 0);
    CountOne(m, East(0), 1);
    CountOne(m, East(0), 2);
  }

  /** There are no other ways to go. */
  lemma {:induction false} OnlyTwoRoutes(m: LSModel, path: LSPath)
    requires Routes(m) && Legal(m, East(0), path)
    ensures path == ShortPath() || (|path| <= 11 && path == EastPath(|path|))
  {
    hide *;
    RoutesAre(m);
    LegalFront(m, East(0), path);
    if |path| == 1 {
      EastAlone();
    } else {
      OnlyTwoRoutes(m, Front(path));
      if Front(path) == ShortPath() {
        ShortWalk(m);
        assert false;
      }
      NextOnRoute(m, path, |path| - 1);
    }
  }

  lemma EastAlone()
    ensures EastPath(1) == [East(0)]
  {
  }

  lemma LegalFront(m: LSModel, start: LSPathEntry, path: LSPath)
    requires m.grid.Valid() && Legal(m, start, path)
    ensures |path| == 1 ==> path == [start]
    ensures |path| > 1 ==>
      Front(path) == path[..|path| - 1] && Legal(m, start, Front(path)) && !Complete(m, start, Front(path))
  {
  }

  lemma NextOnRoute(m: LSModel, path: LSPath, n: nat)
    requires Routes(m) && Legal(m, East(0), path) && 1 <= n <= 11 && |path| == n + 1
    requires path[..n] == EastPath(n)
    ensures path == ShortPath() || (n < 11 && path == EastPath(n + 1))
  {
    assert m.grid.Valid();
    assert path == EastPath(n) + [Last(path)];
    hide Forward, LSGrid.Open, LSModel.LegalMove, LSModel.Valid, LSModel.AtExit;
    assert EastStep(m, n - 1);
    EastAlone();
  }

  lemma RouteValue(m: LSModel, path: LSPath)
    requires m.grid.Valid() && m.regionPriors == [1.0, 0.5, 0.0]
    ensures Value(m, path) ==
      SampleProb(1.0, Count(m, path, 0)) + SampleProb(0.5, Count(m, path, 1)) + SampleProb(0.0, Count(m, path, 2))
  {
    hide Count, SampleProb;
    assert PathValue(m, path, 0) == 0.0;
    assert PathValue(m, path, 1) == SampleProb(1.0, Count(m, path, 0));
    assert PathValue(m, path, 2) == PathValue(m, path, 1) + SampleProb(0.5, Count(m, path, 1));
  }

  lemma OneLook(prior: real)
    ensures SampleProb(prior, 0) == 0.0 && SampleProb(prior, 1) == prior
  {
    assert Power(1.0 - prior, 1) == (1.0 - prior) * Power(1.0 - prior, 0);
    TimesOne(1.0 - prior, Power(1.0 - prior, 0));
  }

  lemma SureLooks(prior: real, n: nat)
    requires prior == 1.0 && n > 0
    ensures SampleProb(prior, n) == 1.0
  {
    ZeroTimes(1.0 - prior, Power(1.0 - prior, n - 1));
  }

  /** The route to the east is worth 1.5 but reported as 0.5, the short one is worth and reported as 1. */
  lemma RoutesReported(m: LSModel)
    requires Routes(m)
    ensures Value(m, EastPath(11)) == 1.5 && Reported(m, EastPath(11)) == 0.5
    ensures Value(m, ShortPath()) == 1.0 && Reported(m, ShortPath()) == 1.0
  {
    hide *;
    RoutesAre(m);
    EastWalk(m, 11);
    ShortWalk(m);
    OneLook(1.0);
    OneLook(0.5);
    OneLook(0.0);
    SureLooks(1.0, 9);
    RouteValue(m, EastPath(11));
    RouteValue(m, ShortPath());
    RouteLost(m, EastPath(11));
    RouteLost(m, ShortPath());
    ReportedIs(m, EastPath(11));
    ReportedIs(m, ShortPath());
  }

  lemma RoutesAre(m: LSModel)
    requires Routes(m)
    ensures m.grid.Valid() && m.regionPriors == [1.0, 0.5, 0.0] && |m.regionPriors| == 3
  {
  }

  lemma ReportedIs(m: LSModel, path: LSPath)
    requires m.grid.Valid()
    ensures Reported(m, path) == Value(m, path) - Lost(m, path, |m.regionPriors|)
  {
  }

  lemma RouteLost(m: LSModel, path: LSPath)
    requires m.grid.Valid() && m.regionPriors == [1.0, 0.5, 0.0]
    requires Count(m, path, 1) < 9 && Count(m, path, 2) < 9
    ensures Lost(m, path, 3) == if Count(m, path, 0) == 9 then SampleProb(1.0, 9) else 0.0
  {
    hide Count, SampleProb;
    assert Lost(m, path, 0) == 0.0;
    assert Lost(m, path, 2) == Lost(m, path, 1);
    assert Lost(m, path, 3) == Lost(m, path, 2);
  }

  /** No other path can replace the short one. */
  lemma ShortFamily(m: LSModel)
    requires Routes(m)
    ensures Family(m, East(0), iset{ShortPath()}, 1.0)
  {
    ShortWalk(m);
    RoutesReported(m);
    hide Count, LSModel.Valid, LSModel.AtExit, Tracks, Dominates, Reported, Legal, Complete;
    forall p, q, ext | Outdoes(m, East(0), p, q) && q + ext == ShortPath()
      ensures p == q
    {
      assert q == ShortPath()[..|q|];
      OnlyTwoRoutes(m, p);
      OnlyTwoRoutes(m, q);
    }
  }

  /** On this map the planner returns the short route, although the route to the east is worth half as much again. */
  method WorsePathIsPlanned() returns (plannedPath: LSPath, plannedPathValue: real)
    ensures TwoRoutes().Valid() && plannedPath == ShortPath() && plannedPathValue == 1.0
    ensures Complete(TwoRoutes(), East(0), EastPath(11))
    ensures Value(TwoRoutes(), EastPath(11)) == 1.5 > 1.0 == Value(TwoRoutes(), plannedPath)
  {
    TwoRoutesAre();
    hide *;
    var exec := new PathAndReactExec(TwoRoutes(), LSPos(0, 0));
    plannedPath, plannedPathValue := exec.GeneratePath();
    ShortIsPlanned(TwoRoutes(), plannedPath, plannedPathValue);
  }

  lemma TwoRoutesAre()
    ensures Routes(TwoRoutes()) && TwoRoutes().Valid() && TwoRoutes().grid.Open(LSPos(0, 0))
    ensures LSPathEntry(LS_E, LSPos(0, 0)) == East(0) && East(0).lastMoveDirection < 3
  {
    hide TwoRoutes, Routes, HasTwoRoutes, LSModel.Valid, LSGrid.Open, LSGrid.Valid;
    TwoRoutesCells();
    HaveRoutes(TwoRoutes());
  }

  lemma HaveRoutes(m: LSModel)
    requires HasTwoRoutes(m) && m.Valid()
    ensures Routes(m) && m.grid.Open(LSPos(0, 0))
  {
    hide EastStep, ShortEnd, LSGrid.Open, LSModel.Valid;
    forall x: nat | x < 11
      ensures EastStep(m, x)
    {
      EastSteps(m, x);
    }
    ShortEnds(m);
    assert CellIs(m.grid, LSPos(0, 0));
  }

  lemma ShortIsPlanned(m: LSModel, path: LSPath, value: real)
    requires Routes(m) && (Solvable(m, East(0)) ==> Complete(m, East(0), path) && value == Reported(m, path))
    requires forall q | Complete(m, East(0), q) :: Matched(m, East(0), q, value)
    ensures path == ShortPath() && value == 1.0
    ensures Complete(m, East(0), EastPath(11)) && Value(m, EastPath(11)) == 1.5 && Value(m, path) == 1.0
  {
    ShortWalk(m);
    EastWalk(m, 11);
    assert EastStep(m, 10);
    assert Complete(m, East(0), EastPath(11));
    hide Family, EastPath, ShortPath, Reported, Value, Legal, Forward, LSModel.AtExit, LSModel.LegalMove, LSModel.Valid;
    ShortFamily(m);
    RoutesReported(m);
    assert ShortPath() in iset{ShortPath()};
    assert Matched(m, East(0), ShortPath(), value);
    OnlyTwoRoutes(m, path);
    EastEnd(m, |path|);
  }

  lemma EastEnd(m: LSModel, n: nat)
    requires Routes(m) && 1 <= n <= 11
    ensures m.AtExit(Last(EastPath(n)).pos) <==> n == 11
  {
    assert EastStep(m, n - 1);
  }
}
