/** The racetrack: an exact line walk over a map of open and finish cells, and the MDP built on it. */
module RaceTrack {
  import opened Wrappers
  import opened RealArith
  import opened GridIndex
  import opened Geometry

  type Cell = (int, int)

  datatype TrackMap = TrackMap(width: nat, height: nat, open: seq<bool>, finish: seq<bool>,
                               startX: seq<int>, startY: seq<int>) {
    ghost predicate Valid() {
      && |open| == width * height == |finish|
      && |startX| == |startY| > 0
    }

    predicate InMap(c: Cell) {
      0 <= c.0 < width && 0 <= c.1 < height
    }

    function GetIsOpen(c: Cell): bool
      requires Valid() && InMap(c)
    {
      IndexInRange(width, height, c.0, c.1);
      open[width * c.1 + c.0]
    }

    function GetIsFinish(c: Cell): bool
      requires Valid() && InMap(c)
    {
      IndexInRange(width, height, c.0, c.1);
      finish[width * c.1 + c.0]
    }

    /** An open cell that is not a finish cell. */
    ghost predicate Clear(c: Cell)
      requires Valid()
    {
      InMap(c) && GetIsOpen(c) && !GetIsFinish(c)
    }

    ghost predicate Finish(c: Cell)
      requires Valid()
    {
      InMap(c) && GetIsFinish(c)
    }
  }

  ghost predicate Neighbors(c: Cell, d: Cell) {
    -1 <= c.0 - d.0 <= 1 && -1 <= c.1 - d.1 <= 1
  }

  /** A ring of closed or finish cells keeps the car inside: the cells in `ring` are on the map, contain the start
      cells, and whatever borders a clear one of them is one of them. */
  ghost predicate Enclosed(track: TrackMap, ring: set<Cell>)
    requires track.Valid()
  {
    && (forall c | c in ring :: track.InMap(c))
    && (forall c, d | c in ring && track.Clear(c) && Neighbors(c, d) :: d in ring)
    && (forall i | 0 <= i < |track.startX| ::
          (track.startX[i], track.startY[i]) in ring && track.Clear((track.startX[i], track.startY[i])))
  }

  /** A map whose start cells are clear and whose border, not counting the newline column, is closed or finish is
      enclosed. */
  lemma BorderedIsEnclosed(track: TrackMap)
    requires track.Valid() && track.width >= 1
    requires forall c: Cell | track.InMap(c) && c.0 < track.width - 1
      && (c.0 == 0 || c.0 == track.width - 2 || c.1 == 0 || c.1 == track.height - 1) :: !track.Clear(c)
    requires forall i | 0 <= i < |track.startX| ::
      track.startX[i] < track.width - 1 && track.Clear((track.startX[i], track.startY[i]))
    ensures Enclosed(track, set x, y | 0 <= x < track.width - 1 && 0 <= y < track.height :: (x, y))
  {
    hide TrackMap.Clear;
    ClearInMap(track);
  }

  lemma ClearInMap(track: TrackMap)
    requires track.Valid()
    ensures forall c: Cell | track.Clear(c) :: track.InMap(c)
  {
  }

  // ---------- The line walk ----------

  datatype Outcome = Normal | Finish | Crash

  ghost predicate OnLine(x0: int, y0: int, dx: int, dy: int, c: Cell) {
    Meets(dx, dy, c.0 - x0, c.1 - y0)
  }

  ghost predicate OnLineBefore(x0: int, y0: int, dx: int, dy: int, c: Cell, d: Cell) {
    Earlier(dx, dy, c.0 - x0, c.1 - y0, d.0 - x0, d.1 - y0)
  }

  /** The first cell on the segment that is not clear is `c`. */
  ghost predicate FirstHit(track: TrackMap, x0: int, y0: int, dx: int, dy: int, c: Cell)
    requires track.Valid()
  {
    && OnLine(x0, y0, dx, dy, c) && !track.Clear(c)
    && forall d | OnLine(x0, y0, dx, dy, d) && OnLineBefore(x0, y0, dx, dy, d, c) :: track.Clear(d)
  }

  /** What the segment between the centres of two cells runs into first. */
  ghost predicate LineSpec(track: TrackMap, x0: int, y0: int, dx: int, dy: int, r: Outcome)
    requires track.Valid()
  {
    match r
    case Normal => forall c | OnLine(x0, y0, dx, dy, c) :: track.Clear(c)
    case Finish => exists c :: FirstHit(track, x0, y0, dx, dy, c) && track.Finish(c)
    case Crash => exists c :: FirstHit(track, x0, y0, dx, dy, c) && !track.Finish(c)
  }

  /** The specification leaves no choice. */
  lemma LineSpecIsUnique(track: TrackMap, x0: int, y0: int, dx: int, dy: int, r: Outcome, s: Outcome)
    requires track.Valid() && LineSpec(track, x0, y0, dx, dy, r) && LineSpec(track, x0, y0, dx, dy, s)
    ensures r == s
  {
    if r != Normal && s != Normal {
      var c :| FirstHit(track, x0, y0, dx, dy, c) && (track.Finish(c) <==> r == Finish);
      var d :| FirstHit(track, x0, y0, dx, dy, d) && (track.Finish(d) <==> s == Finish);
      if c != d {
        MeetsAreOrdered(dx, dy, c.0 - x0, c.1 - y0, d.0 - x0, d.1 - y0);
      }
    }
  }

  /** The transform that turns the step (dx,dy) into 0 <= ady <= adx, and the matrix that undoes it. */
  datatype Octant = Octant(adx: int, ady: int, c11: int, c12: int, c21: int, c22: int) {
    ghost predicate For(dx: int, dy: int) {
      && 0 <= ady <= adx
      && ((c12 == 0 == c21 && c11 in {-1, 1} && c22 in {-1, 1} && dx == c11 * adx && dy == c22 * ady)
          || (c11 == 0 == c22 && c12 in {-1, 1} && c21 in {-1, 1} && dx == c12 * ady && dy == c21 * adx))
    }

    function ToMap(x0: int, y0: int, i: int, j: int): Cell {
      (x0 + c11 * i + c12 * j, y0 + c21 * i + c22 * j)
    }

    ghost function Column(x0: int, y0: int, c: Cell): int {
      c11 * (c.0 - x0) + c21 * (c.1 - y0)
    }

    ghost function Row(x0: int, y0: int, c: Cell): int {
      c12 * (c.0 - x0) + c22 * (c.1 - y0)
    }
  }

  /** Multiplying by an entry of the matrix. */
  lemma UnitInt(c: int, v: int)
    requires c in {-1, 0, 1}
    ensures c * v == if c == 0 then 0 else if c == 1 then v else -v
  {
  }

  lemma OctantInverse(o: Octant, dx: int, dy: int, x0: int, y0: int, c: Cell)
    requires o.For(dx, dy)
    ensures o.ToMap(x0, y0, o.Column(x0, y0, c), o.Row(x0, y0, c)) == c
  {
    var px, py, i, j := c.0 - x0, c.1 - y0, o.Column(x0, y0, c), o.Row(x0, y0, c);
    UnitInt(o.c11, px); UnitInt(o.c21, py); UnitInt(o.c12, px); UnitInt(o.c22, py);
    UnitInt(o.c11, i); UnitInt(o.c12, j); UnitInt(o.c21, i); UnitInt(o.c22, j);
  }

  lemma OctantForward(o: Octant, dx: int, dy: int, x0: int, y0: int, i: int, j: int)
    requires o.For(dx, dy)
    ensures var c := o.ToMap(x0, y0, i, j); o.Column(x0, y0, c) == i && o.Row(x0, y0, c) == j
  {
    var c := o.ToMap(x0, y0, i, j);
    var px, py := c.0 - x0, c.1 - y0;
    UnitInt(o.c11, i); UnitInt(o.c12, j); UnitInt(o.c21, i); UnitInt(o.c22, j);
    UnitInt(o.c11, px); UnitInt(o.c21, py); UnitInt(o.c12, px); UnitInt(o.c22, py);
  }

  /** The transform keeps what is met and in which order. */
  lemma OctantMeets(o: Octant, dx: int, dy: int, x0: int, y0: int, c: Cell, d: Cell)
    requires o.For(dx, dy)
    ensures OnLine(x0, y0, dx, dy, c) <==> Meets(o.adx, o.ady, o.Column(x0, y0, c), o.Row(x0, y0, c))
    ensures OnLineBefore(x0, y0, dx, dy, c, d) <==>
      Earlier(o.adx, o.ady, o.Column(x0, y0, c), o.Row(x0, y0, c), o.Column(x0, y0, d), o.Row(x0, y0, d))
  {
    var i, j, k, l := o.Column(x0, y0, c), o.Row(x0, y0, c), o.Column(x0, y0, d), o.Row(x0, y0, d);
    forall t
      ensures Inside(dx, dy, c.0 - x0, c.1 - y0, t) <==> Inside(o.adx, o.ady, i, j, t)
      ensures Inside(dx, dy, d.0 - x0, d.1 - y0, t) <==> Inside(o.adx, o.ady, k, l, t)
    {
      OctantInside(o, dx, dy, x0, y0, c, t);
      OctantInside(o, dx, dy, x0, y0, d, t);
    }
    OctantInverse(o, dx, dy, x0, y0, c);
    OctantInverse(o, dx, dy, x0, y0, d);
    hide Inside, Octant.Column, Octant.Row, Octant.For;
    SameMeets(dx, dy, c.0 - x0, c.1 - y0, d.0 - x0, d.1 - y0, o.adx, o.ady, i, j, k, l);
  }

  lemma SameMeets(dx: int, dy: int, a: int, b: int, a': int, b': int,
                  dx': int, dy': int, i: int, j: int, i': int, j': int)
    requires forall t :: Inside(dx, dy, a, b, t) <==> Inside(dx', dy', i, j, t)
    requires forall t :: Inside(dx, dy, a', b', t) <==> Inside(dx', dy', i', j', t)
    requires (a != a' || b != b') <==> (i != i' || j != j')
    ensures Meets(dx, dy, a, b) <==> Meets(dx', dy', i, j)
    ensures Earlier(dx, dy, a, b, a', b') <==> Earlier(dx', dy', i, j, i', j')
  {
    hide Inside;
    if Meets(dx, dy, a, b) {
      var t :| Inside(dx, dy, a, b, t);
      assert Inside(dx', dy', i, j, t);
    }
    if Meets(dx', dy', i, j) {
      var t :| Inside(dx', dy', i, j, t);
      assert Inside(dx, dy, a, b, t);
    }
    if Earlier(dx, dy, a, b, a', b') {
      var t, u :| t < u && Inside(dx, dy, a, b, t) && Inside(dx, dy, a', b', u);
      assert Inside(dx', dy', i, j, t) && Inside(dx', dy', i', j', u);
    }
    if Earlier(dx', dy', i, j, i', j') {
      var t, u :| t < u && Inside(dx', dy', i, j, t) && Inside(dx', dy', i', j', u);
      assert Inside(dx, dy, a, b, t) && Inside(dx, dy, a', b', u);
    }
  }

  lemma OctantInside(o: Octant, dx: int, dy: int, x0: int, y0: int, c: Cell, t: real)
    requires o.For(dx, dy)
    ensures Inside(dx, dy, c.0 - x0, c.1 - y0, t) <==> Inside(o.adx, o.ady, o.Column(x0, y0, c), o.Row(x0, y0, c), t)
  {
    var px, py, i, j := c.0 - x0, c.1 - y0, o.Column(x0, y0, c), o.Row(x0, y0, c);
    UnitInt(o.c11, px); UnitInt(o.c21, py); UnitInt(o.c12, px); UnitInt(o.c22, py);
    UnitInt(o.c11, o.adx); UnitInt(o.c12, o.ady); UnitInt(o.c21, o.adx); UnitInt(o.c22, o.ady);
    hide Along;
    AlongMirror(o.adx, i, t);
    AlongMirror(o.ady, j, t);
  }

  // ---------- Invariants of the walk, in the coordinates of the first octant ----------

  /** Every cell met in the first `n` columns is clear. */
  ghost predicate Cleared(track: TrackMap, o: Octant, x0: int, y0: int, n: int)
    requires track.Valid()
  {
    forall i, j | i < n && Meets(o.adx, o.ady, i, j) :: track.Clear(o.ToMap(x0, y0, i, j))
  }

  /** The cell last plotted is clear and in the ring. */
  ghost predicate At(track: TrackMap, ring: set<Cell>, o: Octant, x0: int, y0: int, i: int, j: int)
    requires track.Valid()
  {
    o.ToMap(x0, y0, i, j) in ring && track.Clear(o.ToMap(x0, y0, i, j))
  }

  /** Where the loop stands when it is about to plot column `x`. */
  ghost predicate Standing(o: Octant, x: int, y: int, last: int, eps: int) {
    o.adx > 0 ==>
      && 1 <= x <= o.adx && eps == Eps(o.adx, o.ady, x, y) && -o.adx <= eps <= o.adx
      && (o.ady == 0 ==> eps == 0)
      && (last == y || (last == y - 1 && eps == -o.adx))
  }

  lemma FirstHitAt(track: TrackMap, o: Octant, x0: int, y0: int, dx: int, dy: int, i: int, j: int)
    requires track.Valid() && o.For(dx, dy) && Meets(o.adx, o.ady, i, j) && Cleared(track, o, x0, y0, i)
    requires forall l | l < j && Meets(o.adx, o.ady, i, l) :: track.Clear(o.ToMap(x0, y0, i, l))
    requires !track.Clear(o.ToMap(x0, y0, i, j))
    ensures FirstHit(track, x0, y0, dx, dy, o.ToMap(x0, y0, i, j))
  {
    hide TrackMap.Clear, Meets, Earlier, Octant.ToMap, Octant.Column, Octant.Row, OnLine, OnLineBefore;
    var c := o.ToMap(x0, y0, i, j);
    OctantForward(o, dx, dy, x0, y0, i, j);
    OctantMeets(o, dx, dy, x0, y0, c, c);
    forall d | OnLine(x0, y0, dx, dy, d) && OnLineBefore(x0, y0, dx, dy, d, c)
      ensures track.Clear(d)
    {
      var k, l := o.Column(x0, y0, d), o.Row(x0, y0, d);
      OctantMeets(o, dx, dy, x0, y0, d, c);
      OctantInverse(o, dx, dy, x0, y0, d);
      EarlierIsOrdered(o.adx, o.ady, k, l, i, j);
    }
  }

  lemma EarlierIsOrdered(dx: int, dy: int, i: int, j: int, k: int, l: int)
    requires Earlier(dx, dy, i, j, k, l) && dx >= 0 && dy >= 0
    ensures i < k || (i == k && j < l)
  {
    EarlierIsStrict(dx, dy, i, j, k, l);
  }

  lemma HitIsSpec(track: TrackMap, x0: int, y0: int, dx: int, dy: int, c: Cell, r: Outcome)
    requires track.Valid() && FirstHit(track, x0, y0, dx, dy, c) && r == if track.Finish(c) then Finish else Crash
    ensures LineSpec(track, x0, y0, dx, dy, r)
  {
  }

  lemma NormalIsSpec(track: TrackMap, o: Octant, x0: int, y0: int, dx: int, dy: int)
    requires track.Valid() && o.For(dx, dy) && Cleared(track, o, x0, y0, o.adx + 1)
    ensures LineSpec(track, x0, y0, dx, dy, Normal)
  {
    hide TrackMap.Clear, Octant.ToMap, Octant.Column, Octant.Row, OnLine;
    forall c | OnLine(x0, y0, dx, dy, c)
      ensures track.Clear(c)
    {
      OctantMeets(o, dx, dy, x0, y0, c, c);
      OctantInverse(o, dx, dy, x0, y0, c);
      NoColumn(o.adx, o.ady, o.Column(x0, y0, c), o.Row(x0, y0, c));
    }
  }

  /** The cells of two adjacent positions are neighbours on the map. */
  lemma StepIsNeighbor(o: Octant, dx: int, dy: int, x0: int, y0: int, i: int, j: int, k: int, l: int)
    requires o.For(dx, dy) && -1 <= k - i <= 1 && -1 <= l - j <= 1
    ensures Neighbors(o.ToMap(x0, y0, i, j), o.ToMap(x0, y0, k, l))
  {
    UnitInt(o.c11, i); UnitInt(o.c12, j); UnitInt(o.c21, i); UnitInt(o.c22, j);
    UnitInt(o.c11, k); UnitInt(o.c12, l); UnitInt(o.c21, k); UnitInt(o.c22, l);
  }

  /** One step away from the last plotted cell the walk is still in the ring, hence on the map. */
  lemma StaysInRing(track: TrackMap, ring: set<Cell>, o: Octant, dx: int, dy: int, x0: int, y0: int,
                    i: int, j: int, k: int, l: int)
    requires track.Valid() && Enclosed(track, ring) && o.For(dx, dy) && At(track, ring, o, x0, y0, i, j)
    requires -1 <= k - i <= 1 && -1 <= l - j <= 1
    ensures o.ToMap(x0, y0, k, l) in ring && track.InMap(o.ToMap(x0, y0, k, l))
  {
    hide TrackMap.Clear, Octant.ToMap, TrackMap.InMap, Octant.For;
    StepIsNeighbor(o, dx, dy, x0, y0, i, j, k, l);
  }

  lemma ColumnsCleared(track: TrackMap, o: Octant, x0: int, y0: int, x: int, y: int)
    requires track.Valid() && 0 <= o.ady <= o.adx && Cleared(track, o, x0, y0, x)
    requires forall j | Meets(o.adx, o.ady, x, j) :: track.Clear(o.ToMap(x0, y0, x, j))
    ensures Cleared(track, o, x0, y0, x + 1)
  {
    hide TrackMap.Clear, Octant.ToMap, Meets;
  }

  lemma StartOfWalk(track: TrackMap, o: Octant, x0: int, y0: int, dx: int, dy: int)
    requires track.Valid() && o.For(dx, dy)
    ensures o.ToMap(x0, y0, 0, 0) == (x0, y0)
    ensures !track.Clear((x0, y0)) ==> FirstHit(track, x0, y0, dx, dy, (x0, y0))
    ensures track.Clear((x0, y0)) ==> Cleared(track, o, x0, y0, 1)
    ensures Standing(o, 1, 0, 0, o.ady)
  {
    hide TrackMap.Clear, Meets, FirstHit;
    forall i, j | i < 0 && Meets(o.adx, o.ady, i, j)
      ensures false
    {
      NoColumn(o.adx, o.ady, i, j);
    }
    forall j
      ensures Meets(o.adx, o.ady, 0, j) <==> j == 0
    {
      FirstColumn(o.adx, o.ady, j);
    }
    if !track.Clear((x0, y0)) {
      FirstHitAt(track, o, x0, y0, dx, dy, 0, 0);
    }
  }

  lemma ColumnCells(o: Octant, x: int, y: int, last: int, eps: int)
    requires 0 <= o.ady <= o.adx && 1 <= x < o.adx && Standing(o, x, y, last, eps)
    ensures forall j :: Meets(o.adx, o.ady, x, j) <==>
      (j == y && eps < o.adx) || (j == y + 1 && eps + 2 * o.ady > o.adx)
  {
    forall j
      ensures Meets(o.adx, o.ady, x, j) <==>
        (j == y && eps < o.adx) || (j == y + 1 && eps + 2 * o.ady > o.adx)
    {
      InnerColumn(o.adx, o.ady, x, y, j);
    }
  }

  lemma StandingNext(o: Octant, x: int, y: int, last: int, eps: int, y': int, last': int, eps': int)
    requires 0 <= o.ady <= o.adx && 1 <= x < o.adx && Standing(o, x, y, last, eps)
    requires if eps + 2 * o.ady >= o.adx
             then y' == y + 1 && eps' == eps + 2 * o.ady - 2 * o.adx && (last' == if eps' > -o.adx then y + 1 else y)
             else y' == y && eps' == eps + 2 * o.ady && last' == y
    ensures Standing(o, x + 1, y', last', eps')
  {
    EpsRight(o.adx, o.ady, x, y);
    EpsUp(o.adx, o.ady, x + 1, y);
    hide Eps;
  }

  /** At the end of the loop the last cell is one step away, and it is the only cell met in its column. */
  lemma EndOfWalk(o: Octant, x: int, y: int, last: int, eps: int)
    requires 0 <= o.ady <= o.adx && x >= o.adx && Standing(o, x, y, last, eps)
    ensures o.adx > 0 ==> x == o.adx && last <= o.ady <= last + 1
    ensures forall j :: Meets(o.adx, o.ady, o.adx, j) <==> j == o.ady
  {
    forall j
      ensures Meets(o.adx, o.ady, o.adx, j) <==> j == o.ady
    {
      LastColumn(o.adx, o.ady, j);
    }
    if o.adx > 0 {
      EpsAtEnd(o.adx, o.ady, y, eps);
    }
  }

  lemma EpsAtEnd(dx: int, dy: int, y: int, eps: int)
    requires 0 <= dy <= dx && dx > 0 && eps == Eps(dx, dy, dx, y) && -dx <= eps <= dx
    ensures y <= dy <= y + 1 && (eps == -dx ==> dy == y)
  {
    var n := dy - y;
    assert eps == 2 * (dx * n) - dy;
    AwayFromZero(dx, n);
    AwayFromZero(dx, n - 1);
    assert dx * (n - 1) == dx * n - dx;
  }

  method Plot(track: TrackMap, c: Cell) returns (hit: Option<Outcome>)
    requires track.Valid() && track.InMap(c)
    ensures hit.None? <==> track.Clear(c)
    ensures hit.Some? ==> hit.value == if track.Finish(c) then Finish else Crash
  {
    if track.GetIsFinish(c) {
      return Some(Finish);
    }
    if !track.GetIsOpen(c) {
      return Some(Crash);
    }
    return None;
  }

  method Transform(dx: int, dy: int) returns (o: Octant)
    ensures o.For(dx, dy) && 0 <= o.ady <= o.adx
  {
    var adx := if dx < 0 then -dx else dx;
    var ady := if dy < 0 then -dy else dy;
    var c11 := if dx < 0 then -1 else 1;
    var c12 := 0;
    var c22 := if dy < 0 then -1 else 1;
    var c21 := 0;
    UnitInt(c11, adx);
    UnitInt(c22, ady);
    if ady > adx {
      adx, ady := ady, adx;
      c11, c12 := c12, c11;
      c21, c22 := c22, c21;
    }
    o := Octant(adx, ady, c11, c12, c21, c22);
  }

  /** Plots the cells that the segment meets in column `x`. */
  method WalkColumn(track: TrackMap, ghost ring: set<Cell>, o: Octant, x0: int, y0: int, ghost dx: int, ghost dy: int,
                    x: int, y0': int, eps0: int, ghost last0: int)
    returns (hit: Option<Outcome>, y: int, eps: int, ghost last: int)
    requires track.Valid() && Enclosed(track, ring) && o.For(dx, dy)
    requires 1 <= x < o.adx && Standing(o, x, y0', last0, eps0)
    requires Cleared(track, o, x0, y0, x) && At(track, ring, o, x0, y0, x - 1, last0)
    ensures hit.Some? ==> hit.value != Normal && LineSpec(track, x0, y0, dx, dy, hit.value)
    ensures hit.None? ==>
      && Cleared(track, o, x0, y0, x + 1) && At(track, ring, o, x0, y0, x, last)
      && Standing(o, x + 1, y, last, eps)
  {
    assert 0 <= o.ady <= o.adx;
    hide Octant.For, Octant.ToMap, TrackMap.InMap, TrackMap.Clear, TrackMap.Finish, TrackMap.Valid, Octant.Column;
    hide Enclosed, Cleared, Standing, FirstHit, LineSpec, Meets, Octant.Row, Eps;
    y, eps, last := y0', eps0, last0;
    ColumnCells(o, x, y, last, eps);
    LastIsNear(o, x, y, last, eps);
    if eps < o.adx {
      StaysInRing(track, ring, o, dx, dy, x0, y0, x - 1, last, x, y);
      hit := Plot(track, o.ToMap(x0, y0, x, y));
      if hit.Some? {
        FirstHitAt(track, o, x0, y0, dx, dy, x, y);
        HitIsSpec(track, x0, y0, dx, dy, o.ToMap(x0, y0, x, y), hit.value);
        return;
      }
      last := y;
    }
    eps := eps + 2 * o.ady;
    if eps >= o.adx {
      y := y + 1;
      eps := eps - 2 * o.adx;
      if eps > -o.adx {
        StaysInRing(track, ring, o, dx, dy, x0, y0, if eps0 < o.adx then x else x - 1, last, x, y);
        hit := Plot(track, o.ToMap(x0, y0, x, y));
        if hit.Some? {
          FirstHitAt(track, o, x0, y0, dx, dy, x, y);
          HitIsSpec(track, x0, y0, dx, dy, o.ToMap(x0, y0, x, y), hit.value);
          return;
        }
        last := y;
      }
    }
    hit := None;
    ColumnsCleared(track, o, x0, y0, x, y);
    StandingNext(o, x, y0', last0, eps0, y, last, eps);
  }

  /** Walks from the centre of (x0,y0) to the centre of (x0+dx,y0+dy) and reports the first cell on the way that is
      not clear. The walk never leaves the ring, so no access to the map is out of bounds. */
  method LineType(track: TrackMap, ghost ring: set<Cell>, x0: int, y0: int, dx: int, dy: int) returns (r: Outcome)
    requires track.Valid() && Enclosed(track, ring) && (x0, y0) in ring
    ensures LineSpec(track, x0, y0, dx, dy, r)
    ensures r == Normal ==> (x0 + dx, y0 + dy) in ring && track.Clear((x0 + dx, y0 + dy))
  {
    hide Octant.For, Octant.ToMap, TrackMap.InMap, TrackMap.Clear, TrackMap.Finish, TrackMap.Valid, Octant.Column;
    hide Enclosed, Cleared, Standing, FirstHit, LineSpec, Meets, Octant.Row, Eps;
    var o := Transform(dx, dy);
    StartOfWalk(track, o, x0, y0, dx, dy);
    EndCell(o, dx, dy, x0, y0);
    RingInMap(track, ring, (x0, y0));
    var hit := Plot(track, o.ToMap(x0, y0, 0, 0));
    if hit.Some? {
      HitIsSpec(track, x0, y0, dx, dy, (x0, y0), hit.value);
      return hit.value;
    }
    var x, y, eps := 1, 0, o.ady;
    ghost var last := 0;
    while x < o.adx
      invariant x >= 1 && Cleared(track, o, x0, y0, x) && At(track, ring, o, x0, y0, x - 1, last)
      invariant Standing(o, x, y, last, eps) && (o.adx == 0 ==> x == 1 && last == 0)
    {
      hit, y, eps, last := WalkColumn(track, ring, o, x0, y0, dx, dy, x, y, eps, last);
      if hit.Some? {
        return hit.value;
      }
      x := x + 1;
    }
    EndOfWalk(o, x, y, last, eps);
    LastNearEnd(o, x, y, last, eps);
    StaysInRing(track, ring, o, dx, dy, x0, y0, x - 1, last, o.adx, o.ady);
    hit := Plot(track, o.ToMap(x0, y0, o.adx, o.ady));
    if hit.Some? {
      FewerCleared(track, o, x0, y0, o.adx, x);
      FirstHitAt(track, o, x0, y0, dx, dy, o.adx, o.ady);
      HitIsSpec(track, x0, y0, dx, dy, o.ToMap(x0, y0, o.adx, o.ady), hit.value);
      return hit.value;
    }
    FewerCleared(track, o, x0, y0, o.adx, x);
    ColumnsCleared(track, o, x0, y0, o.adx, y);
    NormalIsSpec(track, o, x0, y0, dx, dy);
    return Normal;
  }

  lemma RingInMap(track: TrackMap, ring: set<Cell>, c: Cell)
    requires track.Valid() && Enclosed(track, ring) && c in ring
    ensures track.InMap(c)
  {
  }

  lemma EndCell(o: Octant, dx: int, dy: int, x0: int, y0: int)
    requires o.For(dx, dy)
    ensures o.ToMap(x0, y0, o.adx, o.ady) == (x0 + dx, y0 + dy)
  {
    UnitInt(o.c11, o.adx); UnitInt(o.c12, o.ady); UnitInt(o.c21, o.adx); UnitInt(o.c22, o.ady);
  }

  lemma LastIsNear(o: Octant, x: int, y: int, last: int, eps: int)
    requires o.adx > 0 && o.ady >= 0 && Standing(o, x, y, last, eps)
    ensures y - 1 <= last <= y && (eps >= o.adx ==> last == y && o.ady > 0)
  {
    hide Eps;
  }

  lemma LastNearEnd(o: Octant, x: int, y: int, last: int, eps: int)
    requires 0 <= o.ady <= o.adx && x >= o.adx && x >= 1 && Standing(o, x, y, last, eps)
    requires o.adx == 0 ==> x == 1 && last == 0
    ensures -1 <= o.adx - (x - 1) <= 1 && -1 <= o.ady - last <= 1
  {
    EndOfWalk(o, x, y, last, eps);
  }

  lemma FewerCleared(track: TrackMap, o: Octant, x0: int, y0: int, n: int, m: int)
    requires track.Valid() && Cleared(track, o, x0, y0, m) && n <= m
    ensures Cleared(track, o, x0, y0, n)
  {
  }

  /** A segment that meets only clear cells, from a cell of the ring, ends in the ring. */
  lemma NormalEndsInRing(track: TrackMap, ring: set<Cell>, x0: int, y0: int, dx: int, dy: int)
    requires track.Valid() && Enclosed(track, ring) && (x0, y0) in ring && LineSpec(track, x0, y0, dx, dy, Normal)
    ensures (x0 + dx, y0 + dy) in ring && track.Clear((x0 + dx, y0 + dy))
  {
    var o := OctantOf(dx, dy);
    hide TrackMap.Clear, Octant.ToMap, Octant.Column, Octant.Row, Meets, Enclosed;
    forall i, j | i < o.adx + 1 && Meets(o.adx, o.ady, i, j)
      ensures track.Clear(o.ToMap(x0, y0, i, j))
    {
      var c := o.ToMap(x0, y0, i, j);
      OctantForward(o, dx, dy, x0, y0, i, j);
      OctantMeets(o, dx, dy, x0, y0, c, c);
    }
    StartOfWalk(track, o, x0, y0, dx, dy);
    EndCell(o, dx, dy, x0, y0);
    FirstColumn(o.adx, o.ady, 0);
    LastColumn(o.adx, o.ady, o.ady);
    EndInRing(track, ring, o, x0, y0, dx, dy, 1, 0, o.ady, 0);
  }

  lemma OctantOf(dx: int, dy: int) returns (o: Octant)
    ensures o.For(dx, dy) && 0 <= o.ady <= o.adx
  {
    var adx, ady := if dx < 0 then -dx else dx, if dy < 0 then -dy else dy;
    var sx, sy := if dx < 0 then -1 else 1, if dy < 0 then -1 else 1;
    UnitInt(sx, adx);
    UnitInt(sy, ady);
    o := if ady > adx then Octant(ady, adx, 0, sx, sy, 0) else Octant(adx, ady, sx, 0, 0, sy);
  }

  lemma {:induction false} EndInRing(track: TrackMap, ring: set<Cell>, o: Octant, x0: int, y0: int, dx: int, dy: int,
                                     x: int, y: int, eps: int, last: int)
    requires track.Valid() && Enclosed(track, ring) && o.For(dx, dy) && 0 <= o.ady <= o.adx
    requires Cleared(track, o, x0, y0, o.adx + 1)
    requires x >= 1 && Standing(o, x, y, last, eps) && At(track, ring, o, x0, y0, x - 1, last)
    requires o.adx == 0 ==> x == 1 && last == 0
    ensures o.ToMap(x0, y0, o.adx, o.ady) in ring
    decreases o.adx - x
  {
    hide Octant.For, Octant.ToMap, TrackMap.InMap, TrackMap.Clear, Enclosed, Standing, Meets, Eps;
    if x < o.adx {
      ColumnCells(o, x, y, last, eps);
      LastIsNear(o, x, y, last, eps);
      var wrap := eps + 2 * o.ady >= o.adx;
      var y', eps' := if wrap then y + 1 else y, if wrap then eps + 2 * o.ady - 2 * o.adx else eps + 2 * o.ady;
      var last' := if wrap && eps' > -o.adx then y + 1 else y;
      StandingNext(o, x, y, last, eps, y', last', eps');
      StaysInRing(track, ring, o, dx, dy, x0, y0, x - 1, last, x, y);
      if last' == y + 1 {
        if eps < o.adx {
          StaysInRing(track, ring, o, dx, dy, x0, y0, x, y, x, y + 1);
        } else {
          StaysInRing(track, ring, o, dx, dy, x0, y0, x - 1, last, x, y + 1);
        }
      }
      EndInRing(track, ring, o, x0, y0, dx, dy, x + 1, y', eps', last');
    } else {
      EndOfWalk(o, x, y, last, eps);
      LastNearEnd(o, x, y, last, eps);
      StaysInRing(track, ring, o, dx, dy, x0, y0, x - 1, last, o.adx, o.ady);
    }
  }

  // ---------- The MDP ----------

  const RT_NORMAL: nat := 0
  const RT_FINISH: nat := 1
  const RT_CRASH: nat := 2
  const RT_SLIP: nat := 3
  const RT_MAX: nat := 4

  /** The acceleration error that the wind causes, by outcome. */
  const DAX: seq<int> := [0, 0, 0, -1, -1, -1, 0, 0, 1, 1, 1]
  const DAY: seq<int> := [0, 0, 0, -1, 0, 1, -1, 1, -1, 0, 1]

  /** Position and velocity; two impossible positions mark the initial and the terminal state. */
  datatype CarState = CarState(x: int, y: int, vx: int, vy: int) {
    predicate IsInitial() { x == -1 }
    predicate IsTerminal() { x == -2 }
  }

  const INITIAL_STATE := CarState(-1, 0, 0, 0)
  const TERMINAL_STATE := CarState(-2, 0, 0, 0)

  datatype RaceProblem = RaceProblem(track: TrackMap, errorProbability: real, useErrorIsWind: bool) {
    ghost predicate Valid() {
      track.Valid() && 0.0 <= errorProbability <= 1.0
    }

    function NumOutcomes(): nat {
      if useErrorIsWind then RT_MAX + 7 else RT_MAX
    }

    /** The acceleration that outcome `o` of action `a` really applies. */
    function Acceleration(a: nat, o: nat): (int, int)
      requires o < NumOutcomes()
    {
      var ax, ay := a / 3 - 1, a % 3 - 1;
      if useErrorIsWind then (ax + DAX[o], ay + DAY[o])
      else if o == RT_SLIP then (0, 0) else (ax, ay)
    }

    function GetNextState(s: CarState, a: nat, o: nat): CarState
      requires s.IsInitial() ==> o < |track.startX| && o < |track.startY|
      requires !s.IsInitial() && !s.IsTerminal() ==> o < NumOutcomes()
    {
      if s.IsInitial() then CarState(track.startX[o], track.startY[o], 0, 0)
      else if s.IsTerminal() then s
      else if o == RT_FINISH then TERMINAL_STATE
      else if o == RT_CRASH then INITIAL_STATE
      else
        var acc := Acceleration(a, o);
        var vx, vy := s.vx + acc.0, s.vy + acc.1;
        CarState(s.x + vx, s.y + vy, vx, vy)
    }
  }

  /** Actions number the accelerations from (-1,-1) to (1,1), `y` fastest. */
  ghost predicate Commands(a: nat, ax: int, ay: int) {
    -1 <= ax <= 1 && -1 <= ay <= 1 && a == 3 * (ax + 1) + ay + 1
  }

  /** Gusts are numbered in the same way from RT_SLIP on, without the one that blows nowhere. */
  ghost predicate Blows(o: nat, ex: int, ey: int) {
    && -1 <= ex <= 1 && -1 <= ey <= 1 && (ex, ey) != (0, 0)
    && var place := 3 * (ex + 1) + ey + 1; RT_SLIP + place == if place < 4 then o else o + 1
  }

  /** From the initial state the car comes to rest on a start cell, the terminal state is never left, and the two
      reports lead to the terminal and to the initial state. When a car drives, its displacement is the velocity that
      it has afterwards. That is the one before plus the acceleration commanded, plus that of the gust if there is
      one; when it slips it keeps its velocity. */
  lemma StepLaws(m: RaceProblem, s: CarState, a: nat, o: nat)
    requires s.IsInitial() ==> o < |m.track.startX| && o < |m.track.startY|
    requires !s.IsInitial() && !s.IsTerminal() ==> a < 9 && o < m.NumOutcomes()
    ensures var t := m.GetNextState(s, a, o);
      && (s.IsInitial() ==> (t.x, t.y) == (m.track.startX[o], m.track.startY[o]) && t.vx == 0 && t.vy == 0)
      && (s.IsTerminal() ==> t == s)
      && (!s.IsInitial() && !s.IsTerminal() && o == RT_FINISH ==> t.IsTerminal())
      && (!s.IsInitial() && !s.IsTerminal() && o == RT_CRASH ==> t.IsInitial())
    ensures !s.IsInitial() && !s.IsTerminal() && Drives(o) ==>
      var t := m.GetNextState(s, a, o);
      && t.x - s.x == t.vx && t.y - s.y == t.vy
      && exists ax, ay, ex, ey :: Commands(a, ax, ay) && HasError(m, o, ax, ay, ex, ey)
           && t.vx - s.vx == ax + ex && t.vy - s.vy == ay + ey
  {
    if !s.IsInitial() && !s.IsTerminal() && Drives(o) {
      var ax, ay := a / 3 - 1, a % 3 - 1;
      var acc := m.Acceleration(a, o);
      assert Commands(a, ax, ay);
      assert HasError(m, o, ax, ay, acc.0 - ax, acc.1 - ay);
    }
  }

  /** The error of outcome `o` when (ax,ay) is commanded. */
  ghost predicate HasError(m: RaceProblem, o: nat, ax: int, ay: int, ex: int, ey: int) {
    if o == RT_NORMAL then (ex, ey) == (0, 0)
    else if m.useErrorIsWind then Blows(o, ex, ey)
    else (ex, ey) == (-ax, -ay)
  }

  /** Every acceleration is commanded by exactly one action, and every gust blows in exactly one outcome. */
  lemma EveryCommandAndGust(x: int, y: int)
    requires -1 <= x <= 1 && -1 <= y <= 1
    ensures exists a: nat :: a < 9 && Commands(a, x, y) && forall b | Commands(b, x, y) :: b == a
    ensures (x, y) != (0, 0) ==>
      exists o: nat :: RT_SLIP <= o < RT_MAX + 7 && Blows(o, x, y) && forall r | Blows(r, x, y) :: r == o
  {
    var place := 3 * (x + 1) + y + 1;
    assert Commands(place, x, y);
    if (x, y) != (0, 0) {
      assert place != 4;
      assert Blows(if place < 4 then RT_SLIP + place else RT_SLIP + place - 1, x, y);
    }
  }

  ghost function Total(p: seq<real>): real {
    if p == [] then 0.0 else Total(p[..|p| - 1]) + p[|p| - 1]
  }

  ghost predicate Distribution(p: seq<real>) {
    Total(p) == 1.0 && forall i | 0 <= i < |p| :: p[i] >= 0.0
  }

  lemma {:induction false} TotalUpdate(p: seq<real>, i: nat, v: real)
    requires i < |p|
    ensures Total(p[i := v]) == Total(p) - p[i] + v
  {
    var n := |p| - 1;
    if i == n {
      assert p[i := v][..n] == p[..n];
    } else {
      assert p[i := v][..n] == p[..n][i := v];
      TotalUpdate(p[..n], i, v);
    }
  }

  lemma {:induction false} TotalUniform(n: nat, v: real)
    ensures Total(seq(n, _ => v)) == n as real * v
  {
    if n > 0 {
      assert seq(n, _ => v)[..n - 1] == seq(n - 1, _ => v);
      TotalUniform(n - 1, v);
      Distribute((n - 1) as real, 1.0, v);
    }
  }

  /** The line driven when outcome `o` is drawn has the given result. */
  ghost predicate LineOf(m: RaceProblem, s: CarState, a: nat, o: nat, r: Outcome)
    requires m.track.Valid() && o < m.NumOutcomes()
  {
    var acc := m.Acceleration(a, o);
    LineSpec(m.track, s.x, s.y, s.vx + acc.0, s.vy + acc.1, r)
  }

  /** An outcome that applies an acceleration, as opposed to the two that report where it led. */
  predicate Drives(o: nat) {
    o != RT_FINISH && o != RT_CRASH
  }

  /** The probability with which outcome `o` is drawn. */
  function Nominal(m: RaceProblem, o: nat): real
    requires o < m.NumOutcomes()
  {
    if o == RT_NORMAL then 1.0 - m.errorProbability
    else if !Drives(o) then 0.0
    else if m.useErrorIsWind then m.errorProbability / 8.0 else m.errorProbability
  }

  /** The probability of the first `n` outcomes whose line has result `r`. */
  ghost function MassOf(m: RaceProblem, lines: seq<Outcome>, r: Outcome, n: nat): real
    requires n <= |lines| == m.NumOutcomes()
  {
    if n == 0 then 0.0
    else MassOf(m, lines, r, n - 1) + if Drives(n - 1) && lines[n - 1] == r then Nominal(m, n - 1) else 0.0
  }

  /** An outcome keeps its probability if its line is clear; the probability of all others moves to `finish` or
      `crash`, whichever their lines run into first. */
  ghost predicate OutcomesOf(m: RaceProblem, s: CarState, a: nat, p: seq<real>, lines: seq<Outcome>)
    requires m.track.Valid()
  {
    && |p| == |lines| == m.NumOutcomes()
    && (forall o | 0 <= o < |p| && Drives(o) ::
          LineOf(m, s, a, o, lines[o]) && p[o] == if lines[o] == Normal then Nominal(m, o) else 0.0)
    && p[RT_FINISH] == MassOf(m, lines, Finish, |p|)
    && p[RT_CRASH] == MassOf(m, lines, Crash, |p|)
  }

  /** The initial state, the terminal state, or a car on a clear cell of the ring. */
  ghost predicate Good(m: RaceProblem, ring: set<Cell>, s: CarState)
    requires m.track.Valid()
  {
    || s == INITIAL_STATE || s == TERMINAL_STATE
    || ((s.x, s.y) in ring && m.track.Clear((s.x, s.y)))
  }

  /** The state of the loop that checks the outcomes: those before `n` have been settled. */
  ghost predicate Settled(m: RaceProblem, s: CarState, a: nat, p: seq<real>, lines: seq<Outcome>, n: nat)
    requires m.track.Valid()
  {
    && n <= |p| == |lines| == m.NumOutcomes() && Distribution(p)
    && (forall o | 0 <= o < n && Drives(o) ::
          LineOf(m, s, a, o, lines[o]) && p[o] == if lines[o] == Normal then Nominal(m, o) else 0.0)
    && (forall o | n <= o < |p| && Drives(o) :: p[o] == Nominal(m, o))
    && p[RT_FINISH] == MassOf(m, lines, Finish, n)
    && p[RT_CRASH] == MassOf(m, lines, Crash, n)
  }

  lemma {:induction false} MassSame(m: RaceProblem, lines: seq<Outcome>, lines': seq<Outcome>, r: Outcome, n: nat)
    requires n <= |lines| == |lines'| == m.NumOutcomes() && lines'[..n] == lines[..n]
    ensures MassOf(m, lines', r, n) == MassOf(m, lines, r, n)
  {
    if n > 0 {
      assert lines'[..n][n - 1] == lines[..n][n - 1];
      assert lines'[..n - 1] == lines'[..n][..n - 1] == lines[..n][..n - 1] == lines[..n - 1];
      MassSame(m, lines, lines', r, n - 1);
    }
  }

  lemma SkipReports(m: RaceProblem, s: CarState, a: nat, p: seq<real>, lines: seq<Outcome>)
    requires m.track.Valid() && Settled(m, s, a, p, lines, 1)
    ensures Settled(m, s, a, p, lines, 3)
  {
    hide LineOf, Distribution;
    forall r
      ensures MassOf(m, lines, r, 3) == MassOf(m, lines, r, 1)
    {
      assert MassOf(m, lines, r, 3) == MassOf(m, lines, r, 2);
    }
  }

  lemma SettledNext(m: RaceProblem, s: CarState, a: nat, p: seq<real>, lines: seq<Outcome>, o: nat, r: Outcome)
    returns (p': seq<real>)
    requires m.track.Valid() && Settled(m, s, a, p, lines, o) && o < |p| && Drives(o) && LineOf(m, s, a, o, r)
    ensures var to := if r == Finish then RT_FINISH else RT_CRASH;
      p' == if r == Normal then p else p[to := p[to] + p[o]][o := 0.0]
    ensures Settled(m, s, a, p', lines[o := r], o + 1)
  {
    hide LineOf, LineSpec, Total;
    var to := if r == Finish then RT_FINISH else RT_CRASH;
    p' := if r == Normal then p else p[to := p[to] + p[o]][o := 0.0];
    MassSame(m, lines, lines[o := r], Finish, o);
    MassSame(m, lines, lines[o := r], Crash, o);
    if r != Normal {
      TotalUpdate(p, to, p[to] + p[o]);
      TotalUpdate(p[to := p[to] + p[o]], o, 0.0);
    }
  }

  /** Draws outcome `o` with its nominal probability, and moves that probability if the line is not clear. */
  method CheckOutcome(m: RaceProblem, ghost ring: set<Cell>, s: CarState, a: nat, p: seq<real>,
      ghost lines: seq<Outcome>,
                      o: nat)
    returns (p': seq<real>, ghost lines': seq<Outcome>)
    requires m.Valid() && Enclosed(m.track, ring) && (s.x, s.y) in ring
    requires Settled(m, s, a, p, lines, o) && o < |p| && Drives(o)
    ensures Settled(m, s, a, p', lines', o + 1) && |p'| == |p|
  {
    hide Enclosed, LineSpec, MassOf, Distribution, TrackMap.Valid;
    var acc := m.Acceleration(a, o);
    var lineType := LineType(m.track, ring, s.x, s.y, s.vx + acc.0, s.vy + acc.1);
    ghost var p'' := SettledNext(m, s, a, p, lines, o, lineType);
    lines' := lines[o := lineType];
    p' := p;
    if lineType != Normal {
      var to := if lineType == Finish then RT_FINISH else RT_CRASH;
      p' := p'[to := p'[to] + p'[o]];
      p' := p'[o := 0.0];
    }
  }

  /** The outcome vector before the lines are checked. */
  method NominalVector(m: RaceProblem) returns (p: seq<real>)
    requires m.Valid()
    ensures |p| == m.NumOutcomes() && Distribution(p) && p[RT_FINISH] == p[RT_CRASH] == 0.0
    ensures forall o | 0 <= o < |p| && Drives(o) :: p[o] == Nominal(m, o)
    ensures 1.0 - p[RT_NORMAL] == m.errorProbability && forall o, r | RT_SLIP <= o < r < |p| :: p[o] == p[r]
  {
    var e := m.errorProbability;
    p := seq(m.NumOutcomes(), _ => 0.0);
    TotalUniform(m.NumOutcomes(), 0.0);
    assert Total(p) == 0.0;
    hide Total;
    TotalUpdate(p, RT_NORMAL, 1.0 - e);
    p := p[RT_NORMAL := 1.0 - e];
    if m.useErrorIsWind {
      for i := 0 to 8
        invariant |p| == m.NumOutcomes() && Total(p) == 1.0 - e + i as real * (e / 8.0)
        invariant p[0] == 1.0 - e && p[1] == p[2] == 0.0
        invariant forall o | 3 <= o < |p| :: p[o] == if o < 3 + i then e / 8.0 else 0.0
      {
        TotalUpdate(p, RT_SLIP + i, e / 8.0);
        p := p[RT_SLIP + i := e / 8.0];
      }
    } else {
      TotalUpdate(p, RT_SLIP, e);
      p := p[RT_SLIP := e];
    }
  }

  /** The distribution over outcomes of an action. */
  method GetOutcomeProbVector(m: RaceProblem, ghost ring: set<Cell>, s: CarState, a: nat)
    returns (p: seq<real>, ghost lines: seq<Outcome>)
    requires m.Valid() && Enclosed(m.track, ring) && Good(m, ring, s) && a < 9
    ensures Distribution(p)
    ensures s.IsInitial() ==> |p| == |m.track.startX| && forall i | 0 <= i < |p| :: p[i] * |p| as real == 1.0
    ensures s.IsTerminal() ==> p == [1.0]
    ensures !s.IsInitial() && !s.IsTerminal() ==> OutcomesOf(m, s, a, p, lines)
  {
    lines := [];
    if s.IsInitial() {
      var n := |m.track.startX|;
      var p0 := 1.0 / n as real;
      TotalUniform(n, p0);
      return seq(n, _ => p0), [];
    } else if s.IsTerminal() {
      assert [1.0][..0] == [];
      return [1.0], [];
    }
    p := NominalVector(m);
    lines := seq(m.NumOutcomes(), _ => Normal);
    assert (s.x, s.y) in ring;
    hide Enclosed, Distribution, TrackMap.Valid, LineOf, Good;
    assert Settled(m, s, a, p, lines, 0);
    p, lines := CheckOutcome(m, ring, s, a, p, lines, RT_NORMAL);
    SkipReports(m, s, a, p, lines);
    for o := RT_SLIP to m.NumOutcomes()
      invariant |p| == m.NumOutcomes() && Settled(m, s, a, p, lines, o)
    {
      p, lines := CheckOutcome(m, ring, s, a, p, lines, o);
    }
  }

  // ---------- Reachable states ----------

  /** Some action leads from `s` to `s'` with positive probability. */
  ghost predicate CanStep(m: RaceProblem, s: CarState, s': CarState)
    requires m.Valid()
  {
    if s.IsInitial() then
      exists o: nat :: o < |m.track.startX| && s' == m.GetNextState(s, 0, o)
    else if s.IsTerminal() then s' == s
    else
      exists a: nat, o: nat, p, lines ::
        a < 9 && OutcomesOf(m, s, a, p, lines) && o < |p| && p[o] > 0.0 && s' == m.GetNextState(s, a, o)
  }

  lemma StartsAreGood(m: RaceProblem, ring: set<Cell>, s: CarState, s': CarState)
    requires m.Valid() && Enclosed(m.track, ring) && s.IsInitial() && CanStep(m, s, s')
    ensures Good(m, ring, s')
  {
  }

  lemma StepStaysGood(m: RaceProblem, ring: set<Cell>, s: CarState, s': CarState)
    requires m.Valid() && Enclosed(m.track, ring) && Good(m, ring, s) && CanStep(m, s, s')
    ensures Good(m, ring, s')
  {
    hide LineSpec, Enclosed, TrackMap.Clear, MassOf;
    if s.IsInitial() {
      StartsAreGood(m, ring, s, s');
    } else if !s.IsTerminal() {
      var a: nat, o: nat, p, lines :|
        a < 9 && OutcomesOf(m, s, a, p, lines) && o < |p| && p[o] > 0.0 && s' == m.GetNextState(s, a, o);
      if Drives(o) {
        assert LineOf(m, s, a, o, lines[o]) && lines[o] == Normal;
        var acc := m.Acceleration(a, o);
        NormalEndsInRing(m.track, ring, s.x, s.y, s.vx + acc.0, s.vy + acc.1);
      }
    }
  }

  /** The car has driven from `s` to `s'`: its displacement is its new velocity, a segment over clear cells, and that
      velocity differs from the old one by no more than a command and a gust can change it. */
  ghost predicate Drove(m: RaceProblem, s: CarState, s': CarState)
    requires m.track.Valid()
  {
    && s'.x - s.x == s'.vx && s'.y - s.y == s'.vy
    && LineSpec(m.track, s.x, s.y, s'.vx, s'.vy, Normal)
    && var most := if m.useErrorIsWind then 2 else 1;
       -most <= s'.vx - s.vx <= most && -most <= s'.vy - s.vy <= most
  }

  /** Whatever step a car can take, it drives, or it finishes or crashes on a segment that leads there. */
  lemma StepIsPhysical(m: RaceProblem, ring: set<Cell>, s: CarState, s': CarState)
    requires m.Valid() && Enclosed(m.track, ring) && Good(m, ring, s) && !s.IsInitial() && !s.IsTerminal()
    requires CanStep(m, s, s')
    ensures || (s' == TERMINAL_STATE && exists dx, dy :: LineSpec(m.track, s.x, s.y, dx, dy, Finish))
            || (s' == INITIAL_STATE && exists dx, dy :: LineSpec(m.track, s.x, s.y, dx, dy, Crash))
            || Drove(m, s, s')
  {
    hide LineSpec, Enclosed, TrackMap.Clear, MassOf, Good;
    var a: nat, o: nat, p, lines :|
      a < 9 && OutcomesOf(m, s, a, p, lines) && o < |p| && p[o] > 0.0 && s' == m.GetNextState(s, a, o);
    if Drives(o) {
      StepLaws(m, s, a, o);
      assert LineOf(m, s, a, o, lines[o]) && lines[o] == Normal;
      assert Drove(m, s, s');
    } else {
      var r := if o == RT_FINISH then Finish else Crash;
      var i := LineWithMass(m, lines, r, |p|);
      assert LineOf(m, s, a, i, lines[i]);
    }
  }

  lemma {:induction false} LineWithMass(m: RaceProblem, lines: seq<Outcome>, r: Outcome, n: nat) returns (o: nat)
    requires n <= |lines| == m.NumOutcomes() && MassOf(m, lines, r, n) > 0.0
    ensures o < n && Drives(o) && lines[o] == r
  {
    o := n - 1;
    if !(Drives(o) && lines[o] == r) {
      o := LineWithMass(m, lines, r, n - 1);
    }
  }

  /** Along every run from the initial state, the car is at a marker state or on a clear cell of the ring. */
  lemma {:induction false} RunStaysGood(m: RaceProblem, ring: set<Cell>, run: seq<CarState>, k: nat)
    requires m.Valid() && Enclosed(m.track, ring) && k < |run| && run[0] == INITIAL_STATE
    requires forall i | 0 <= i < |run| - 1 :: CanStep(m, run[i], run[i + 1])
    ensures Good(m, ring, run[k])
  {
    if k > 0 {
      RunStaysGood(m, ring, run, k - 1);
      assert CanStep(m, run[k - 1], run[k - 1 + 1]);
      StepStaysGood(m, ring, run[k - 1], run[k]);
    }
  }
}
