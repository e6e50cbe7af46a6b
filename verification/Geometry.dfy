/** Which unit cells a segment between two cell centres meets, and in which order. */
module Geometry {
  import opened RealArith

  /** At parameter `t` the segment from (0,0) to (dx,dy) is inside the open unit square around (i,j). */
  ghost predicate Inside(dx: int, dy: int, i: int, j: int, t: real) {
    0.0 <= t <= 1.0 && Along(dx, i, t) && Along(dy, j, t)
  }

  /** One coordinate of `Inside`. */
  ghost predicate Along(d: int, i: int, t: real) {
    i as real - 0.5 < t * d as real < i as real + 0.5
  }

  lemma AlongMirror(d: int, i: int, t: real)
    ensures Along(-d, -i, t) <==> Along(d, i, t)
  {
    assert (-d) as real == -(d as real);
    assert t * -(d as real) == -(t * d as real);
  }

  /** The segment meets the open unit square around (i,j). */
  ghost predicate Meets(dx: int, dy: int, i: int, j: int) {
    exists t :: Inside(dx, dy, i, j, t)
  }

  /** The segment is in the square around (i,j) before it is in the one around (k,l). */
  ghost predicate Earlier(dx: int, dy: int, i: int, j: int, k: int, l: int) {
    (i != k || j != l) && exists t, u :: t < u && Inside(dx, dy, i, j, t) && Inside(dx, dy, k, l, u)
  }

  /** Of two different cells that are met, one is met earlier. */
  lemma MeetsAreOrdered(dx: int, dy: int, i: int, j: int, k: int, l: int)
    requires Meets(dx, dy, i, j) && Meets(dx, dy, k, l) && (i != k || j != l)
    ensures Earlier(dx, dy, i, j, k, l) || Earlier(dx, dy, k, l, i, j)
  {
    var t :| Inside(dx, dy, i, j, t);
    var u :| Inside(dx, dy, k, l, u);
    assert t != u;
  }

  /** An earlier cell is not further along in either coordinate. */
  lemma EarlierIsStrict(dx: int, dy: int, i: int, j: int, k: int, l: int)
    requires Earlier(dx, dy, i, j, k, l) && dx >= 0 && dy >= 0
    ensures i <= k && j <= l
  {
    var t, u :| t < u && Inside(dx, dy, i, j, t) && Inside(dx, dy, k, l, u);
    ScaleMono(dx as real, t, u);
    ScaleMono(dy as real, t, u);
    assert i as real - 0.5 < k as real + 0.5;
    assert j as real - 0.5 < l as real + 0.5;
  }

  /** Twice the height of the segment above row `j`, where it enters column `i`, in units of 1/dx. */
  function Eps(dx: int, dy: int, i: int, j: int): int {
    dy * (2 * i - 1) - 2 * dx * j
  }

  lemma EpsRight(dx: int, dy: int, i: int, j: int)
    ensures Eps(dx, dy, i + 1, j) == Eps(dx, dy, i, j) + 2 * dy
  {
  }

  lemma EpsUp(dx: int, dy: int, i: int, j: int)
    ensures Eps(dx, dy, i, j + 1) == Eps(dx, dy, i, j) - 2 * dx
  {
  }

  /** The two comparisons that decide whether a cell in an inner column is met. */
  predicate Crosses(dx: int, dy: int, i: int, j: int) {
    Eps(dx, dy, i, j) < dx && Eps(dx, dy, i, j) + 2 * dy > -dx
  }

  lemma MeetsCrosses(dx: int, dy: int, i: int, j: int)
    requires 0 <= dy <= dx && dx > 0 && Meets(dx, dy, i, j)
    ensures Crosses(dx, dy, i, j)
  {
    hide Times;
    var t :| Inside(dx, dy, i, j, t);
    TimesIs(t, dx as real);
    TimesIs(t, dy as real);
    Exchange(t, dx as real, dy as real);
    RealCross(dx as real, dy as real, i as real, j as real, Times(t, dx as real), Times(t, dy as real));
    RealEps(dx, dy, i, j);
  }

  /** The height at the left edge of the cell is below its top, and at the right edge above its bottom. */
  lemma RealCross(w: real, h: real, a: real, b: real, u: real, v: real)
    requires 0.0 <= h && w > 0.0 && Times(u, h) == Times(v, w)
    requires a - 0.5 < u < a + 0.5 && b - 0.5 < v < b + 0.5
    ensures Times(a - 0.5, h) < Times(b + 0.5, w) && Times(a + 0.5, h) > Times(b - 0.5, w)
  {
    hide *;
    TimesMonoLeft(a - 0.5, u, h);
    TimesMonoLeft(u, a + 0.5, h);
    TimesLess(b - 0.5, v, w);
    TimesLess(v, b + 0.5, w);
  }

  /** `Crosses` over the reals: the height range of the segment in the column overlaps the cell. */
  lemma RealEps(dx: int, dy: int, i: int, j: int)
    ensures Crosses(dx, dy, i, j) <==>
      && Times(i as real - 0.5, dy as real) < Times(j as real + 0.5, dx as real)
      && Times(i as real + 0.5, dy as real) > Times(j as real - 0.5, dx as real)
  {
    var w, h, a, b := dx as real, dy as real, i as real, j as real;
    assert h * (a - 0.5) == h * a - 0.5 * h && h * (a + 0.5) == h * a + 0.5 * h;
    assert w * (b + 0.5) == w * b + 0.5 * w && w * (b - 0.5) == w * b - 0.5 * w;
    assert h * a == (dy * i) as real && w * b == (dx * j) as real;
    assert Eps(dx, dy, i, j) == 2 * (dy * i) - dy - 2 * (dx * j);
  }

  lemma CrossesMeets(dx: int, dy: int, i: int, j: int)
    requires 0 <= dy <= dx && 0 < i < dx && Crosses(dx, dy, i, j)
    ensures Meets(dx, dy, i, j)
  {
    var w, h, a, b := dx as real, dy as real, i as real, j as real;
    RealEps(dx, dy, i, j);
    var u: real;
    if dy == 0 {
      u := a;
      FlatRow(dx, i, j);
      assert Times(b - 0.5, w) == -0.5 * w && Times(b + 0.5, w) == 0.5 * w && Times(u, h) == 0.0;
    } else {
      Widen(b, w);
      u := Between(a - 0.5, a + 0.5, Times(b - 0.5, w), Times(b + 0.5, w), h);
    }
    PointMeets(dx, dy, i, j, u);
  }

  lemma Widen(b: real, w: real)
    requires w > 0.0
    ensures Times(b - 0.5, w) < Times(b + 0.5, w)
  {
    TimesLess(b - 0.5, b + 0.5, w);
  }

  /** A point of the column at a height inside the cell is a point of the segment inside the cell. */
  lemma PointMeets(dx: int, dy: int, i: int, j: int, u: real)
    requires 0 <= dy <= dx && 0 < i < dx && i as real - 0.5 < u < i as real + 0.5
    requires Times(j as real - 0.5, dx as real) < Times(u, dy as real) < Times(j as real + 0.5, dx as real)
    ensures Meets(dx, dy, i, j)
  {
    hide Times, Over;
    var w, h := dx as real, dy as real;
    var t := Over(u, w);
    DivTimes(u, w);
    Exchange(t, h, w);
    Height(Times(t, h), w, j as real);
    UnitRange(t, w);
    TimesIs(t, w);
    TimesIs(t, h);
    assert Inside(dx, dy, i, j, t);
  }

  lemma Exchange(t: real, h: real, w: real)
    ensures Times(Times(t, h), w) == Times(Times(t, w), h)
  {
    assert t * h * w == t * w * h;
  }

  lemma IntMono(d: int, x: int, y: int)
    requires d >= 0 && x <= y
    ensures d * x <= d * y
  {
    var gap := y - x;
    assert d * gap >= 0;
    assert d * (x + gap) == d * x + d * gap;
  }

  lemma AwayFromZero(d: int, j: int)
    requires d > 0
    ensures j >= 1 ==> d * j >= d
    ensures j <= -1 ==> d * j <= -d
  {
    if j >= 1 {
      IntMono(d, 1, j);
    } else if j <= -1 {
      IntMono(d, j, -1);
    }
  }

  lemma FlatRow(dx: int, i: int, j: int)
    requires dx > 0 && Crosses(dx, 0, i, j)
    ensures j == 0
  {
    hide Eps;
    AwayFromZero(dx, j);
    EpsOfFlat(dx, i, j);
  }

  lemma EpsOfFlat(dx: int, i: int, j: int)
    ensures Eps(dx, 0, i, j) == -2 * (dx * j)
  {
  }

  /** A point of the column at which the height is strictly between the two edges of the cell. */
  lemma Between(left: real, right: real, low: real, high: real, h: real) returns (u: real)
    requires h > 0.0 && left < right && low < high
    requires Times(left, h) < high && Times(right, h) > low
    ensures left < u < right && low < Times(u, h) < high
  {
    hide *;
    var bottom, top := Over(low, h), Over(high, h);
    DivTimes(low, h);
    DivTimes(high, h);
    if bottom >= top {
      TimesMonoLeft(top, bottom, h);
    }
    if left >= top {
      TimesMonoLeft(top, left, h);
    }
    if bottom >= right {
      TimesMonoLeft(right, bottom, h);
    }
    var lo, hi := if left >= bottom then left else bottom, if right <= top then right else top;
    u := (lo + hi) / 2.0;
    TimesLess(bottom, u, h);
    TimesLess(u, top, h);
  }

  lemma Height(v: real, w: real, b: real)
    requires w > 0.0 && Times(b - 0.5, w) < Times(v, w) < Times(b + 0.5, w)
    ensures b - 0.5 < v < b + 0.5
  {
    hide *;
    if v >= b + 0.5 {
      TimesMonoLeft(b + 0.5, v, w);
    }
    if v <= b - 0.5 {
      TimesMonoLeft(v, b - 0.5, w);
    }
  }

  lemma UnitRange(t: real, w: real)
    requires w > 0.0 && 0.0 <= Times(t, w) <= w
    ensures 0.0 <= t <= 1.0
  {
    hide *;
    UnitTimes(w);
    TimesIs(0.0, w);
    if t > 1.0 {
      TimesLess(1.0, t, w);
    }
    if t < 0.0 {
      TimesLess(t, 0.0, w);
    }
  }

  lemma FirstColumn(dx: int, dy: int, j: int)
    requires 0 <= dy <= dx
    ensures Meets(dx, dy, 0, j) <==> j == 0
  {
    if t :| Inside(dx, dy, 0, j, t) {
      ScaleMono(t, 0.0, dy as real);
      ScaleMono(t, dy as real, dx as real);
    }
    assert Inside(dx, dy, 0, 0, 0.0);
  }

  lemma LastColumn(dx: int, dy: int, j: int)
    requires 0 <= dy <= dx
    ensures Meets(dx, dy, dx, j) <==> j == dy
  {
    if t :| Inside(dx, dy, dx, j, t) {
      var w, h := dx as real, dy as real;
      assert t * w == w - (1.0 - t) * w && t * h == h - (1.0 - t) * h;
      ScaleMono(1.0 - t, 0.0, h);
      ScaleMono(1.0 - t, h, w);
    }
    assert Inside(dx, dy, dx, dy, 1.0);
  }

  lemma NoColumn(dx: int, dy: int, i: int, j: int)
    requires 0 <= dy <= dx && Meets(dx, dy, i, j)
    ensures 0 <= i <= dx
  {
    var t :| Inside(dx, dy, i, j, t);
    TimesMonoLeft(0.0, t, dx as real);
    TimesMonoLeft(t, 1.0, dx as real);
    var u := Times(t, dx as real);
    assert 0.0 <= u <= dx as real;
  }

  /** In an inner column the segment meets the current row unless it has just left it, and the next row if it
      gets there before the column ends. */
  lemma InnerColumn(dx: int, dy: int, i: int, y: int, j: int)
    requires 0 <= dy <= dx && 0 < i < dx
    requires -dx <= Eps(dx, dy, i, y) <= dx && (Eps(dx, dy, i, y) == -dx ==> dy > 0)
    ensures Meets(dx, dy, i, j) <==>
      (j == y && Eps(dx, dy, i, y) < dx) || (j == y + 1 && Eps(dx, dy, i, y) + 2 * dy > dx)
  {
    if Meets(dx, dy, i, j) {
      MeetsCrosses(dx, dy, i, j);
    }
    if Crosses(dx, dy, i, j) {
      CrossesMeets(dx, dy, i, j);
    }
    RowGap(dx, dy, i, y, j);
  }

  lemma RowGap(dx: int, dy: int, i: int, y: int, j: int)
    requires dx > 0
    ensures j == y + 1 ==> Eps(dx, dy, i, j) == Eps(dx, dy, i, y) - 2 * dx
    ensures j < y ==> Eps(dx, dy, i, j) >= Eps(dx, dy, i, y) + 2 * dx
    ensures j > y + 1 ==> Eps(dx, dy, i, j) <= Eps(dx, dy, i, y) - 4 * dx
  {
    hide Eps;
    EpsShift(dx, dy, i, y, j - y);
    AwayFromZero(dx, j - y);
    AwayFromZero(dx, j - y - 1);
    assert dx * (j - y - 1) == dx * (j - y) - dx;
  }

  lemma EpsShift(dx: int, dy: int, i: int, y: int, n: int)
    ensures Eps(dx, dy, i, y + n) == Eps(dx, dy, i, y) - 2 * (dx * n)
  {
    assert 2 * dx * (y + n) == 2 * dx * y + 2 * (dx * n);
  }
}
