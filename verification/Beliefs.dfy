/** Beliefs, the min-ratio of two beliefs, and sublinear value functions. */
module Beliefs {
  import opened RealArith
  import opened SparseVectors

  /** The tolerance with which bounds are pruned. */
  const BOUNDS_PRUNE_EPS: real := 0.0000000001

  /** A probability distribution over `n` states that stores its positive entries. */
  ghost predicate Belief(b: CVector, n: nat) {
    && b.Valid() && b.size == n
    && (forall e | e in b.data :: e.value > 0.0)
    && Sum(Dense(b), n) == 1.0
  }

  ghost function Sum(u: seq<real>, n: nat): real
    requires n <= |u|
  {
    if n == 0 then 0.0 else Sum(u, n - 1) + u[n - 1]
  }

  lemma {:induction false} SumMono(u: seq<real>, v: seq<real>, n: nat)
    requires n <= |u| && n <= |v| && forall k | 0 <= k < n :: u[k] <= v[k]
    ensures Sum(u, n) <= Sum(v, n)
    ensures (exists k :: 0 <= k < n && u[k] < v[k]) ==> Sum(u, n) < Sum(v, n)
  {
    if n > 0 {
      SumMono(u, v, n - 1);
    }
  }

  lemma {:induction false} SumZero(u: seq<real>, n: nat)
    requires n <= |u| && forall k | 0 <= k < n :: u[k] == 0.0
    ensures Sum(u, n) == 0.0
  {
    if n > 0 {
      SumZero(u, n - 1);
    }
  }

  /** The stored indices of a belief are those of positive probability. */
  lemma BeliefSign(b: CVector, n: nat, k: nat)
    requires Belief(b, n)
    ensures b.Get(k) >= 0.0
    ensures b.Get(k) > 0.0 <==> b.Has(k)
    ensures b.Has(k) ==> k < n
  {
    if i :| 0 <= i < |b.data| && b.data[i].index == k {
      AtStored(b.data, i);
      assert b.data[i] in b.data;
    } else {
      AtMissing(b.data, k);
    }
  }

  lemma BeliefSize(b: CVector, n: nat)
    requires Belief(b, n)
    ensures b.Valid() && b.size == n
  {
  }

  lemma BeliefFilled(b: CVector, n: nat)
    requires Belief(b, n)
    ensures |b.data| > 0 && b.Has(b.data[0].index) && b.data[0].index < n
  {
    if b.data == [] {
      SumZero(Dense(b), n);
      assert false;
    }
    assert b.data[0] in b.data;
  }

  lemma EntryOf(b: CVector, n: nat, i: nat)
    requires Belief(b, n) && i < |b.data|
    ensures b.Get(b.data[i].index) == b.data[i].value > 0.0 && b.Has(b.data[i].index) && b.data[i].index < n
  {
    AtStored(b.data, i);
    assert b.data[i] in b.data;
  }

  // ---------- Min-ratios ----------

  /** The least ratio `b(k) / c(k)` over the first `i` entries of `c`. */
  ghost function RatioUpTo(b: CVector, c: CVector, i: nat): real
    requires 1 <= i <= |c.data| && forall e | e in c.data :: e.value > 0.0
  {
    assert c.data[i - 1] in c.data;
    var q := Over(b.Get(c.data[i - 1].index), c.data[i - 1].value);
    if i == 1 then q else Min(RatioUpTo(b, c, i - 1), q)
  }

  /** The least ratio `b(k) / c(k)` over the states of positive probability in `c`. */
  ghost function Ratio(b: CVector, c: CVector, n: nat): real
    requires Belief(c, n)
  {
    BeliefFilled(c, n);
    RatioUpTo(b, c, |c.data|)
  }

  lemma {:induction false} RatioUpToBelow(b: CVector, c: CVector, n: nat, i: nat, j: nat)
    requires Belief(c, n) && j < i <= |c.data|
    ensures Times(RatioUpTo(b, c, i), c.data[j].value) <= b.Get(c.data[j].index)
  {
    assert c.data[j] in c.data && c.data[i - 1] in c.data;
    hide At, Times, Over;
    if j == i - 1 {
      var q := Over(b.Get(c.data[j].index), c.data[j].value);
      DivTimes(b.Get(c.data[j].index), c.data[j].value);
      TimesMonoLeft(RatioUpTo(b, c, i), q, c.data[j].value);
    } else {
      RatioUpToBelow(b, c, n, i - 1, j);
      TimesMonoLeft(RatioUpTo(b, c, i), RatioUpTo(b, c, i - 1), c.data[j].value);
    }
  }

  lemma {:induction false} RatioUpToTight(b: CVector, c: CVector, n: nat, i: nat) returns (j: nat)
    requires Belief(c, n) && 1 <= i <= |c.data|
    ensures j < i && Times(RatioUpTo(b, c, i), c.data[j].value) == b.Get(c.data[j].index)
  {
    assert c.data[i - 1] in c.data;
    hide At, Times, Over;
    if i > 1 && RatioUpTo(b, c, i) == RatioUpTo(b, c, i - 1) {
      j := RatioUpToTight(b, c, n, i - 1);
    } else {
      j := i - 1;
      DivTimes(b.Get(c.data[j].index), c.data[j].value);
    }
  }

  /** Scaled by the ratio, `c` fits under `b`. */
  lemma RatioBelow(b: CVector, c: CVector, n: nat, k: nat)
    requires Belief(b, n) && Belief(c, n)
    ensures Times(Ratio(b, c, n), c.Get(k)) <= b.Get(k)
  {
    BeliefSign(b, n, k);
    if j: nat :| j < |c.data| && c.data[j].index == k {
      RatioUpToBelow(b, c, n, |c.data|, j);
      AtStored(c.data, j);
    } else {
      AtMissing(c.data, k);
      TimesIs(Ratio(b, c, n), 0.0);
    }
  }

  /** And it touches `b` in some state. */
  lemma RatioTight(b: CVector, c: CVector, n: nat) returns (k: nat)
    requires Belief(b, n) && Belief(c, n)
    ensures c.Get(k) > 0.0 && Times(Ratio(b, c, n), c.Get(k)) == b.Get(k)
  {
    BeliefFilled(c, n);
    var j := RatioUpToTight(b, c, n, |c.data|);
    k := c.data[j].index;
    EntryOf(c, n, j);
  }

  /** The ratio of two beliefs is at most 1. */
  lemma RatioRange(b: CVector, c: CVector, n: nat)
    requires Belief(b, n) && Belief(c, n)
    ensures 0.0 <= Ratio(b, c, n) <= 1.0
  {
    var r := Ratio(b, c, n);
    var k := RatioTight(b, c, n);
    BeliefSign(b, n, k);
    TimesIs(0.0, c.Get(k));
    hide Ratio, At, Times;
    TimesCancel(0.0, r, c.Get(k));
    if r > 1.0 {
      forall i | 0 <= i < n
        ensures Dense(c)[i] <= Dense(b)[i]
        ensures i == k ==> Dense(c)[i] < Dense(b)[i]
      {
        RatioBelow(b, c, n, i);
        BeliefSign(c, n, i);
        UnitTimes(c.Get(i));
        TimesMonoLeft(1.0, r, c.Get(i));
        if i == k {
          TimesLess(1.0, r, c.Get(i));
        }
      }
      BeliefSign(c, n, k);
      assert Dense(c)[k] < Dense(b)[k];
      SumMono(Dense(c), Dense(b), n);
      assert false;
    }
  }

  /** A state that `c` has and `b` has not makes the ratio vanish. */
  lemma RatioVanishes(b: CVector, c: CVector, n: nat, k: nat)
    requires Belief(b, n) && Belief(c, n) && c.Has(k) && !b.Has(k)
    ensures Ratio(b, c, n) == 0.0
  {
    RatioBelow(b, c, n, k);
    RatioRange(b, c, n);
    BeliefSign(c, n, k);
    BeliefSign(b, n, k);
    TimesIs(0.0, c.Get(k));
    TimesCancel(Ratio(b, c, n), 0.0, c.Get(k));
  }

  /** Min-ratios are submultiplicative: going through `c` never gives a larger ratio. */
  lemma RatioChain(b: CVector, c: CVector, d: CVector, n: nat)
    requires Belief(b, n) && Belief(c, n) && Belief(d, n)
    ensures Times(Ratio(b, c, n), Ratio(c, d, n)) <= Ratio(b, d, n)
  {
    var bc, cd, bd := Ratio(b, c, n), Ratio(c, d, n), Ratio(b, d, n);
    var k := RatioTight(b, d, n);
    RatioBelow(b, c, n, k);
    RatioBelow(c, d, n, k);
    RatioRange(b, c, n);
    hide Ratio, At, Times;
    TimesMono(bc, Times(cd, d.Get(k)), c.Get(k));
    TimesAssoc(bc, cd, d.Get(k));
    TimesCancel(Times(bc, cd), bd, d.Get(k));
  }

  // ---------- Sublinear value functions ----------

  ghost predicate NonNegative(u: seq<real>) {
    forall k | 0 <= k < |u| :: u[k] >= 0.0
  }

  function Plus(u: seq<real>, v: seq<real>): (w: seq<real>)
    requires |u| == |v|
    ensures |w| == |u| && forall k | 0 <= k < |u| :: w[k] == u[k] + v[k]
  {
    seq(|u|, k requires 0 <= k < |u| => u[k] + v[k])
  }

  function Scale(r: real, u: seq<real>): (w: seq<real>)
    ensures |w| == |u| && forall k | 0 <= k < |u| :: w[k] == Times(r, u[k])
  {
    seq(|u|, k requires 0 <= k < |u| => Times(r, u[k]))
  }

  /** The belief that is sure of state `k`. */
  function Corner(k: nat, n: nat): (w: seq<real>)
    ensures |w| == n && forall i | 0 <= i < n :: w[i] == if i == k then 1.0 else 0.0
  {
    seq(n, i => if i == k then 1.0 else 0.0)
  }

  /** A value function on unnormalised beliefs that is subadditive and scales with its argument, as every upper
      envelope of linear functions is. */
  ghost predicate Sublinear(value: seq<real> -> real, n: nat) {
    && (forall u, v | |u| == |v| == n && NonNegative(u) && NonNegative(v) ::
          value(Plus(u, v)) <= value(u) + value(v))
    && (forall r, u | r >= 0.0 && |u| == n && NonNegative(u) :: value(Scale(r, u)) == Times(r, value(u)))
  }

  /** The corner values are upper bounds. */
  ghost predicate CornersValid(value: seq<real> -> real, corners: seq<real>, n: nat) {
    |corners| == n && forall k | 0 <= k < n :: value(Corner(k, n)) <= corners[k]
  }

  /** `r` times `w` is nowhere above `u`. */
  ghost predicate FitsUnder(r: real, w: seq<real>, u: seq<real>) {
    |u| == |w| && forall k | 0 <= k < |u| :: Times(r, w[k]) <= u[k]
  }

  ghost function Truncated(u: seq<real>, i: nat): (w: seq<real>)
    ensures |w| == |u| && forall k | 0 <= k < |u| :: w[k] == if k < i then u[k] else 0.0
  {
    seq(|u|, k requires 0 <= k < |u| => if k < i then u[k] else 0.0)
  }

  /** A sublinear value lies below any plane through points above its corner values. */
  lemma {:induction false} BelowCorners(value: seq<real> -> real, u: seq<real>, corners: seq<real>, i: nat)
    requires i <= |u| == |corners| && Sublinear(value, |u|) && NonNegative(u)
    requires CornersValid(value, corners, |u|)
    ensures value(Truncated(u, i)) <= Dot(u, corners, i)
  {
    var n := |u|;
    if i == 0 {
      assert Truncated(u, 0) == Scale(0.0, Truncated(u, 0)) by {
        TimesIs(0.0, 0.0);
      }
      TimesIs(0.0, value(Truncated(u, 0)));
      assert value(Scale(0.0, Truncated(u, 0))) == Times(0.0, value(Truncated(u, 0)));
    } else {
      BelowCorners(value, u, corners, i - 1);
      var part := Scale(u[i - 1], Corner(i - 1, n));
      assert value(part) == Times(u[i - 1], value(Corner(i - 1, n)));
      TimesMono(u[i - 1], value(Corner(i - 1, n)), corners[i - 1]);
      TruncatedStep(u, i);
      assert NonNegative(part) by { TruncatedStep(u, i); }
      assert value(Plus(Truncated(u, i - 1), part)) <= value(Truncated(u, i - 1)) + value(part);
      TimesIs(u[i - 1], corners[i - 1]);
    }
  }

  lemma TruncatedStep(u: seq<real>, i: nat)
    requires 1 <= i <= |u| && NonNegative(u)
    ensures Truncated(u, i) == Plus(Truncated(u, i - 1), Scale(u[i - 1], Corner(i - 1, |u|)))
    ensures NonNegative(Scale(u[i - 1], Corner(i - 1, |u|)))
  {
    UnitTimes(u[i - 1]);
    TimesIs(u[i - 1], 0.0);
    TimesIs(u[i - 1], 1.0);
  }

  ghost function Remainder(u: seq<real>, r: real, w: seq<real>): (d: seq<real>)
    requires |u| == |w|
    ensures |d| == |u| && forall k | 0 <= k < |u| :: d[k] == u[k] - Times(r, w[k])
  {
    seq(|u|, k requires 0 <= k < |u| => u[k] - Times(r, w[k]))
  }

  lemma {:induction false} DotRemainder(u: seq<real>, r: real, w: seq<real>, x: seq<real>, n: nat)
    requires n <= |u| == |w| == |x|
    ensures Dot(Remainder(u, r, w), x, n) == Dot(u, x, n) - Times(r, Dot(w, x, n))
  {
    if n == 0 {
      TimesIs(r, 0.0);
    } else {
      DotRemainder(u, r, w, x, n - 1);
      RemainderTerm(u[n - 1], r, w[n - 1], x[n - 1], Dot(w, x, n - 1));
    }
  }

  lemma RemainderTerm(u: real, r: real, w: real, x: real, dot: real)
    ensures (u - Times(r, w)) * x + (0.0 - Times(r, dot)) == u * x - Times(r, dot + w * x)
  {
    assert (u - r * w) * x == u * x - r * w * x;
    assert r * (dot + w * x) == r * dot + r * (w * x);
    assert r * w * x == r * (w * x);
  }

  /** Splitting a belief into a multiple of a known point and the rest bounds its value: if the point fits under
      the belief, the value is at most that multiple of the point's value plus the corner plane on the rest. */
  lemma PointBounds(value: seq<real> -> real, u: seq<real>, r: real, w: seq<real>, v: real, corners: seq<real>)
    requires |u| == |w| == |corners| && Sublinear(value, |u|) && NonNegative(w) && r >= 0.0
    requires FitsUnder(r, w, u)
    requires CornersValid(value, corners, |u|)
    requires value(w) <= v
    ensures value(u) <= Dot(u, corners, |u|) + Times(r, v - Dot(w, corners, |u|))
  {
    hide Dot, Times, Sublinear, CornersValid, FitsUnder, Plus, Scale, Remainder, Truncated, Corner, NonNegative;
    var n, rest := |u|, Remainder(u, r, w);
    Split(u, r, w);
    AtMostSum(value, n, Scale(r, w), rest);
    AtScale(value, n, r, w);
    TimesMono(r, value(w), v);
    BelowCorners(value, rest, corners, n);
    DotRemainder(u, r, w, corners, n);
    TimesMinus(r, v, Dot(w, corners, n));
  }

  lemma AtMostSum(value: seq<real> -> real, n: nat, u: seq<real>, v: seq<real>)
    requires Sublinear(value, n) && |u| == |v| == n && NonNegative(u) && NonNegative(v)
    ensures value(Plus(u, v)) <= value(u) + value(v)
  {
  }

  lemma AtScale(value: seq<real> -> real, n: nat, r: real, u: seq<real>)
    requires Sublinear(value, n) && r >= 0.0 && |u| == n && NonNegative(u)
    ensures value(Scale(r, u)) == Times(r, value(u))
  {
  }

  lemma Split(u: seq<real>, r: real, w: seq<real>)
    requires |u| == |w| && NonNegative(w) && r >= 0.0
    requires FitsUnder(r, w, u)
    ensures u == Plus(Scale(r, w), Remainder(u, r, w))
    ensures NonNegative(Scale(r, w)) && NonNegative(Remainder(u, r, w))
    ensures Truncated(Remainder(u, r, w), |u|) == Remainder(u, r, w)
  {
    hide Times;
    forall k | 0 <= k < |u|
      ensures Scale(r, w)[k] >= 0.0
    {
      TimesMono(r, 0.0, w[k]);
      TimesIs(r, 0.0);
    }
  }
}
