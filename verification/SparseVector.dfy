/** Compressed vectors: sorted lists of (index, value) entries, and the two-cursor loops over them. */
module SparseVectors {
  import opened RealArith

  datatype CEntry = CEntry(index: nat, value: real)

  datatype CVector = CVector(size: nat, data: seq<CEntry>) {

    /** Indices are in range and strictly increasing. */
    ghost predicate Valid() {
      Sorted(data) && forall e | e in data :: e.index < size
    }

    /** The value at index `k`. */
    ghost function Get(k: nat): real {
      At(data, k)
    }

    /** The stored indices. */
    ghost predicate Has(k: nat) {
      Stored(data, k)
    }
  }

  ghost predicate Sorted(d: seq<CEntry>) {
    forall i, j | 0 <= i < j < |d| :: d[i].index < d[j].index
  }

  ghost predicate Stored(d: seq<CEntry>, k: nat) {
    exists i :: 0 <= i < |d| && d[i].index == k
  }

  function Part(e: CEntry, k: nat): real {
    if e.index == k then e.value else 0.0
  }

  /** The dense value that a list of entries gives to index `k`. */
  ghost function At(d: seq<CEntry>, k: nat): real {
    if d == [] then 0.0 else Part(d[0], k) + At(d[1..], k)
  }

  lemma {:induction false} AtConcat(a: seq<CEntry>, b: seq<CEntry>, k: nat)
    ensures At(a + b, k) == At(a, k) + At(b, k)
  {
    if a == [] {
      assert a + b == b;
    } else {
      assert (a + b)[1..] == a[1..] + b;
      AtConcat(a[1..], b, k);
    }
  }

  lemma AtPush(d: seq<CEntry>, e: CEntry, k: nat)
    ensures At(d + [e], k) == At(d, k) + Part(e, k)
  {
    AtConcat(d, [e], k);
    assert [e][1..] == [];
  }

  lemma AtSuffix(d: seq<CEntry>, i: nat, k: nat)
    requires i < |d|
    ensures At(d[i..], k) == Part(d[i], k) + At(d[i + 1..], k)
  {
    assert d[i..][1..] == d[i + 1..];
  }

  lemma AtPrefix(d: seq<CEntry>, i: nat, k: nat)
    requires i < |d|
    ensures At(d[..i + 1], k) == At(d[..i], k) + Part(d[i], k)
  {
    assert d[..i + 1] == d[..i] + [d[i]];
    AtPush(d[..i], d[i], k);
  }

  lemma {:induction false} AtMissing(d: seq<CEntry>, k: nat)
    requires !Stored(d, k)
    ensures At(d, k) == 0.0
  {
    if d != [] {
      assert d[0].index != k;
      forall i | 0 <= i < |d[1..]|
        ensures d[1..][i].index != k
      {
        assert d[1..][i] == d[i + 1];
      }
      AtMissing(d[1..], k);
    }
  }

  lemma AtStored(d: seq<CEntry>, i: nat)
    requires Sorted(d) && i < |d|
    ensures At(d, d[i].index) == d[i].value
  {
    var k := d[i].index;
    assert d == d[..i] + d[i..];
    AtConcat(d[..i], d[i..], k);
    AtSuffix(d, i, k);
    AtMissing(d[..i], k);
    AtMissing(d[i + 1..], k);
  }

  lemma StoredStep(d: seq<CEntry>, j: nat)
    requires Sorted(d) && j < |d|
    ensures !Stored(d[..j], d[j].index)
    ensures forall i: nat :: Stored(d[..j + 1], i) <==> Stored(d[..j], i) || i == d[j].index
  {
    var longer, shorter := d[..j + 1], d[..j];
    forall i: nat
      ensures Stored(longer, i) <==> Stored(shorter, i) || i == d[j].index
    {
      if Stored(longer, i) {
        var k :| 0 <= k < |longer| && longer[k].index == i;
        assert k < j ==> shorter[k].index == i;
      }
      if Stored(shorter, i) {
        var k :| 0 <= k < |shorter| && shorter[k].index == i;
        assert longer[k].index == i;
      }
      assert longer[j].index == d[j].index;
    }
  }

  /** The value at `k`, by the search that stops at the first index not below `k`. */
  method Lookup(x: CVector, k: nat) returns (value: real)
    requires x.Valid()
    ensures value == x.Get(k)
  {
    for i := 0 to |x.data|
      invariant forall j | 0 <= j < i :: x.data[j].index < k
    {
      if x.data[i].index >= k {
        if x.data[i].index == k {
          AtStored(x.data, i);
          return x.data[i].value;
        } else {
          AtMissing(x.data, k);
          return 0.0;
        }
      }
    }
    AtMissing(x.data, k);
    return 0.0;
  }

  // ---------- Merges ----------

  /** All entries of `r` come before entry `i` of `d`. */
  ghost predicate Ahead(r: seq<CEntry>, d: seq<CEntry>, i: nat) {
    i < |d| ==> forall j | 0 <= j < |r| :: r[j].index < d[i].index
  }

  lemma AheadStep(r: seq<CEntry>, v: real, d: seq<CEntry>, i: nat)
    requires Sorted(d) && i < |d| && Ahead(r, d, i)
    ensures Ahead(r + [CEntry(d[i].index, v)], d, i + 1)
  {
  }

  function Signed(minus: bool, v: real): real {
    if minus then -v else v
  }

  /** What has been merged and what remains add up to `x + y` or `x - y`. */
  ghost predicate Merging(x: CVector, y: CVector, minus: bool, xi: nat, yi: nat, r: seq<CEntry>) {
    && xi <= |x.data| && yi <= |y.data| && Sorted(r)
    && Ahead(r, x.data, xi) && Ahead(r, y.data, yi)
    && (forall e | e in r :: e.index < x.size)
    && (forall k ::
          At(r, k) + At(x.data[xi..], k) + Signed(minus, At(y.data[yi..], k)) == x.Get(k) + Signed(minus, y.Get(k)))
  }

  lemma MergeX(x: CVector, y: CVector, minus: bool, xi: nat, yi: nat, r: seq<CEntry>)
    requires x.Valid() && y.Valid() && x.size == y.size && Merging(x, y, minus, xi, yi, r)
    requires xi < |x.data| && (yi < |y.data| ==> x.data[xi].index < y.data[yi].index)
    ensures Merging(x, y, minus, xi + 1, yi, r + [x.data[xi]])
  {
    var e := x.data[xi];
    AheadStep(r, e.value, x.data, xi);
    forall k: nat
      ensures At(r + [e], k) + At(x.data[xi + 1..], k) == At(r, k) + At(x.data[xi..], k)
    {
      AtPush(r, e, k);
      AtSuffix(x.data, xi, k);
    }
  }

  lemma MergeY(x: CVector, y: CVector, minus: bool, xi: nat, yi: nat, r: seq<CEntry>, v: real)
    requires x.Valid() && y.Valid() && x.size == y.size && Merging(x, y, minus, xi, yi, r)
    requires yi < |y.data| && (xi < |x.data| ==> y.data[yi].index < x.data[xi].index)
    requires v == Signed(minus, y.data[yi].value)
    ensures Merging(x, y, minus, xi, yi + 1, r + [CEntry(y.data[yi].index, v)])
  {
    var e := CEntry(y.data[yi].index, v);
    AheadStep(r, v, y.data, yi);
    forall k: nat
      ensures At(r + [e], k) + Signed(minus, At(y.data[yi + 1..], k)) == At(r, k) + Signed(minus, At(y.data[yi..], k))
    {
      AtPush(r, e, k);
      AtSuffix(y.data, yi, k);
    }
  }

  lemma MergeBoth(x: CVector, y: CVector, minus: bool, xi: nat, yi: nat, r: seq<CEntry>, v: real)
    requires x.Valid() && y.Valid() && x.size == y.size && Merging(x, y, minus, xi, yi, r)
    requires xi < |x.data| && yi < |y.data| && x.data[xi].index == y.data[yi].index
    requires v == x.data[xi].value + Signed(minus, y.data[yi].value)
    ensures Merging(x, y, minus, xi + 1, yi + 1, r + [CEntry(x.data[xi].index, v)])
  {
    var e := CEntry(x.data[xi].index, v);
    AheadStep(r, v, x.data, xi);
    AheadStep(r, v, y.data, yi);
    forall k: nat
      ensures At(r + [e], k) + At(x.data[xi + 1..], k) + Signed(minus, At(y.data[yi + 1..], k))
           == At(r, k) + At(x.data[xi..], k) + Signed(minus, At(y.data[yi..], k))
    {
      AtPush(r, e, k);
      AtSuffix(x.data, xi, k);
      AtSuffix(y.data, yi, k);
    }
  }

  lemma MergeDone(x: CVector, y: CVector, minus: bool, r: seq<CEntry>)
    requires x.size == y.size && Merging(x, y, minus, |x.data|, |y.data|, r)
    ensures forall k :: At(r, k) == x.Get(k) + Signed(minus, y.Get(k))
  {
    forall k: nat
      ensures At(r, k) == x.Get(k) + Signed(minus, y.Get(k))
    {
      assert x.data[|x.data|..] == [] && y.data[|y.data|..] == [];
      assert At(r, k) + At(x.data[|x.data|..], k) + Signed(minus, At(y.data[|y.data|..], k))
          == x.Get(k) + Signed(minus, y.Get(k));
    }
  }

  method Add(x: CVector, y: CVector) returns (result: CVector)
    requires x.Valid() && y.Valid() && x.size == y.size
    ensures result.Valid() && result.size == x.size
    ensures forall k :: result.Get(k) == x.Get(k) + y.Get(k)
  {
    var r: seq<CEntry>, xi, yi := [], 0, 0;
    hide Merging, At, CVector.Valid;
    StartMerge(x, y, false);
    while xi < |x.data| && yi < |y.data|
      invariant xi <= |x.data| && yi <= |y.data| && Merging(x, y, false, xi, yi, r)
      decreases |x.data| + |y.data| - xi - yi
    {
      if x.data[xi].index < y.data[yi].index {
        MergeX(x, y, false, xi, yi, r);
        r, xi := r + [x.data[xi]], xi + 1;
      } else if x.data[xi].index == y.data[yi].index {
        MergeBoth(x, y, false, xi, yi, r, x.data[xi].value + y.data[yi].value);
        r := r + [CEntry(x.data[xi].index, x.data[xi].value + y.data[yi].value)];
        xi, yi := xi + 1, yi + 1;
      } else {
        MergeY(x, y, false, xi, yi, r, y.data[yi].value);
        r, yi := r + [CEntry(y.data[yi].index, y.data[yi].value)], yi + 1;
      }
    }
    while xi < |x.data|
      invariant xi <= |x.data| && yi <= |y.data| && Merging(x, y, false, xi, yi, r)
      invariant xi < |x.data| ==> yi == |y.data|
    {
      MergeX(x, y, false, xi, yi, r);
      r, xi := r + [x.data[xi]], xi + 1;
    }
    while yi < |y.data|
      invariant yi <= |y.data| && Merging(x, y, false, xi, yi, r)
    {
      MergeY(x, y, false, xi, yi, r, y.data[yi].value);
      r, yi := r + [CEntry(y.data[yi].index, y.data[yi].value)], yi + 1;
    }
    result := CVector(x.size, r);
    MergeEnd(x, y, false, r);
  }

  lemma StartMerge(x: CVector, y: CVector, minus: bool)
    ensures Merging(x, y, minus, 0, 0, [])
  {
    assert x.data[0..] == x.data && y.data[0..] == y.data;
  }

  lemma MergeEnd(x: CVector, y: CVector, minus: bool, r: seq<CEntry>)
    requires x.size == y.size && Merging(x, y, minus, |x.data|, |y.data|, r)
    ensures CVector(x.size, r).Valid()
    ensures forall k :: CVector(x.size, r).Get(k) == x.Get(k) + Signed(minus, y.Get(k))
  {
    MergeDone(x, y, minus, r);
  }

  method Subtract(x: CVector, y: CVector) returns (result: CVector)
    requires x.Valid() && y.Valid() && x.size == y.size
    ensures result.Valid() && result.size == x.size
    ensures forall k :: result.Get(k) == x.Get(k) - y.Get(k)
  {
    var r: seq<CEntry>, xi, yi := [], 0, 0;
    hide Merging, At, CVector.Valid;
    StartMerge(x, y, true);
    while xi < |x.data| && yi < |y.data|
      invariant xi <= |x.data| && yi <= |y.data| && Merging(x, y, true, xi, yi, r)
      decreases |x.data| + |y.data| - xi - yi
    {
      if x.data[xi].index < y.data[yi].index {
        MergeX(x, y, true, xi, yi, r);
        r, xi := r + [x.data[xi]], xi + 1;
      } else if x.data[xi].index == y.data[yi].index {
        MergeBoth(x, y, true, xi, yi, r, x.data[xi].value - y.data[yi].value);
        r := r + [CEntry(x.data[xi].index, x.data[xi].value - y.data[yi].value)];
        xi, yi := xi + 1, yi + 1;
      } else {
        MergeY(x, y, true, xi, yi, r, -y.data[yi].value);
        r, yi := r + [CEntry(y.data[yi].index, -y.data[yi].value)], yi + 1;
      }
    }
    while xi < |x.data|
      invariant xi <= |x.data| && yi <= |y.data| && Merging(x, y, true, xi, yi, r)
      invariant xi < |x.data| ==> yi == |y.data|
    {
      MergeX(x, y, true, xi, yi, r);
      r, xi := r + [x.data[xi]], xi + 1;
    }
    while yi < |y.data|
      invariant yi <= |y.data| && Merging(x, y, true, xi, yi, r)
    {
      MergeY(x, y, true, xi, yi, r, -y.data[yi].value);
      r, yi := r + [CEntry(y.data[yi].index, -y.data[yi].value)], yi + 1;
    }
    result := CVector(x.size, r);
    MergeEnd(x, y, true, r);
  }

  // ---------- Products ----------

  /** The entries of `d` after the first `i` come after index `k`. */
  ghost predicate After(d: seq<CEntry>, i: nat, k: nat) {
    forall j | i <= j < |d| :: k < d[j].index
  }

  ghost predicate Before(d: seq<CEntry>, i: nat, k: nat) {
    forall j | 0 <= j < i && j < |d| :: d[j].index < k
  }

  lemma NotStored(d: seq<CEntry>, i: nat, k: nat)
    requires Before(d, i, k) && After(d, i, k)
    ensures !Stored(d, k) && At(d, k) == 0.0
  {
    AtMissing(d, k);
  }

  /** Moves the cursor `yi` to the first entry of `y` at or after index `k`. */
  method Advance(y: CVector, start: nat, k: nat) returns (yi: nat)
    requires y.Valid() && start <= |y.data| && Before(y.data, start, k)
    ensures start <= yi <= |y.data| && Before(y.data, yi, k)
    ensures yi < |y.data| ==> y.data[yi].index >= k
    ensures y.Get(k) == if yi < |y.data| && y.data[yi].index == k then y.data[yi].value else 0.0
    ensures y.Has(k) <==> yi < |y.data| && y.data[yi].index == k
  {
    yi := start;
    while yi < |y.data| && y.data[yi].index < k
      invariant start <= yi <= |y.data| && Before(y.data, yi, k)
    {
      yi := yi + 1;
    }
    if yi < |y.data| && y.data[yi].index == k {
      AtStored(y.data, yi);
    } else {
      NotStored(y.data, yi, k);
    }
  }

  /** The first `xi` entries of `x` have been multiplied into `r`. */
  ghost predicate Multiplied(x: CVector, y: CVector, xi: nat, r: seq<CEntry>) {
    && xi <= |x.data| && Sorted(r) && Ahead(r, x.data, xi)
    && (forall e | e in r :: e.index < x.size)
    && (forall k :: At(r, k) == Times(At(x.data[..xi], k), y.Get(k)))
  }

  lemma MultiplyPush(x: CVector, y: CVector, xi: nat, r: seq<CEntry>, v: real)
    requires x.Valid() && Multiplied(x, y, xi, r) && xi < |x.data|
    requires v == Times(x.data[xi].value, y.Get(x.data[xi].index))
    ensures Multiplied(x, y, xi + 1, r + [CEntry(x.data[xi].index, v)])
  {
    hide At, Times, Part;
    var e := CEntry(x.data[xi].index, v);
    AheadStep(r, v, x.data, xi);
    forall k: nat
      ensures At(r + [e], k) == Times(At(x.data[..xi + 1], k), y.Get(k))
    {
      AtPush(r, e, k);
      AtPrefix(x.data, xi, k);
      PartProduct(At(x.data[..xi], k), x.data[xi], y.Get(k), e, k);
    }
  }

  lemma PartProduct(before: real, xe: CEntry, yk: real, e: CEntry, k: nat)
    requires e.index == xe.index && (k == xe.index ==> e.value == Times(xe.value, yk))
    ensures Times(before + Part(xe, k), yk) == Times(before, yk) + Part(e, k)
  {
    Distribute(before, Part(xe, k), yk);
    ZeroTimes(0.0, yk);
  }

  lemma MultiplySkip(x: CVector, y: CVector, xi: nat, r: seq<CEntry>)
    requires x.Valid() && Multiplied(x, y, xi, r) && xi < |x.data| && y.Get(x.data[xi].index) == 0.0
    ensures Multiplied(x, y, xi + 1, r)
  {
    hide At, Times;
    var e := CEntry(x.data[xi].index, 0.0);
    TimesIs(x.data[xi].value, 0.0);
    forall k: nat
      ensures At(r, k) == Times(At(x.data[..xi + 1], k), y.Get(k))
    {
      AtPrefix(x.data, xi, k);
      PartProduct(At(x.data[..xi], k), x.data[xi], y.Get(k), e, k);
    }
  }

  /** The pointwise product. */
  method EMult(x: CVector, y: CVector) returns (result: CVector)
    requires x.Valid() && y.Valid() && x.size == y.size
    ensures result.Valid() && result.size == x.size
    ensures forall k :: result.Get(k) == x.Get(k) * y.Get(k)
  {
    var r: seq<CEntry>, xi, yi := [], 0, 0;
    StartMultiply(x, y);
    hide Multiplied, At, Times;
    while xi < |x.data|
      invariant xi <= |x.data| && yi <= |y.data| && Multiplied(x, y, xi, r)
      invariant xi < |x.data| ==> Before(y.data, yi, x.data[xi].index)
    {
      yi := Advance(y, yi, x.data[xi].index);
      if yi == |y.data| {
        NothingLeft(x, y, xi, r);
        return CVector(x.size, r);
      }
      if y.data[yi].index == x.data[xi].index {
        var v := x.data[xi].value * y.data[yi].value;
        TimesIs(x.data[xi].value, y.data[yi].value);
        MultiplyPush(x, y, xi, r, v);
        r := r + [CEntry(x.data[xi].index, v)];
      } else {
        MultiplySkip(x, y, xi, r);
      }
      xi := xi + 1;
    }
    NothingLeft(x, y, xi, r);
    result := CVector(x.size, r);
  }

  lemma StartMultiply(x: CVector, y: CVector)
    ensures Multiplied(x, y, 0, [])
  {
    forall k: nat
      ensures At(x.data[..0], k) * y.Get(k) == 0.0
    {
      assert x.data[..0] == [];
      ZeroTimes(0.0, y.Get(k));
    }
  }

  lemma {:induction false} NothingLeft(x: CVector, y: CVector, xi: nat, r: seq<CEntry>)
    requires x.Valid() && Multiplied(x, y, xi, r) && (xi < |x.data| ==> Before(y.data, |y.data|, x.data[xi].index))
    ensures CVector(x.size, r).Valid()
    ensures forall k :: CVector(x.size, r).Get(k) == x.Get(k) * y.Get(k)
    decreases |x.data| - xi
  {
    if xi < |x.data| {
      NotStored(y.data, |y.data|, x.data[xi].index);
      MultiplySkip(x, y, xi, r);
      NothingLeft(x, y, xi + 1, r);
    } else {
      assert x.data[..xi] == x.data;
    }
  }

  /** The dense form of a vector. */
  ghost function Dense(x: CVector): (d: seq<real>)
    ensures |d| == x.size
  {
    seq(x.size, (k: nat) => At(x.data, k))
  }

  /** The inner product of the first `n` elements. */
  function Dot(u: seq<real>, v: seq<real>, n: nat): real
    requires n <= |u| && n <= |v|
  {
    if n == 0 then 0.0 else Dot(u, v, n - 1) + u[n - 1] * v[n - 1]
  }

  function Weighted(d: seq<CEntry>, w: seq<real>): real
    requires forall e | e in d :: e.index < |w|
  {
    if d == [] then 0.0 else Times(d[0].value, w[d[0].index]) + Weighted(d[1..], w)
  }

  ghost function DotAt(d: seq<CEntry>, w: seq<real>, n: nat): real
    requires n <= |w|
  {
    if n == 0 then 0.0 else DotAt(d, w, n - 1) + At(d, n - 1) * w[n - 1]
  }

  lemma {:induction false} DotAtFirst(d: seq<CEntry>, w: seq<real>, n: nat)
    requires n <= |w| && d != []
    ensures DotAt(d, w, n) == DotAt(d[1..], w, n) + if d[0].index < n then d[0].value * w[d[0].index] else 0.0
  {
    if n > 0 {
      DotAtFirst(d, w, n - 1);
      var p, rest := Part(d[0], n - 1), At(d[1..], n - 1);
      assert (p + rest) * w[n - 1] == p * w[n - 1] + rest * w[n - 1];
      ZeroTimes(0.0, w[n - 1]);
    }
  }

  lemma {:induction false} DotAtEmpty(w: seq<real>, n: nat)
    requires n <= |w|
    ensures DotAt([], w, n) == 0.0
  {
    if n > 0 {
      DotAtEmpty(w, n - 1);
      ZeroTimes(0.0, w[n - 1]);
    }
  }

  lemma {:induction false} WeightedIsDotAt(d: seq<CEntry>, w: seq<real>)
    requires forall e | e in d :: e.index < |w|
    ensures Weighted(d, w) == DotAt(d, w, |w|)
  {
    if d == [] {
      DotAtEmpty(w, |w|);
    } else {
      DotAtFirst(d, w, |w|);
      WeightedIsDotAt(d[1..], w);
    }
  }

  lemma {:induction false} DotIsDotAt(x: CVector, w: seq<real>, n: nat)
    requires n <= x.size == |w|
    ensures Dot(Dense(x), w, n) == DotAt(x.data, w, n)
  {
    if n > 0 {
      DotIsDotAt(x, w, n - 1);
    }
  }

  /** Summing over the stored entries is the dense inner product. */
  lemma WeightedIsDot(x: CVector, w: seq<real>)
    requires x.Valid() && |w| == x.size
    ensures Weighted(x.data, w) == Dot(Dense(x), w, x.size)
  {
    WeightedIsDotAt(x.data, w);
    DotIsDotAt(x, w, x.size);
  }

  lemma WeightedStep(d: seq<CEntry>, w: seq<real>, i: nat)
    requires (forall e | e in d :: e.index < |w|) && i < |d|
    ensures Weighted(d[i..], w) == Times(d[i].value, w[d[i].index]) + Weighted(d[i + 1..], w)
  {
    assert d[i..][1..] == d[i + 1..];
    assert d[i] in d;
  }

  /** The inner product of a dense and a compressed vector. */
  method InnerProdDense(x: seq<real>, y: CVector) returns (sum: real)
    requires y.Valid() && |x| == y.size
    ensures sum == Dot(Dense(y), x, y.size)
  {
    sum := 0.0;
    assert y.data[0..] == y.data;
    for yi := 0 to |y.data|
      invariant sum + Weighted(y.data[yi..], x) == Weighted(y.data, x)
    {
      WeightedStep(y.data, x, yi);
      sum := sum + x[y.data[yi].index] * y.data[yi].value;
    }
    WeightedIsDot(y, x);
  }

  /** `sum` covers the first `xi` entries of `x`. */
  ghost predicate Summed(x: CVector, w: seq<real>, xi: nat, sum: real)
    requires x.Valid() && |w| == x.size
  {
    xi <= |x.data| && sum + Weighted(x.data[xi..], w) == Weighted(x.data, w)
  }

  lemma SumStep(x: CVector, y: CVector, xi: nat, sum: real, xv: real, yv: real)
    requires x.Valid() && x.size == y.size && Summed(x, Dense(y), xi, sum) && xi < |x.data|
    requires xv == x.data[xi].value && yv == y.Get(x.data[xi].index)
    ensures Summed(x, Dense(y), xi + 1, sum + Times(xv, yv))
    ensures yv == 0.0 ==> Summed(x, Dense(y), xi + 1, sum)
  {
    hide At, Times;
    WeightedStep(x.data, Dense(y), xi);
    assert x.data[xi] in x.data;
    TimesIs(xv, yv);
  }

  lemma SumDone(x: CVector, y: CVector, xi: nat, sum: real)
    requires x.Valid() && x.size == y.size && Summed(x, Dense(y), xi, sum)
    requires xi < |x.data| ==> Before(y.data, |y.data|, x.data[xi].index)
    ensures sum == Dot(Dense(x), Dense(y), x.size)
  {
    WeightedIsDot(x, Dense(y));
    RestIsZero(x, y, xi);
  }

  /** The inner product of two compressed vectors. */
  method InnerProd(x: CVector, y: CVector) returns (sum: real)
    requires x.Valid() && y.Valid() && x.size == y.size
    ensures sum == Dot(Dense(x), Dense(y), x.size)
  {
    sum := 0.0;
    assert x.data[0..] == x.data;
    var yi := 0;
    assert Summed(x, Dense(y), 0, sum);
    hide Summed, Times, Dot, At, Dense;
    for xi := 0 to |x.data|
      invariant Summed(x, Dense(y), xi, sum)
      invariant yi <= |y.data| && (xi < |x.data| ==> Before(y.data, yi, x.data[xi].index))
    {
      yi := Advance(y, yi, x.data[xi].index);
      if yi == |y.data| {
        SumDone(x, y, xi, sum);
        return;
      }
      SumStep(x, y, xi, sum, x.data[xi].value, y.Get(x.data[xi].index));
      if y.data[yi].index == x.data[xi].index {
        TimesIs(x.data[xi].value, y.data[yi].value);
        sum := sum + x.data[xi].value * y.data[yi].value;
      }
    }
    SumDone(x, y, |x.data|, sum);
  }

  lemma {:induction false} RestIsZero(x: CVector, y: CVector, xi: nat)
    requires x.Valid() && x.size == y.size && xi <= |x.data|
    requires xi < |x.data| ==> Before(y.data, |y.data|, x.data[xi].index)
    ensures Weighted(x.data[xi..], Dense(y)) == 0.0
    decreases |x.data| - xi
  {
    if xi < |x.data| {
      WeightedStep(x.data, Dense(y), xi);
      NotStored(y.data, |y.data|, x.data[xi].index);
      assert x.data[xi] in x.data;
      ZeroTimes(0.0, x.data[xi].value);
      RestIsZero(x, y, xi + 1);
    }
  }

  // ---------- Comparisons and masks ----------

  /** Index `k` has been passed by both cursors. */
  ghost predicate Passed(x: CVector, y: CVector, xi: nat, yi: nat, k: nat) {
    (xi < |x.data| ==> k < x.data[xi].index) && (yi < |y.data| ==> k < y.data[yi].index)
  }

  /** Everything before the cursors has been compared. */
  ghost predicate Compared(x: CVector, y: CVector, eps: real, xi: nat, yi: nat) {
    && xi <= |x.data| && yi <= |y.data|
    && (xi < |x.data| ==> Before(y.data, yi, x.data[xi].index))
    && (yi < |y.data| ==> Before(x.data, xi, y.data[yi].index))
    && forall k: nat | Passed(x, y, xi, yi, k) :: x.Get(k) >= y.Get(k) - eps
  }

  lemma StartCompare(x: CVector, y: CVector, eps: real)
    requires x.Valid() && y.Valid() && eps >= 0.0
    ensures Compared(x, y, eps, 0, 0)
  {
    forall k: nat | Passed(x, y, 0, 0, k)
      ensures x.Get(k) >= y.Get(k) - eps
    {
      NotStored(x.data, 0, k);
      NotStored(y.data, 0, k);
    }
  }

  lemma CompareStep(x: CVector, y: CVector, eps: real, xi: nat, yi: nat, xi': nat, yi': nat, k0: nat)
    requires x.Valid() && y.Valid() && eps >= 0.0 && Compared(x, y, eps, xi, yi)
    requires xi <= xi' <= |x.data| && yi <= yi' <= |y.data| && xi' <= xi + 1 && yi' <= yi + 1
    requires xi < |x.data| ==> if xi < xi' then x.data[xi].index == k0 else k0 < x.data[xi].index
    requires yi < |y.data| ==> if yi < yi' then y.data[yi].index == k0 else k0 < y.data[yi].index
    requires xi < xi' || yi < yi'
    requires x.Get(k0) >= y.Get(k0) - eps
    ensures Compared(x, y, eps, xi', yi')
  {
    hide At;
    forall k: nat | Passed(x, y, xi', yi', k)
      ensures x.Get(k) >= y.Get(k) - eps
    {
      if k < k0 {
        assert Passed(x, y, xi, yi, k);
      } else if k > k0 {
        NotStored(x.data, xi', k);
        NotStored(y.data, yi', k);
      }
    }
  }

  /** Whether `x` is nowhere more than `eps` below `y`. */
  method Dominates(x: CVector, y: CVector, eps: real) returns (dominates: bool)
    requires x.Valid() && y.Valid() && x.size == y.size && eps >= 0.0
    ensures dominates <==> forall k: nat :: x.Get(k) >= y.Get(k) - eps
  {
    var xi, yi := 0, 0;
    StartCompare(x, y, eps);
    hide At;
    while xi < |x.data| || yi < |y.data|
      invariant xi <= |x.data| && yi <= |y.data| && Compared(x, y, eps, xi, yi)
      decreases |x.data| + |y.data| - xi - yi
    {
      if xi < |x.data| && (yi == |y.data| || x.data[xi].index < y.data[yi].index) {
        var k := x.data[xi].index;
        AtStored(x.data, xi);
        NotStored(y.data, yi, k);
        assert x.Get(k) == x.data[xi].value && y.Get(k) == 0.0;
        if x.data[xi].value < -eps {
          return false;
        }
        CompareStep(x, y, eps, xi, yi, xi + 1, yi, k);
        xi := xi + 1;
      } else if xi < |x.data| && x.data[xi].index == y.data[yi].index {
        var k := x.data[xi].index;
        AtStored(x.data, xi);
        AtStored(y.data, yi);
        assert x.Get(k) == x.data[xi].value && y.Get(k) == y.data[yi].value;
        if x.data[xi].value < y.data[yi].value - eps {
          return false;
        }
        CompareStep(x, y, eps, xi, yi, xi + 1, yi + 1, k);
        xi, yi := xi + 1, yi + 1;
      } else {
        var k := y.data[yi].index;
        AtStored(y.data, yi);
        NotStored(x.data, xi, k);
        assert x.Get(k) == 0.0 && y.Get(k) == y.data[yi].value;
        if 0.0 < y.data[yi].value - eps {
          return false;
        }
        CompareStep(x, y, eps, xi, yi, xi, yi + 1, k);
        yi := yi + 1;
      }
    }
    forall k: nat
      ensures x.Get(k) >= y.Get(k) - eps
    {
      assert Passed(x, y, xi, yi, k);
    }
    return true;
  }

  /** Whether every index stored in `x` is stored in the mask `m`. */
  method MaskSubset(x: CVector, m: CVector) returns (subset: bool)
    requires x.Valid() && m.Valid() && x.size == m.size
    ensures subset <==> forall k: nat :: x.Has(k) ==> m.Has(k)
  {
    var mi := 0;
    for xi := 0 to |x.data|
      invariant mi <= |m.data| && (xi < |x.data| ==> Before(m.data, mi, x.data[xi].index))
      invariant forall j | 0 <= j < xi :: m.Has(x.data[j].index)
    {
      assert x.Has(x.data[xi].index);
      mi := Advance(m, mi, x.data[xi].index);
      if mi == |m.data| || x.data[xi].index < m.data[mi].index {
        return false;
      }
      mi := mi + 1;
    }
    return true;
  }

  /** The part of a dense vector at the indices stored in the mask. */
  method MaskCopy(x: seq<real>, m: CVector) returns (result: CVector)
    requires m.Valid() && |x| == m.size
    ensures result.Valid() && result.size == |x|
    ensures forall k: nat :: result.Has(k) <==> m.Has(k)
    ensures forall k: nat | k < |x| :: result.Get(k) == if m.Has(k) then x[k] else 0.0
  {
    var r: seq<CEntry> := [];
    for mi := 0 to |m.data|
      invariant |r| == mi
      invariant forall j | 0 <= j < mi ::
        r[j].index == m.data[j].index && m.data[j] in m.data && r[j].value == x[m.data[j].index]
    {
      assert m.data[mi] in m.data;
      r := r + [CEntry(m.data[mi].index, x[m.data[mi].index])];
    }
    result := CVector(|x|, r);
    forall k: nat
      ensures result.Has(k) <==> m.Has(k)
    {
      if i: nat :| i < |r| && r[i].index == k {
        assert m.data[i].index == k;
      }
      if i: nat :| i < |m.data| && m.data[i].index == k {
        assert r[i].index == k;
      }
    }
    forall k: nat | k < |x|
      ensures result.Get(k) == if m.Has(k) then x[k] else 0.0
    {
      if i: nat :| i < |r| && r[i].index == k {
        AtStored(r, i);
      } else {
        AtMissing(r, k);
      }
    }
  }

  /** The first `xi` entries of `x` have been looked at, and those that the mask stores are in `r`. */
  ghost predicate Masked(x: CVector, m: CVector, xi: nat, r: seq<CEntry>) {
    && xi <= |x.data| && Sorted(r) && Ahead(r, x.data, xi)
    && (forall e | e in r :: e.index < x.size)
    && (forall k: nat :: At(r, k) == if m.Has(k) then At(x.data[..xi], k) else 0.0)
  }

  lemma MaskStep(x: CVector, m: CVector, xi: nat, r: seq<CEntry>)
    requires x.Valid() && Masked(x, m, xi, r) && xi < |x.data|
    ensures Masked(x, m, xi + 1, if m.Has(x.data[xi].index) then r + [x.data[xi]] else r)
  {
    hide At;
    var e := x.data[xi];
    AheadStep(r, e.value, x.data, xi);
    forall k: nat
      ensures At(r + [e], k) == At(r, k) + Part(e, k)
      ensures At(x.data[..xi + 1], k) == At(x.data[..xi], k) + Part(e, k)
    {
      AtPush(r, e, k);
      AtPrefix(x.data, xi, k);
    }
  }

  /** The entries of `x` at the stored indices of the mask. */
  method MaskPart(x: CVector, m: CVector) returns (result: CVector)
    requires x.Valid() && m.Valid() && x.size == m.size
    ensures result.Valid() && result.size == x.size
    ensures forall k: nat :: result.Get(k) == if m.Has(k) then x.Get(k) else 0.0
  {
    var r: seq<CEntry>, mi := [], 0;
    assert x.data[..0] == [];
    for xi := 0 to |x.data|
      invariant mi <= |m.data| && Masked(x, m, xi, r)
      invariant xi < |x.data| ==> Before(m.data, mi, x.data[xi].index)
    {
      MaskStep(x, m, xi, r);
      hide Masked, At;
      mi := Advance(m, mi, x.data[xi].index);
      if mi < |m.data| && m.data[mi].index == x.data[xi].index {
        r := r + [x.data[xi]];
      }
    }
    assert x.data[..|x.data|] == x.data;
    result := CVector(x.size, r);
  }

  /** The vector with every stored value multiplied. */
  method ScaleBy(x: CVector, factor: real) returns (result: CVector)
    requires x.Valid()
    ensures result.Valid() && result.size == x.size
    ensures forall k: nat :: result.Get(k) == Times(factor, x.Get(k))
  {
    var r: seq<CEntry> := [];
    assert x.data[..0] == [];
    TimesIs(factor, 0.0);
    for i := 0 to |x.data|
      invariant |r| == i && forall j | 0 <= j < i :: r[j].index == x.data[j].index
      invariant forall k: nat :: At(r, k) == Times(factor, At(x.data[..i], k))
    {
      hide At, Times;
      var e := CEntry(x.data[i].index, x.data[i].value * factor);
      TimesIs(factor, x.data[i].value);
      TimesIs(factor, 0.0);
      forall k: nat
        ensures At(r + [e], k) == Times(factor, At(x.data[..i + 1], k))
      {
        AtPush(r, e, k);
        AtPrefix(x.data, i, k);
        TimesPlus(factor, At(x.data[..i], k), Part(x.data[i], k));
      }
      r := r + [e];
    }
    assert x.data[..|x.data|] == x.data;
    result := CVector(x.size, r);
    forall e | e in r
      ensures e.index < x.size
    {
      var j :| 0 <= j < |r| && r[j] == e;
      assert x.data[j] in x.data;
    }
  }
}
