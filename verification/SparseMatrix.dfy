/** Sparse matrices: coordinate lists, their compressed-column form, transposition and products. */
module SparseMatrices {
  import opened Wrappers
  import opened RealArith
  import opened SparseVectors

  const SPARSE_EPS: real := 0.0000000001

  datatype KEntry = KEntry(r: nat, c: nat, value: real)

  /** Column-major order. */
  predicate Precedes(a: KEntry, b: KEntry) {
    a.c < b.c || (a.c == b.c && a.r < b.r)
  }

  predicate SameCell(a: KEntry, b: KEntry) {
    a.r == b.r && a.c == b.c
  }

  ghost predicate SortedK(s: seq<KEntry>) {
    forall i, j | 0 <= i < j < |s| :: !Precedes(s[j], s[i])
  }

  /** Sorted, with at most one entry per cell. */
  ghost predicate Canonical(s: seq<KEntry>) {
    forall i, j | 0 <= i < j < |s| :: Precedes(s[i], s[j])
  }

  /** The value last pushed for a cell. */
  function Last(s: seq<KEntry>, r: nat, c: nat): Option<real> {
    if s == [] then None
    else
      var e := s[|s| - 1];
      if e.r == r && e.c == c then Some(e.value) else Last(s[..|s| - 1], r, c)
  }

  lemma LastPush(s: seq<KEntry>, e: KEntry, r: nat, c: nat)
    ensures Last(s + [e], r, c) == if e.r == r && e.c == c then Some(e.value) else Last(s, r, c)
  {
    assert (s + [e])[..|s|] == s;
  }

  lemma LastPrefix(s: seq<KEntry>, i: nat, r: nat, c: nat)
    requires i < |s|
    ensures Last(s[..i + 1], r, c) == if s[i].r == r && s[i].c == c then Some(s[i].value) else Last(s[..i], r, c)
  {
    assert s[..i + 1] == s[..i] + [s[i]];
    LastPush(s[..i], s[i], r, c);
  }

  lemma {:induction false} LastConcat(a: seq<KEntry>, b: seq<KEntry>, r: nat, c: nat)
    ensures Last(a + b, r, c) == if Last(b, r, c).Some? then Last(b, r, c) else Last(a, r, c)
  {
    if b == [] {
      assert a + b == a;
    } else {
      var front := b[..|b| - 1];
      assert a + b == (a + front) + [b[|b| - 1]];
      LastPush(a + front, b[|b| - 1], r, c);
      LastConcat(a, front, r, c);
    }
  }

  lemma {:induction false} LastIsThere(s: seq<KEntry>, r: nat, c: nat)
    ensures Last(s, r, c).Some? ==> exists k :: 0 <= k < |s| && s[k] == KEntry(r, c, Last(s, r, c).value)
    ensures Last(s, r, c).None? ==> forall k | 0 <= k < |s| :: s[k].r != r || s[k].c != c
  {
    if s != [] {
      LastIsThere(s[..|s| - 1], r, c);
    }
  }

  /** In a canonical list each entry is the value of its cell. */
  lemma {:induction false} CanonicalLast(s: seq<KEntry>, k: nat)
    requires Canonical(s) && k < |s|
    ensures Last(s, s[k].r, s[k].c) == Some(s[k].value)
  {
    if k < |s| - 1 {
      CanonicalLast(s[..|s| - 1], k);
    }
  }

  lemma NoCells(s: seq<KEntry>)
    requires Canonical(s) && forall r, c :: Last(s, r, c) == None
    ensures s == []
  {
    if s != [] {
      CanonicalLast(s, 0);
      assert false;
    }
  }

  /** A canonical list is determined by its cells. */
  lemma {:induction false} CanonicalUnique(a: seq<KEntry>, b: seq<KEntry>)
    requires Canonical(a) && Canonical(b) && forall r, c :: Last(a, r, c) == Last(b, r, c)
    ensures a == b
    decreases |a| + |b|
  {
    if a == [] {
      NoCells(b);
    } else if b == [] {
      NoCells(a);
    } else {
      var e, f := a[|a| - 1], b[|b| - 1];
      LastEntryLeads(a, b);
      LastEntryLeads(b, a);
      assert SameCell(e, f);
      var a', b' := a[..|a| - 1], b[..|b| - 1];
      forall r, c
        ensures Last(a', r, c) == Last(b', r, c)
      {
        assert Last(a, r, c) == Last(b, r, c);
        if r == e.r && c == e.c {
          LastIsThere(a', r, c);
          LastIsThere(b', r, c);
        }
      }
      assert Last(a, e.r, e.c) == Last(b, e.r, e.c);
      CanonicalUnique(a', b');
      assert a == a' + [e] && b == b' + [f];
    }
  }

  /** The last entry of one list does not come after the last entry of the other. */
  lemma LastEntryLeads(a: seq<KEntry>, b: seq<KEntry>)
    requires Canonical(a) && Canonical(b) && a != [] && b != [] && forall r, c :: Last(a, r, c) == Last(b, r, c)
    ensures !Precedes(b[|b| - 1], a[|a| - 1])
  {
    var e := a[|a| - 1];
    CanonicalLast(a, |a| - 1);
    assert Last(b, e.r, e.c) == Some(e.value);
    LastIsThere(b, e.r, e.c);
    var k :| 0 <= k < |b| && b[k] == KEntry(e.r, e.c, e.value);
    if k < |b| - 1 {
      assert Precedes(b[k], b[|b| - 1]);
    }
  }

  /** Inserts an entry behind all entries that do not come after it. */
  method Insert(s: seq<KEntry>, e: KEntry) returns (t: seq<KEntry>)
    requires SortedK(s)
    ensures SortedK(t) && |t| == |s| + 1
    ensures forall r, c :: Last(t, r, c) == Last(s + [e], r, c)
  {
    var k: nat := |s|;
    while k > 0 && Precedes(e, s[k - 1])
      invariant k <= |s| && forall j | k <= j < |s| :: Precedes(e, s[j])
    {
      k := k - 1;
    }
    t := s[..k] + [e] + s[k..];
    forall r, c
      ensures Last(t, r, c) == Last(s + [e], r, c)
    {
      InsertLast(s, k, e, r, c);
    }
    NotBefore(s, k, e);
    hide Last;
    InsertSorted(s, k, e);
  }

  lemma InsertLast(s: seq<KEntry>, k: nat, e: KEntry, r: nat, c: nat)
    requires k <= |s| && forall j | k <= j < |s| :: Precedes(e, s[j])
    ensures Last(s[..k] + [e] + s[k..], r, c) == Last(s + [e], r, c)
  {
    hide Last;
    var tail := s[k..];
    LastConcat(s[..k] + [e], tail, r, c);
    LastPush(s[..k], e, r, c);
    LastPush(s, e, r, c);
    assert s == s[..k] + tail;
    LastConcat(s[..k], tail, r, c);
    LastIsThere(tail, r, c);
  }

  lemma InsertSorted(s: seq<KEntry>, k: nat, e: KEntry)
    requires SortedK(s) && k <= |s| && (forall j | k <= j < |s| :: Precedes(e, s[j]))
    requires forall i | 0 <= i < k :: !Precedes(e, s[i])
    ensures SortedK(s[..k] + [e] + s[k..])
  {
    var t := s[..k] + [e] + s[k..];
    assert forall i | 0 <= i < |t| :: t[i] == if i < k then s[i] else if i == k then e else s[i - 1];
    forall i, j | 0 <= i < j < |t|
      ensures !Precedes(t[j], t[i])
    {
      if i != k && j != k {
        assert !Precedes(s[if j < k then j else j - 1], s[if i < k then i else i - 1]);
      }
    }
  }

  lemma NotBefore(s: seq<KEntry>, k: nat, e: KEntry)
    requires SortedK(s) && k <= |s| && (k > 0 ==> !Precedes(e, s[k - 1]))
    ensures forall i | 0 <= i < k :: !Precedes(e, s[i])
  {
    if k > 0 {
      assert forall i | 0 <= i < k - 1 :: !Precedes(s[k - 1], s[i]);
    }
  }

  /** A stable sort into column-major order. */
  method StableSort(s: seq<KEntry>) returns (t: seq<KEntry>)
    ensures SortedK(t) && |t| == |s|
    ensures forall r, c :: Last(t, r, c) == Last(s, r, c)
  {
    t := [];
    for i := 0 to |s|
      invariant SortedK(t) && |t| == i
      invariant forall r, c :: Last(t, r, c) == Last(s[..i], r, c)
    {
      ghost var t0 := t;
      t := Insert(t, s[i]);
      forall r, c
        ensures Last(t, r, c) == Last(s[..i + 1], r, c)
      {
        LastPush(t0, s[i], r, c);
        LastPrefix(s, i, r, c);
      }
    }
    assert s[..|s|] == s;
  }

  class KMatrix {
    var size1: nat
    var size2: nat
    var data: seq<KEntry>

    constructor (size1: nat, size2: nat)
      ensures this.size1 == size1 && this.size2 == size2 && data == [] && Valid()
    {
      this.size1, this.size2, data := size1, size2, [];
    }

    ghost predicate Valid()
      reads this
    {
      forall e | e in data :: e.r < size1 && e.c < size2
    }

    /** The value of a cell: the one last pushed. */
    ghost function Cell(r: nat, c: nat): Option<real>
      reads this
    {
      Last(data, r, c)
    }

    method PushBack(r: nat, c: nat, value: real)
      requires Valid() && r < size1 && c < size2
      modifies this`data
      ensures Valid()
      ensures forall i, j :: Cell(i, j) == if i == r && j == c then Some(value) else old(Cell(i, j))
    {
      forall i, j
        ensures Last(data + [KEntry(r, c, value)], i, j) == if i == r && j == c then Some(value) else Last(data, i, j)
      {
        LastPush(data, KEntry(r, c, value), i, j);
      }
      data := data + [KEntry(r, c, value)];
    }

    /** Sorts the entries and keeps the last one for each cell. */
    method Canonicalize()
      requires Valid()
      modifies this`data
      ensures Valid() && Canonical(data) && forall r, c :: Cell(r, c) == old(Cell(r, c))
    {
      var t := StableSort(data);
      var d: seq<KEntry> := [];
      for i := 0 to |t|
        invariant Canonical(d) && (d == [] <==> i == 0)
        invariant i > 0 ==> SameCell(d[|d| - 1], t[i - 1])
        invariant forall r, c :: Last(d, r, c) == Last(t[..i], r, c)
      {
        ghost var d0 := d;
        if d != [] && SameCell(d[|d| - 1], t[i]) {
          d := d[|d| - 1 := t[i]];
          assert d == d0[..|d0| - 1] + [t[i]];
        } else {
          assert d != [] ==> Precedes(d[|d| - 1], t[i]);
          d := d + [t[i]];
        }
        forall r, c
          ensures Last(d, r, c) == Last(t[..i + 1], r, c)
        {
          LastPrefix(t, i, r, c);
          LastPush(d[..|d| - 1], t[i], r, c);
          assert d == d[..|d| - 1] + [t[i]];
        }
      }
      assert t[..|t|] == t;
      ghost var data0 := data;
      data := d;
      StillValid(data0, d, size1, size2);
    }

    /** Transposes the matrix, leaving it canonical. */
    method TransposeInPlace()
      requires Valid()
      modifies this
      ensures Valid() && Canonical(data) && size1 == old(size2) && size2 == old(size1)
      ensures forall r, c :: Cell(r, c) == old(Cell(c, r))
    {
      size1, size2 := size2, size1;
      ghost var data0 := data;
      var flipped: seq<KEntry> := [];
      for i := 0 to |data|
        invariant |flipped| == i
        invariant forall k | 0 <= k < i :: flipped[k] == Flip(data[k])
        invariant forall r, c :: Last(flipped, r, c) == Last(data[..i], c, r)
      {
        forall r, c
          ensures Last(flipped + [Flip(data[i])], r, c) == Last(data[..i + 1], c, r)
        {
          LastPush(flipped, Flip(data[i]), r, c);
          LastPrefix(data, i, c, r);
        }
        flipped := flipped + [Flip(data[i])];
      }
      assert data[..|data|] == data;
      data := flipped;
      Canonicalize();
    }
  }

  function Flip(e: KEntry): KEntry {
    KEntry(e.c, e.r, e.value)
  }

  lemma StillValid(a: seq<KEntry>, b: seq<KEntry>, size1: nat, size2: nat)
    requires Canonical(b) && (forall r, c :: Last(a, r, c) == Last(b, r, c))
    requires forall e | e in a :: e.r < size1 && e.c < size2
    ensures forall e | e in b :: e.r < size1 && e.c < size2
  {
    forall e | e in b
      ensures e.r < size1 && e.c < size2
    {
      var k :| 0 <= k < |b| && b[k] == e;
      CanonicalLast(b, k);
      assert Last(a, e.r, e.c) == Last(b, e.r, e.c);
      LastIsThere(a, e.r, e.c);
    }
  }

  /** `b` holds the cells of `a` with rows and columns exchanged. */
  ghost predicate TransposeOf(a: seq<KEntry>, b: seq<KEntry>) {
    Canonical(b) && forall r, c :: Last(b, r, c) == Last(a, c, r)
  }

  /** Transposing a canonical matrix twice restores it. */
  lemma TransposeTwice(a: seq<KEntry>, b: seq<KEntry>, c: seq<KEntry>)
    requires Canonical(a) && TransposeOf(a, b) && TransposeOf(b, c)
    ensures c == a
  {
    forall i, j
      ensures Last(c, i, j) == Last(a, i, j)
    {
      assert Last(b, j, i) == Last(a, i, j);
    }
    CanonicalUnique(c, a);
  }

  // ---------- Compressed columns ----------

  predicate Tiny(v: real) {
    -SPARSE_EPS <= v <= SPARSE_EPS
  }

  /** Values that are not tiny. */
  function Keep(v: Option<real>): Option<real> {
    if v.Some? && Tiny(v.value) then None else v
  }

  /** The number of entries in columns before `c`. */
  function Rank(s: seq<KEntry>, c: nat): (n: nat)
    ensures n <= |s|
  {
    if s == [] then 0 else Rank(s[..|s| - 1], c) + if s[|s| - 1].c < c then 1 else 0
  }

  lemma RankPush(s: seq<KEntry>, e: KEntry, c: nat)
    ensures Rank(s + [e], c) == Rank(s, c) + if e.c < c then 1 else 0
  {
    assert (s + [e])[..|s|] == s;
  }

  /** The entries in columns before `c` are the first Rank(c) ones. */
  lemma {:induction false} RankSplits(s: seq<KEntry>, c: nat, k: nat)
    requires Canonical(s) && k < |s|
    ensures s[k].c < c <==> k < Rank(s, c)
  {
    var n := |s| - 1;
    if k < n {
      RankSplits(s[..n], c, k);
      assert Precedes(s[k], s[n]);
    } else {
      RankAll(s, c);
    }
  }

  lemma {:induction false} RankAll(s: seq<KEntry>, c: nat)
    requires Canonical(s)
    ensures s != [] && s[|s| - 1].c < c ==> Rank(s, c) == |s|
  {
    if s != [] && s[|s| - 1].c < c {
      var n := |s| - 1;
      if n > 0 {
        assert Precedes(s[n - 1], s[n]);
      }
      RankAll(s[..n], c);
    }
  }

  lemma {:induction false} RankMono(s: seq<KEntry>, c: nat, d: nat)
    requires c <= d
    ensures Rank(s, c) <= Rank(s, d)
    ensures (forall e | e in s :: !(c <= e.c < d)) ==> Rank(s, c) == Rank(s, d)
  {
    if s != [] {
      assert s[|s| - 1] in s;
      RankMono(s[..|s| - 1], c, d);
    }
  }

  datatype CMatrix = CMatrix(size1: nat, size2: nat, colStarts: seq<nat>, data: seq<CEntry>) {

    /** Column `c` is the sorted slice of entries from colStarts[c] to colStarts[c + 1]. */
    ghost predicate Valid() {
      && |colStarts| == size2 + 1 && colStarts[0] == 0 && colStarts[size2] == |data|
      && forall c | 0 <= c < size2 :: ColumnOk(c)
    }

    ghost predicate ColumnOk(c: nat)
      requires c < size2 && |colStarts| == size2 + 1
    {
      colStarts[c] <= colStarts[c + 1] <= |data| && Column(c).Valid()
    }

    function Column(c: nat): CVector
      requires c < size2 && |colStarts| == size2 + 1 && colStarts[c] <= colStarts[c + 1] <= |data|
    {
      CVector(size1, data[colStarts[c]..colStarts[c + 1]])
    }

    ghost function Get(r: nat, c: nat): real
      requires Valid() && c < size2
    {
      assert ColumnOk(c);
      Column(c).Get(r)
    }
  }

  /** The column starts and data describe the canonical list `p`. */
  ghost predicate Compresses(p: seq<KEntry>, colStarts: seq<nat>, data: seq<CEntry>, size1: nat, size2: nat) {
    && Canonical(p) && |data| == |p| && (forall k | 0 <= k < |p| :: data[k] == CEntry(p[k].r, p[k].value))
    && (forall e | e in p :: e.r < size1 && e.c < size2)
    && |colStarts| == size2 + 1 && forall c | 0 <= c <= size2 :: colStarts[c] == Rank(p, c)
  }

  lemma CompressedIsValid(p: seq<KEntry>, colStarts: seq<nat>, data: seq<CEntry>, size1: nat, size2: nat)
    requires Compresses(p, colStarts, data, size1, size2)
    ensures CMatrix(size1, size2, colStarts, data).Valid()
  {
    RankEnds(p, size2);
    forall c | 0 <= c < size2
      ensures CMatrix(size1, size2, colStarts, data).ColumnOk(c)
    {
      RankMono(p, c, c + 1);
      SliceIsValid(p, data, size1, c);
    }
  }

  lemma {:induction false} RankEnds(p: seq<KEntry>, n: nat)
    requires forall e | e in p :: e.c < n
    ensures Rank(p, 0) == 0 && Rank(p, n) == |p|
  {
    if p != [] {
      assert p[|p| - 1] in p;
      RankEnds(p[..|p| - 1], n);
    }
  }

  lemma SliceIsValid(p: seq<KEntry>, data: seq<CEntry>, size1: nat, c: nat)
    requires Canonical(p) && |data| == |p| && (forall k | 0 <= k < |p| :: data[k] == CEntry(p[k].r, p[k].value))
    requires (forall e | e in p :: e.r < size1) && Rank(p, c) <= Rank(p, c + 1)
    ensures CVector(size1, data[Rank(p, c)..Rank(p, c + 1)]).Valid()
  {
    var lo, hi := Rank(p, c), Rank(p, c + 1);
    var d := data[lo..hi];
    forall i | 0 <= i < |d|
      ensures d[i] == CEntry(p[lo + i].r, p[lo + i].value) && p[lo + i].c == c && d[i].index < size1
    {
      RankSplits(p, c, lo + i);
      RankSplits(p, c + 1, lo + i);
      assert p[lo + i] in p;
    }
    forall i, j | 0 <= i < j < |d|
      ensures d[i].index < d[j].index
    {
      assert Precedes(p[lo + i], p[lo + j]);
    }
  }

  /** A cell of the compressed form holds what the list holds, or 0. */
  lemma CompressedGet(p: seq<KEntry>, m: CMatrix, r: nat, c: nat)
    requires Compresses(p, m.colStarts, m.data, m.size1, m.size2) && m.Valid() && c < m.size2
    ensures m.Get(r, c) == var v := Last(p, r, c); if v.Some? then v.value else 0.0
  {
    hide *;
    ColumnSlice(p, m, c);
    ColumnBounds(p, c);
    SliceGet(p, m.data[Rank(p, c)..Rank(p, c + 1)], Rank(p, c), Rank(p, c + 1), r, c);
    GetIsAt(m, r, c);
  }

  lemma ColumnBounds(p: seq<KEntry>, c: nat)
    requires Canonical(p)
    ensures Rank(p, c) <= Rank(p, c + 1)
    ensures forall k: nat | k < |p| :: p[k].c == c <==> Rank(p, c) <= k < Rank(p, c + 1)
  {
    RankMono(p, c, c + 1);
    forall k: nat | k < |p|
      ensures p[k].c == c <==> Rank(p, c) <= k < Rank(p, c + 1)
    {
      RankSplits(p, c, k);
      RankSplits(p, c + 1, k);
    }
  }

  lemma ColumnSlice(p: seq<KEntry>, m: CMatrix, c: nat)
    requires Compresses(p, m.colStarts, m.data, m.size1, m.size2) && m.Valid() && c < m.size2
    ensures |m.colStarts| == m.size2 + 1 && Canonical(p) && |m.data| == |p|
    ensures m.colStarts[c] == Rank(p, c) <= Rank(p, c + 1) == m.colStarts[c + 1]
    ensures Sorted(m.data[Rank(p, c)..Rank(p, c + 1)])
    ensures SliceOf(p, m.data[Rank(p, c)..Rank(p, c + 1)], Rank(p, c))
  {
    assert m.ColumnOk(c) && |m.data| == |p|;
    assert m.colStarts[c] == Rank(p, c) && m.colStarts[c + 1] == Rank(p, c + 1);
    hide Rank, Canonical, Sorted;
  }

  /** `d` holds the rows and values of the entries of `p` from `lo` on. */
  ghost predicate SliceOf(p: seq<KEntry>, d: seq<CEntry>, lo: nat) {
    lo + |d| <= |p| && forall i | 0 <= i < |d| :: d[i] == CEntry(p[lo + i].r, p[lo + i].value)
  }

  lemma GetIsAt(m: CMatrix, r: nat, c: nat)
    requires m.Valid() && c < m.size2
    ensures m.ColumnOk(c) && m.Get(r, c) == At(m.data[m.colStarts[c]..m.colStarts[c + 1]], r)
  {
    assert m.ColumnOk(c);
  }

  lemma SliceGet(p: seq<KEntry>, d: seq<CEntry>, lo: nat, hi: nat, r: nat, c: nat)
    requires Sorted(d) && lo <= hi <= |p| && |d| == hi - lo
    requires SliceOf(p, d, lo)
    requires forall k: nat | k < |p| :: p[k].c == c <==> lo <= k < hi
    ensures At(d, r) == var v := Last(p, r, c); if v.Some? then v.value else 0.0
  {
    LastIsThere(p, r, c);
    hide Last, Sorted, At;
    if Last(p, r, c).Some? {
      var k: nat :| k < |p| && p[k] == KEntry(r, c, Last(p, r, c).value);
      var i: nat := k - lo;
      assert d[i] == CEntry(p[lo + i].r, p[lo + i].value);
      AtStored(d, i);
    } else {
      AtMissing(d, r);
    }
  }

  /** Column starts after pushing the entries `p`, before they are made monotone: a column without entries still
      has 0 as its end. */
  ghost predicate Pushed(p: seq<KEntry>, colStarts: seq<nat>, data: seq<CEntry>, size2: nat) {
    && Canonical(p) && |data| == |p| && (forall k | 0 <= k < |p| :: data[k] == CEntry(p[k].r, p[k].value))
    && |colStarts| == size2 + 1 && colStarts[0] == 0
    && forall c | 0 < c <= size2 :: StartOk(p, colStarts[c], c)
  }

  ghost predicate StartOk(p: seq<KEntry>, start: nat, c: nat)
    requires c > 0
  {
    start == if exists e :: e in p && e.c == c - 1 then Rank(p, c) else 0
  }

  lemma PushStep(p: seq<KEntry>, colStarts: seq<nat>, data: seq<CEntry>, size2: nat, e: KEntry)
    requires Pushed(p, colStarts, data, size2) && e.c < size2 && forall f | f in p :: Precedes(f, e)
    ensures Pushed(p + [e], colStarts[e.c + 1 := |p| + 1], data + [CEntry(e.r, e.value)], size2)
  {
    var p', starts' := p + [e], colStarts[e.c + 1 := |p| + 1];
    forall i, j | 0 <= i < j < |p'|
      ensures Precedes(p'[i], p'[j])
    {
      if j == |p| {
        assert p[i] in p;
      }
    }
    forall c: nat | 0 < c <= size2
      ensures StartOk(p', starts'[c], c)
    {
      RankPush(p, e, c);
      assert StartOk(p, colStarts[c], c);
      assert forall f | f in p' :: f in p || f == e;
      if c == e.c + 1 {
        assert e in p';
        RankEnds(p', c);
      } else if exists f :: f in p && f.c == c - 1 {
        var f :| f in p && f.c == c - 1;
        assert f in p';
      }
    }
  }

  /** Builds the compressed form; tiny values are dropped. A side effect canonicalizes the list. */
  method Compress(a: KMatrix) returns (m: CMatrix)
    requires a.Valid()
    modifies a
    ensures a.Valid() && Canonical(a.data) && a.size1 == old(a.size1) && a.size2 == old(a.size2)
    ensures m.Valid() && m.size1 == a.size1 && m.size2 == a.size2
    ensures forall r, c | 0 <= r && 0 <= c < m.size2 ::
      (m.Get(r, c) == var v := Keep(old(a.Cell(r, c))); if v.Some? then v.value else 0.0)
  {
    a.Canonicalize();
    ghost var p: seq<KEntry> := [];
    var colStarts: seq<nat> := seq(a.size2 + 1, _ => 0);
    var data: seq<CEntry> := [];
    for i := 0 to |a.data|
      modifies {}
      invariant Pushed(p, colStarts, data, a.size2)
      invariant forall f, j | f in p && i <= j < |a.data| :: Precedes(f, a.data[j])
      invariant forall f | f in p :: f.r < a.size1 && f.c < a.size2
      invariant forall r, c :: Last(p, r, c) == Keep(Last(a.data[..i], r, c))
    {
      hide Pushed, Last;
      var entry := a.data[i];
      assert entry in a.data;
      forall r, c
        ensures Last(p + [entry], r, c) == if entry.r == r && entry.c == c then Some(entry.value) else Last(p, r, c)
        ensures Last(a.data[..i + 1], r, c)
             == if entry.r == r && entry.c == c then Some(entry.value) else Last(a.data[..i], r, c)
      {
        LastPush(p, entry, r, c);
        LastPrefix(a.data, i, r, c);
      }
      if !Tiny(entry.value) {
        PushStep(p, colStarts, data, a.size2, entry);
        PushedSize(p, colStarts, data, a.size2);
        data := data + [CEntry(entry.r, entry.value)];
        colStarts := colStarts[entry.c + 1 := |data|];
        p := p + [entry];
      } else {
        NotYet(p, a.data, i);
      }
    }
    assert a.data[..|a.data|] == a.data;
    colStarts := FixStarts(p, colStarts, data, a.size1, a.size2);
    m := CMatrix(a.size1, a.size2, colStarts, data);
    CompressedIsValid(p, colStarts, data, a.size1, a.size2);
    forall r, c | 0 <= r && 0 <= c < m.size2
      ensures (m.Get(r, c) == var v := Keep(a.Cell(r, c)); if v.Some? then v.value else 0.0)
    {
      CompressedGet(p, m, r, c);
    }
  }

  lemma PushedSize(p: seq<KEntry>, colStarts: seq<nat>, data: seq<CEntry>, size2: nat)
    requires Pushed(p, colStarts, data, size2)
    ensures |data| == |p| && |colStarts| == size2 + 1
  {
  }

  /** The cell of a canonical list's next entry has not been pushed. */
  lemma NotYet(p: seq<KEntry>, s: seq<KEntry>, i: nat)
    requires i < |s| && forall f, j | f in p && i <= j < |s| :: Precedes(f, s[j])
    ensures Last(p, s[i].r, s[i].c) == None
  {
    forall k | 0 <= k < |p|
      ensures Precedes(p[k], s[i])
    {
      assert p[k] in p;
    }
    LastIsThere(p, s[i].r, s[i].c);
  }

  /** Makes the column starts monotone. */
  method FixStarts(ghost p: seq<KEntry>, colStarts0: seq<nat>, ghost data: seq<CEntry>, ghost size1: nat, size2: nat)
    returns (colStarts: seq<nat>)
    requires Pushed(p, colStarts0, data, size2) && forall e | e in p :: e.r < size1 && e.c < size2
    ensures Compresses(p, colStarts, data, size1, size2)
  {
    colStarts := colStarts0;
    RankEnds(p, size2);
    for i := 0 to size2
      invariant |colStarts| == size2 + 1 && forall c | 0 <= c <= i :: colStarts[c] == Rank(p, c)
      invariant forall c | i < c <= size2 :: colStarts[c] == colStarts0[c]
    {
      assert StartOk(p, colStarts0[i + 1], i + 1);
      RankMono(p, i, i + 1);
      if colStarts[i] > colStarts[i + 1] {
        colStarts := colStarts[i + 1 := colStarts[i]];
      }
    }
  }

  /** The value of a cell, found by scanning its column. */
  method LookupCell(m: CMatrix, r: nat, c: nat) returns (value: real)
    requires m.Valid() && c < m.size2
    ensures value == m.Get(r, c)
  {
    assert m.ColumnOk(c);
    value := Lookup(m.Column(c), r);
  }

  // ---------- Products ----------

  /** Row `r` of the matrix as a dense vector. */
  ghost function RowOf(m: CMatrix, r: nat): (row: seq<real>)
    requires m.Valid()
    ensures |row| == m.size2
  {
    seq(m.size2, c requires 0 <= c < m.size2 => m.Get(r, c))
  }

  /** Element `r` of the product of matrix and vector. */
  ghost function ProductAt(m: CMatrix, x: CVector, r: nat): real
    requires m.Valid() && x.size == m.size2
  {
    Dot(Dense(x), RowOf(m, r), m.size2)
  }

  /** What the first `i` stored elements of `x` contribute to element `r` of the product. */
  ghost function Partial(m: CMatrix, x: CVector, r: nat, i: nat): real
    requires m.Valid() && x.Valid() && x.size == m.size2 && i <= |x.data|
  {
    if i == 0 then 0.0
    else
      assert x.data[i - 1] in x.data;
      Partial(m, x, r, i - 1) + Times(x.data[i - 1].value, m.Get(r, x.data[i - 1].index))
  }

  lemma {:induction false} PartialIsWeighted(m: CMatrix, x: CVector, r: nat, i: nat)
    requires m.Valid() && x.Valid() && x.size == m.size2 && i <= |x.data|
    ensures Partial(m, x, r, i) + Weighted(x.data[i..], RowOf(m, r)) == Weighted(x.data, RowOf(m, r))
  {
    hide CMatrix.Get, Times;
    if i == 0 {
      assert x.data[0..] == x.data;
    } else {
      PartialIsWeighted(m, x, r, i - 1);
      WeightedStep(x.data, RowOf(m, r), i - 1);
      assert x.data[i - 1] in x.data;
    }
  }

  lemma PartialIsProduct(m: CMatrix, x: CVector, r: nat)
    requires m.Valid() && x.Valid() && x.size == m.size2
    ensures Partial(m, x, r, |x.data|) == ProductAt(m, x, r)
  {
    PartialIsWeighted(m, x, r, |x.data|);
    assert x.data[|x.data|..] == [];
    WeightedIsDot(x, RowOf(m, r));
  }

  /** The column stores an element in row `n` or below. */
  ghost predicate ColumnOverflows(m: CMatrix, c: nat, n: nat)
    requires m.Valid() && c < m.size2
  {
    assert m.ColumnOk(c);
    exists e :: e in m.Column(c).data && e.index >= n
  }

  /** Some column that the product uses stores an element below the last row of the result. */
  ghost predicate Overflows(m: CMatrix, x: CVector)
    requires m.Valid() && x.Valid() && x.size == m.size2
  {
    exists i :: 0 <= i < |x.data| && ColumnOfOverflows(m, x, i)
  }

  ghost predicate ColumnOfOverflows(m: CMatrix, x: CVector, i: nat)
    requires m.Valid() && x.Valid() && x.size == m.size2 && i < |x.data|
  {
    assert x.data[i] in x.data;
    ColumnOverflows(m, x.data[i].index, x.size)
  }

  lemma {:induction false} PartialVanishes(m: CMatrix, x: CVector, r: nat, i: nat)
    requires m.Valid() && x.Valid() && x.size == m.size2 && !Overflows(m, x) && r >= x.size && i <= |x.data|
    ensures Partial(m, x, r, i) == 0.0
  {
    if i > 0 {
      PartialVanishes(m, x, r, i - 1);
      assert x.data[i - 1] in x.data && !ColumnOfOverflows(m, x, i - 1);
      assert m.ColumnOk(x.data[i - 1].index);
      AtMissing(m.Column(x.data[i - 1].index).data, r);
      TimesIs(x.data[i - 1].value, 0.0);
    }
  }

  /** Without overflow the product is 0 below the last row of the result. */
  lemma NothingBelow(m: CMatrix, x: CVector, r: nat)
    requires m.Valid() && x.Valid() && x.size == m.size2 && !Overflows(m, x) && r >= x.size
    ensures ProductAt(m, x, r) == 0.0
  {
    PartialVanishes(m, x, r, |x.data|);
    PartialIsProduct(m, x, r);
  }

  /** A matrix with no more rows than columns never overflows. */
  lemma FlatFits(m: CMatrix, x: CVector)
    requires m.Valid() && x.Valid() && m.size1 <= x.size == m.size2
    ensures !Overflows(m, x)
  {
    forall i: nat | i < |x.data|
      ensures !ColumnOfOverflows(m, x, i)
    {
      assert x.data[i] in x.data;
      assert m.ColumnOk(x.data[i].index);
    }
  }

  /** The product as a dense vector. Its length is that of `x`, whatever the number of rows; None stands for a write
      past its end. */
  method MultDense(m: CMatrix, x: CVector) returns (result: Option<seq<real>>)
    requires m.Valid() && x.Valid() && x.size == m.size2
    ensures result.None? <==> Overflows(m, x)
    ensures result.Some? ==> result.value == Product(m, x)
  {
    hide Times, CMatrix.Get, At, ColumnOverflows, ProductAt;
    var sum := seq(x.size, _ => 0.0);
    for i := 0 to |x.data|
      invariant |sum| == x.size && forall r | 0 <= r < x.size :: sum[r] == Partial(m, x, r, i)
      invariant forall j | 0 <= j < i :: !ColumnOfOverflows(m, x, j)
    {
      assert x.data[i] in x.data;
      var added := AddColumn(m, x.data[i].index, x.data[i].value, sum);
      if added.None? {
        assert ColumnOfOverflows(m, x, i);
        return None;
      }
      sum := added.value;
    }
    forall r | 0 <= r < x.size
      ensures sum[r] == ProductAt(m, x, r)
    {
      PartialIsProduct(m, x, r);
    }
    return Some(sum);
  }

  /** Adds `xval` times a column to a dense vector, if it is long enough. */
  method AddColumn(m: CMatrix, c: nat, xval: real, start: seq<real>) returns (result: Option<seq<real>>)
    requires m.Valid() && c < m.size2
    ensures result.None? <==> ColumnOverflows(m, c, |start|)
    ensures result.Some? ==> |result.value| == |start|
    ensures result.Some? ==>
      forall r | 0 <= r < |start| :: result.value[r] == start[r] + Times(xval, m.Get(r, c))
  {
    hide At, Times;
    assert m.ColumnOk(c);
    var column, sum := m.Column(c).data, start;
    EmptyColumn(column, xval);
    assert column[..|column|] == column;
    for j := 0 to |column|
      invariant |sum| == |start| && forall k | 0 <= k < j :: column[k].index < |start|
      invariant forall r: nat | r < |start| :: sum[r] == start[r] + Times(xval, At(column[..j], r))
    {
      var e := column[j];
      assert e in column;
      if e.index >= |sum| {
        return None;
      }
      forall r: nat | r < |start|
        ensures Times(xval, At(column[..j + 1], r)) == Times(xval, At(column[..j], r)) + Times(xval, Part(e, r))
      {
        AtPrefix(column, j, r);
        TimesPlus(xval, At(column[..j], r), Part(e, r));
      }
      TimesIs(xval, e.value);
      TimesIs(xval, 0.0);
      sum := sum[e.index := sum[e.index] + xval * e.value];
    }
    return Some(sum);
  }

  lemma EmptyColumn(column: seq<CEntry>, xval: real)
    ensures forall r: nat :: Times(xval, At(column[..0], r)) == 0.0
  {
    assert column[..0] == [];
    TimesIs(xval, 0.0);
  }

  /** `result` stores exactly the elements of the dense vector that are not tiny. */
  ghost predicate SparseOf(result: CVector, v: seq<real>) {
    && result.Valid() && result.size == |v| && (forall e | e in result.data :: !Tiny(e.value))
    && forall r: nat | r < |v| :: result.Get(r) == if Tiny(v[r]) then 0.0 else v[r]
  }

  /** The elements of a dense vector that are not tiny. */
  method Sparse(v: seq<real>) returns (result: CVector)
    ensures SparseOf(result, v)
  {
    var data: seq<CEntry> := [];
    for i := 0 to |v|
      invariant Sorted(data) && forall e | e in data :: e.index < i && !Tiny(e.value)
      invariant forall r: nat :: At(data, r) == if r < i && !Tiny(v[r]) then v[r] else 0.0
    {
      hide At;
      forall r: nat
        ensures At(data + [CEntry(i, v[i])], r) == At(data, r) + if r == i then v[i] else 0.0
      {
        AtPush(data, CEntry(i, v[i]), r);
      }
      if !Tiny(v[i]) {
        data := data + [CEntry(i, v[i])];
      }
    }
    result := CVector(|v|, data);
  }

  /** Both ways to multiply give the same result. */
  lemma SparseIsUnique(a: CVector, b: CVector, v: seq<real>)
    requires SparseOf(a, v) && SparseOf(b, v)
    ensures a == b
  {
    SameEntries(a, b, v);
    SameEntries(b, a, v);
    SortedUnique(a.data, b.data);
  }

  lemma SameEntries(a: CVector, b: CVector, v: seq<real>)
    requires SparseOf(a, v) && SparseOf(b, v)
    ensures AllIn(a.data, b.data)
  {
    forall e | e in a.data
      ensures e in b.data
    {
      var i :| 0 <= i < |a.data| && a.data[i] == e;
      AtStored(a.data, i);
      assert a.Get(e.index) == e.value && e.index < |v|;
      assert v[e.index] == e.value && b.Get(e.index) == e.value;
      if j :| 0 <= j < |b.data| && b.data[j].index == e.index {
        AtStored(b.data, j);
        assert b.data[j] == e;
      } else {
        AtMissing(b.data, e.index);
        assert false;
      }
    }
  }

  ghost predicate AllIn(a: seq<CEntry>, b: seq<CEntry>) {
    forall e | e in a :: e in b
  }

  /** Sorted lists with the same entries are equal. */
  lemma {:induction false} SortedUnique(a: seq<CEntry>, b: seq<CEntry>)
    requires Sorted(a) && Sorted(b) && AllIn(a, b) && AllIn(b, a)
    ensures a == b
  {
    hide Sorted, AllIn;
    if a == [] || b == [] {
      EmptyToo(a, b);
      EmptyToo(b, a);
    } else {
      SameHead(a, b);
      TailIn(a, b);
      TailIn(b, a);
      SortedUnique(a[1..], b[1..]);
      assert a == [a[0]] + a[1..] && b == [b[0]] + b[1..];
    }
  }

  lemma TailIn(a: seq<CEntry>, b: seq<CEntry>)
    requires Sorted(a) && a != [] && b != [] && a[0] == b[0] && AllIn(a, b)
    ensures Sorted(a[1..]) && AllIn(a[1..], b[1..])
  {
    forall e | e in a[1..]
      ensures e in b[1..]
    {
      InTail(a, b, e);
    }
  }

  lemma SameHead(a: seq<CEntry>, b: seq<CEntry>)
    requires Sorted(a) && Sorted(b) && AllIn(a, b) && AllIn(b, a)
    requires a != [] && b != []
    ensures a[0] == b[0]
  {
    assert a[0] in b && b[0] in a;
    var i :| 0 <= i < |b| && b[i] == a[0];
    var j :| 0 <= j < |a| && a[j] == b[0];
  }

  lemma EmptyToo(a: seq<CEntry>, b: seq<CEntry>)
    requires AllIn(b, a)
    ensures a == [] ==> b == []
  {
    assert b != [] ==> b[0] in a;
  }

  lemma InTail(a: seq<CEntry>, b: seq<CEntry>, e: CEntry)
    requires Sorted(a) && |a| > 0 && |b| > 0 && a[0] == b[0] && e in a[1..] && e in b
    ensures e in b[1..]
  {
    var i :| 0 <= i < |a[1..]| && a[1..][i] == e;
    assert a[i + 1] == e && e != a[0];
    var j :| 0 <= j < |b| && b[j] == e;
    assert b[1..][j - 1] == e;
  }

  /** Drops the tiny elements of a compressed vector. */
  method DropTiny(x: CVector) returns (result: CVector)
    requires x.Valid()
    ensures result.Valid() && result.size == x.size && forall e | e in result.data :: !Tiny(e.value)
    ensures forall r: nat :: result.Get(r) == if Tiny(x.Get(r)) then 0.0 else x.Get(r)
  {
    var data: seq<CEntry> := [];
    forall r: nat
      ensures At(x.data[..0], r) == 0.0
    {
      assert x.data[..0] == [];
    }
    for i := 0 to |x.data|
      invariant Sorted(data) && Ahead(data, x.data, i)
      invariant forall e | e in data :: e.index < x.size && !Tiny(e.value)
      invariant forall r: nat :: At(data, r) == if Tiny(At(x.data[..i], r)) then 0.0 else At(x.data[..i], r)
    {
      hide At;
      ghost var data0 := data;
      var e := x.data[i];
      assert e in x.data;
      AheadStep(data, e.value, x.data, i);
      if !Tiny(e.value) {
        data := data + [e];
      }
      forall r: nat
        ensures At(data, r) == if Tiny(At(x.data[..i + 1], r)) then 0.0 else At(x.data[..i + 1], r)
      {
        AtPush(data0, e, r);
        AtPrefix(x.data, i, r);
        if r == e.index {
          AtMissing(x.data[..i], r);
        }
      }
    }
    assert x.data[..|x.data|] == x.data;
    result := CVector(x.size, data);
  }

  /** The scaled column `c`, as a vector of the given size. */
  method ScaledColumn(m: CMatrix, c: nat, xval: real, size: nat) returns (tmp: CVector)
    requires m.Valid() && c < m.size2 && m.size1 <= size
    ensures tmp.Valid() && tmp.size == size && forall r: nat :: tmp.Get(r) == Times(xval, m.Get(r, c))
  {
    assert m.ColumnOk(c);
    var column := m.Column(c).data;
    var data: seq<CEntry> := [];
    forall r: nat
      ensures Times(xval, At(column[..0], r)) == 0.0
    {
      assert column[..0] == [];
      TimesIs(xval, 0.0);
    }
    for j := 0 to |column|
      invariant |data| == j && forall k | 0 <= k < j :: data[k].index == column[k].index
      invariant forall r: nat :: At(data, r) == Times(xval, At(column[..j], r))
    {
      hide At, Times;
      var e := CEntry(column[j].index, xval * column[j].value);
      TimesIs(xval, column[j].value);
      TimesIs(xval, 0.0);
      forall r: nat
        ensures At(data + [e], r) == Times(xval, At(column[..j + 1], r))
      {
        AtPush(data, e, r);
        AtPrefix(column, j, r);
        TimesPlus(xval, At(column[..j], r), Part(column[j], r));
      }
      data := data + [e];
    }
    assert column[..|column|] == column;
    tmp := CVector(size, data);
    forall e | e in data
      ensures e.index < m.size1
    {
      var k :| 0 <= k < |data| && data[k] == e;
      assert column[k] in column;
    }
  }

  /** `result` has the length of `x` and stores exactly the elements of the product that are not tiny, be they below
      its last row or not. */
  ghost predicate SparseProduct(result: CVector, m: CMatrix, x: CVector)
    requires m.Valid() && x.size == m.size2
  {
    && result.size == x.size && Sorted(result.data) && (forall e | e in result.data :: !Tiny(e.value))
    && forall r: nat :: result.Get(r) == if Tiny(ProductAt(m, x, r)) then 0.0 else ProductAt(m, x, r)
  }

  /** Such a vector is well formed exactly if only tiny elements are below the last row. */
  lemma SparseProductIsValid(result: CVector, m: CMatrix, x: CVector)
    requires m.Valid() && x.size == m.size2 && SparseProduct(result, m, x)
    ensures result.Valid() <==> forall r: nat | r >= x.size :: Tiny(ProductAt(m, x, r))
    ensures result.Valid() ==> SparseOf(result, Product(m, x))
  {
    hide ProductAt;
    if result.Valid() {
      forall r: nat | r >= x.size
        ensures Tiny(ProductAt(m, x, r))
      {
        AtMissing(result.data, r);
      }
    } else {
      var e :| e in result.data && e.index >= result.size;
      var i :| 0 <= i < |result.data| && result.data[i] == e;
      AtStored(result.data, i);
      assert result.Get(e.index) == e.value && !Tiny(e.value);
      assert !Tiny(ProductAt(m, x, e.index));
    }
  }

  /** The product with a sparse accumulator, in which no row is out of range. */
  method MultAccumulate(m: CMatrix, x: CVector) returns (result: CVector)
    requires m.Valid() && x.Valid() && x.size == m.size2
    ensures SparseProduct(result, m, x)
  {
    var size := if m.size1 < x.size then x.size else m.size1;
    var accum := CVector(size, []);
    assert forall r: nat :: accum.Get(r) == 0.0;
    hide At, Times, CMatrix.Get, CMatrix.Valid, ProductAt;
    for i := 0 to |x.data|
      invariant accum.Valid() && accum.size == size
      invariant forall r: nat :: accum.Get(r) == Partial(m, x, r, i)
    {
      assert x.data[i] in x.data;
      var tmp := ScaledColumn(m, x.data[i].index, x.data[i].value, size);
      accum := Add(accum, tmp);
    }
    var kept := DropTiny(accum);
    forall r: nat
      ensures accum.Get(r) == ProductAt(m, x, r)
    {
      PartialIsProduct(m, x, r);
    }
    // the result is given the length of x without a look at its entries
    result := kept.(size := x.size);
    assert forall r: nat :: result.Get(r) == kept.Get(r);
  }

  /** The product, cut off or filled up with zeros to the length of `x`. */
  ghost function Product(m: CMatrix, x: CVector): (v: seq<real>)
    requires m.Valid() && x.size == m.size2
    ensures |v| == x.size
  {
    seq(x.size, (r: nat) => ProductAt(m, x, r))
  }

  lemma SparseOfProduct(result: CVector, m: CMatrix, x: CVector)
    requires m.Valid() && x.Valid() && x.size == m.size2 && !Overflows(m, x) && SparseOf(result, Product(m, x))
    ensures SparseProduct(result, m, x)
  {
    hide ProductAt;
    forall r: nat
      ensures result.Get(r) == if Tiny(ProductAt(m, x, r)) then 0.0 else ProductAt(m, x, r)
    {
      if r >= x.size {
        NothingBelow(m, x, r);
        AtMissing(result.data, r);
      } else {
        assert Product(m, x)[r] == ProductAt(m, x, r);
      }
    }
  }

  predicate IsSparse(m: CMatrix, x: CVector) {
    (|x.data| * |m.data|) as real < 0.1 * (m.size1 * m.size2) as real
  }

  /** The product as a compressed vector. It fails exactly if the operands are not very sparse and some element lies
      below the last row of the result; otherwise the result is the same whichever way is chosen. */
  method Mult(m: CMatrix, x: CVector) returns (result: Option<CVector>)
    requires m.Valid() && x.Valid() && x.size == m.size2
    ensures result.None? <==> !IsSparse(m, x) && Overflows(m, x)
    ensures result.Some? ==> SparseProduct(result.value, m, x)
    ensures m.size1 <= x.size ==> result.Some? && SparseOf(result.value, Product(m, x))
  {
    hide ProductAt, Overflows;
    if m.size1 <= x.size {
      FlatFits(m, x);
      FlatIsTiny(m, x);
    }
    if IsSparse(m, x) {
      var product := MultAccumulate(m, x);
      SparseProductIsValid(product, m, x);
      return Some(product);
    }
    var tmp := MultDense(m, x);
    if tmp.None? {
      return None;
    }
    var product := Sparse(tmp.value);
    SparseOfProduct(product, m, x);
    return Some(product);
  }

  lemma FlatIsTiny(m: CMatrix, x: CVector)
    requires m.Valid() && x.Valid() && m.size1 <= x.size == m.size2
    ensures forall r: nat | r >= x.size :: Tiny(ProductAt(m, x, r))
  {
    FlatFits(m, x);
    forall r: nat | r >= x.size
      ensures Tiny(ProductAt(m, x, r))
    {
      NothingBelow(m, x, r);
    }
  }
}
