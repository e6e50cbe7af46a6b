/** Indexing a grid that is stored row by row. */
module GridIndex {

  lemma IndexInRange(w: nat, h: nat, x: int, y: int)
    requires 0 <= x < w && 0 <= y < h
    ensures 0 <= w * y + x < w * h
  {
    assert w * (h - 1 - y) >= 0;
    assert w * (h - 1 - y) == w * h - w - w * y;
  }

  lemma RowsApart(w: nat, y: int, y': int)
    requires y < y'
    ensures w * y + w <= w * y'
  {
    var d := y' - y - 1;
    assert w * d >= 0;
    assert w * y' == w * y + w * d + w by {
      assert y' == y + d + 1;
    }
  }

  /** Different cells have different indices. */
  lemma IndexInjective(w: nat, x: int, y: int, x': int, y': int)
    requires 0 <= x < w && 0 <= x' < w && w * y + x == w * y' + x'
    ensures x == x' && y == y'
  {
    if y < y' {
      RowsApart(w, y, y');
    } else if y' < y {
      RowsApart(w, y', y);
    }
  }
}
