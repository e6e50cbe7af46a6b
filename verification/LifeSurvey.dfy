/** The LifeSurvey map: a hexagonal grid of regions, and which cells can still reach a region. */
module LifeSurvey {
  import opened GridIndex

  const LS_OBSTACLE: nat := 100

  const LS_NE: nat := 0
  const LS_E: nat := 1
  const LS_SE: nat := 2

  datatype LSPos = LSPos(x: int, y: int)

  /** Cells hold LS_OBSTACLE or a region number; they are stored row by row. */
  datatype LSGrid = LSGrid(width: nat, height: nat, data: seq<nat>) {

    predicate Valid() {
      |data| == width * height
    }

    predicate InBounds(pos: LSPos) {
      0 <= pos.x < width && 0 <= pos.y < height
    }

    function Index(pos: LSPos): (i: nat)
      requires Valid() && InBounds(pos)
      ensures i < |data|
    {
      IndexInRange(width, height, pos.x, pos.y);
      width * pos.y + pos.x
    }

    function GetCell(pos: LSPos): nat
      requires Valid() && InBounds(pos)
    {
      data[Index(pos)]
    }

    function SetCell(pos: LSPos, c: nat): (g: LSGrid)
      requires Valid() && InBounds(pos)
      ensures g.Valid() && g.width == width && g.height == height
    {
      this.(data := data[Index(pos) := c])
    }

    function GetCellBounded(pos: LSPos): nat
      requires Valid()
    {
      if InBounds(pos) then GetCell(pos) else LS_OBSTACLE
    }

    /** The cell is on the map and not an obstacle. */
    predicate Open(pos: LSPos)
      requires Valid()
    {
      GetCellBounded(pos) != LS_OBSTACLE
    }
  }

  lemma CellAfterSet(g: LSGrid, pos: LSPos, c: nat, other: LSPos)
    requires g.Valid() && g.InBounds(pos) && g.InBounds(other)
    ensures g.SetCell(pos, c).GetCell(other) == if other == pos then c else g.GetCell(other)
  {
    if g.Index(pos) == g.Index(other) {
      IndexInjective(g.width, pos.x, pos.y, other.x, other.y);
    }
  }

  function GetNeighbor(pos: LSPos, dir: nat): LSPos
    requires dir < 3
  {
    if dir == LS_NE then LSPos(pos.x + 1, pos.y + 1)
    else if dir == LS_E then LSPos(pos.x + 1, pos.y)
    else LSPos(pos.x, pos.y - 1)
  }

  /** What is left of the room to move; every move on the map uses some of it, because `2x - y` grows. */
  function Room(g: LSGrid, pos: LSPos): nat
    requires g.Valid()
  {
    if g.InBounds(pos) then 2 * g.width + pos.y - 2 * pos.x else 0
  }

  lemma MovesUseRoom(g: LSGrid, pos: LSPos, dir: nat)
    requires g.Valid() && dir < 3 && g.InBounds(pos) && g.InBounds(GetNeighbor(pos, dir))
    ensures Room(g, GetNeighbor(pos, dir)) < Room(g, pos)
  {
  }

  /** Region `r` can be reached from the open cell `pos` by moves over open cells. */
  ghost predicate Reaches(g: LSGrid, r: nat, pos: LSPos)
    requires g.Valid()
    decreases Room(g, pos)
  {
    && g.Open(pos)
    && (g.GetCell(pos) == r
        || exists dir: nat :: dir < 3 && g.Open(GetNeighbor(pos, dir)) && Reaches(g, r, GetNeighbor(pos, dir)))
  }

  /** Following the moves `dirs` from `pos` stays on open cells and ends in region `r`. */
  ghost predicate LeadsTo(g: LSGrid, r: nat, pos: LSPos, dirs: seq<nat>)
    requires g.Valid()
    decreases |dirs|
  {
    && g.Open(pos)
    && if dirs == [] then g.GetCell(pos) == r
       else dirs[0] < 3 && LeadsTo(g, r, GetNeighbor(pos, dirs[0]), dirs[1..])
  }

  /** Reachability is the existence of a path. */
  lemma {:induction false} ReachesIffPath(g: LSGrid, r: nat, pos: LSPos)
    requires g.Valid()
    ensures Reaches(g, r, pos) <==> exists dirs :: LeadsTo(g, r, pos, dirs)
  {
    if Reaches(g, r, pos) {
      var path := PathOfReaches(g, r, pos);
      assert exists dirs :: LeadsTo(g, r, pos, dirs) by {
        assert LeadsTo(g, r, pos, path);
      }
    } else if dirs :| LeadsTo(g, r, pos, dirs) {
      LeadsToReaches(g, r, pos, dirs);
    }
  }

  lemma {:induction false} PathOfReaches(g: LSGrid, r: nat, pos: LSPos) returns (dirs: seq<nat>)
    requires g.Valid() && Reaches(g, r, pos)
    ensures LeadsTo(g, r, pos, dirs)
    decreases Room(g, pos)
  {
    if g.GetCell(pos) == r {
      dirs := [];
    } else {
      var dir: nat :| dir < 3 && g.Open(GetNeighbor(pos, dir)) && Reaches(g, r, GetNeighbor(pos, dir));
      var rest := PathOfReaches(g, r, GetNeighbor(pos, dir));
      dirs := [dir] + rest;
      assert dirs[1..] == rest;
    }
  }

  lemma {:induction false} LeadsToReaches(g: LSGrid, r: nat, pos: LSPos, dirs: seq<nat>)
    requires g.Valid() && LeadsTo(g, r, pos, dirs)
    ensures Reaches(g, r, pos)
    decreases |dirs|
  {
    if dirs != [] {
      var next := GetNeighbor(pos, dirs[0]);
      LeadsToReaches(g, r, next, dirs[1..]);
      assert g.Open(next) && Reaches(g, r, next);
    }
  }

  // ---------- Computing reachability ----------

  function Zeros(s: seq<nat>): nat {
    if s == [] then 0 else Zeros(s[..|s| - 1]) + if s[|s| - 1] == 0 then 1 else 0
  }

  lemma {:induction false} ZeroFilled(s: seq<nat>, i: nat)
    requires i < |s| && s[i] == 0
    ensures Zeros(s[i := 1]) == Zeros(s) - 1
  {
    var n := |s| - 1;
    if i == n {
      assert s[i := 1][..n] == s[..n];
    } else {
      assert s[i := 1][..n] == s[..n][i := 1];
      ZeroFilled(s[..n], i);
    }
  }

  /** `result` marks only cells from which region `r` can be reached, and all cells of the region itself. */
  ghost predicate SoundMarks(g: LSGrid, r: nat, result: LSGrid)
    requires g.Valid()
  {
    && result.Valid() && result.width == g.width && result.height == g.height
    && forall pos | g.InBounds(pos) :: SoundMark(g, r, pos, result.GetCell(pos))
  }

  ghost predicate SoundMark(g: LSGrid, r: nat, pos: LSPos, mark: nat)
    requires g.Valid()
  {
    && (mark == LS_OBSTACLE || mark == 0 || mark == 1)
    && (mark == LS_OBSTACLE <==> !g.Open(pos))
    && (mark == 1 ==> Reaches(g, r, pos))
    && (g.Open(pos) && g.GetCell(pos) == r ==> mark == 1)
  }

  /** An unmarked cell next to a marked one. */
  predicate CanMark(result: LSGrid, pos: LSPos)
    requires result.Valid() && result.InBounds(pos)
  {
    && result.GetCell(pos) == 0
    && (result.GetCellBounded(GetNeighbor(pos, LS_NE)) == 1
        || result.GetCellBounded(GetNeighbor(pos, LS_E)) == 1
        || result.GetCellBounded(GetNeighbor(pos, LS_SE)) == 1)
  }

  lemma MarkOfNeighbor(g: LSGrid, r: nat, result: LSGrid, next: LSPos)
    requires g.Valid() && SoundMarks(g, r, result) && result.GetCellBounded(next) == 1
    ensures g.Open(next) && Reaches(g, r, next)
  {
    assert result.InBounds(next);
    assert g.InBounds(next);
    assert SoundMark(g, r, next, result.GetCell(next));
  }

  lemma MarkedReaches(g: LSGrid, r: nat, result: LSGrid, pos: LSPos)
    requires g.Valid() && SoundMarks(g, r, result) && result.InBounds(pos) && CanMark(result, pos)
    ensures g.Open(pos) && Reaches(g, r, pos)
  {
    assert SoundMark(g, r, pos, result.GetCell(pos));
    var dir: nat :| dir < 3 && result.GetCellBounded(GetNeighbor(pos, dir)) == 1;
    MarkOfNeighbor(g, r, result, GetNeighbor(pos, dir));
  }

  lemma MarkIsSound(g: LSGrid, r: nat, result: LSGrid, pos: LSPos)
    requires g.Valid() && SoundMarks(g, r, result) && result.InBounds(pos) && CanMark(result, pos)
    ensures SoundMarks(g, r, result.SetCell(pos, 1))
    ensures Zeros(result.SetCell(pos, 1).data) == Zeros(result.data) - 1
  {
    MarkedReaches(g, r, result, pos);
    var after := result.SetCell(pos, 1);
    forall other | g.InBounds(other)
      ensures after.GetCell(other) == if other == pos then 1 else result.GetCell(other)
    {
      CellAfterSet(result, pos, 1, other);
    }
    assert Zeros(after.data) == Zeros(result.data) - 1 by {
      ZeroFilled(result.data, result.Index(pos));
    }
    assert SoundMark(g, r, pos, 1) by {
      assert SoundMark(g, r, pos, 0);
    }
    forall other | g.InBounds(other)
      ensures SoundMark(g, r, other, after.GetCell(other))
    {
      assert SoundMark(g, r, other, result.GetCell(other));
    }
  }

  /** When nothing can be marked any more, every cell from which the region can be reached is marked. */
  lemma {:induction false} FixpointComplete(g: LSGrid, r: nat, result: LSGrid, pos: LSPos)
    requires g.Valid() && SoundMarks(g, r, result) && g.InBounds(pos) && Reaches(g, r, pos)
    requires forall p | result.InBounds(p) :: !CanMark(result, p)
    ensures result.GetCell(pos) == 1
    decreases Room(g, pos)
  {
    assert SoundMark(g, r, pos, result.GetCell(pos));
    if g.GetCell(pos) != r {
      var dir: nat :| dir < 3 && g.Open(GetNeighbor(pos, dir)) && Reaches(g, r, GetNeighbor(pos, dir));
      FixpointComplete(g, r, result, GetNeighbor(pos, dir));
      assert !CanMark(result, pos);
    }
  }

  /** The reachability map of region `r`: obstacles stay obstacles, and an open cell holds 1 if the region
      can be reached from it and 0 otherwise. */
  ghost predicate IsReachableMap(g: LSGrid, r: nat, result: LSGrid)
    requires g.Valid()
  {
    && result.Valid() && result.width == g.width && result.height == g.height
    && forall pos | g.InBounds(pos) ::
         result.GetCell(pos) == if !g.Open(pos) then LS_OBSTACLE else if Reaches(g, r, pos) then 1 else 0
  }

  /** The mask of region `r`. */
  method RegionMask(g: LSGrid, r: nat) returns (result: LSGrid)
    requires g.Valid() && r != LS_OBSTACLE
    ensures SoundMarks(g, r, result)
  {
    result := g;
    for i := 0 to |g.data|
      invariant result.width == g.width && result.height == g.height && |result.data| == |g.data|
      invariant forall j | 0 <= j < i ::
        result.data[j] == if g.data[j] == LS_OBSTACLE then LS_OBSTACLE else if g.data[j] == r then 1 else 0
      invariant forall j | i <= j < |g.data| :: result.data[j] == g.data[j]
    {
      if g.data[i] != LS_OBSTACLE {
        result := result.(data := result.data[i := if r == g.data[i] then 1 else 0]);
      }
    }
    forall pos | g.InBounds(pos)
      ensures result.GetCell(pos)
        == if !g.Open(pos) then LS_OBSTACLE else if g.GetCell(pos) == r then 1 else 0
    {
      assert result.Index(pos) == g.Index(pos);
    }
  }

  /** Marks, sweep after sweep, every cell that can reach region `r`, until a sweep changes nothing. */
  method CalculateRegionReachable(g: LSGrid, r: nat) returns (result: LSGrid)
    requires g.Valid() && r != LS_OBSTACLE
    ensures IsReachableMap(g, r, result)
  {
    result := RegionMask(g, r);
    var numChanges := 1;
    while numChanges > 0
      invariant 0 <= numChanges && SoundMarks(g, r, result)
      invariant numChanges == 0 ==> forall p | result.InBounds(p) :: !CanMark(result, p)
      decreases Zeros(result.data), numChanges
    {
      result, numChanges := Sweep(g, r, result);
    }
    forall pos | g.InBounds(pos) && Reaches(g, r, pos)
      ensures result.GetCell(pos) == 1
    {
      FixpointComplete(g, r, result, pos);
    }
  }

  /** One sweep over the map, rows upwards and each row from east to west. */
  method Sweep(g: LSGrid, r: nat, start: LSGrid) returns (result: LSGrid, numChanges: nat)
    requires g.Valid() && SoundMarks(g, r, start)
    ensures SoundMarks(g, r, result) && Zeros(result.data) == Zeros(start.data) - numChanges
    ensures numChanges == 0 ==> forall p | result.InBounds(p) :: !CanMark(result, p)
  {
    hide SoundMark, LSGrid.Index, LSGrid.GetCell, LSGrid.SetCell;
    result, numChanges := start, 0;
    for y := 0 to start.height
      invariant SoundMarks(g, r, result) && Zeros(result.data) == Zeros(start.data) - numChanges
      invariant numChanges == 0 ==> result == start
      invariant numChanges == 0 ==> forall p | start.InBounds(p) && p.y < y :: !CanMark(start, p)
    {
      var x := start.width - 1;
      while x >= 0
        invariant -1 <= x < start.width
        invariant SoundMarks(g, r, result) && Zeros(result.data) == Zeros(start.data) - numChanges
        invariant numChanges == 0 ==> result == start
        invariant numChanges == 0 ==>
          forall p | start.InBounds(p) && (p.y < y || (p.y == y && p.x > x)) :: !CanMark(start, p)
      {
        hide Reaches, Zeros;
        var pos := LSPos(x, y);
        if CanMark(result, pos) {
          MarkIsSound(g, r, result, pos);
          result := result.SetCell(pos, 1);
          numChanges := numChanges + 1;
        }
        x := x - 1;
      }
    }
  }
}
