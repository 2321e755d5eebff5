/**
 * Room records and their binding to the grid (constraints.py: createRoom,
 * roomConstraint, matchCellToRoom), and the label list that fixes the
 * integer encoding of the grid cells (generatorLogic.py).
 */
module Layout {
  import opened Common
  import opened Reify
  import opened Rooms

  /**
   * A room dictionary as createRoom builds it: label, minimum sizes, and a
   * corner only where the room is pinned (fixed-position utility rooms).
   */
  datatype RoomSpec = RoomSpec(val: string, minArea: int, minHeight: int, minWidth: int,
                               ax: Option<int>, ay: Option<int>, bx: Option<int>, by': Option<int>)

  /** The values the solver gives a room's four corner variables. */
  datatype Corners = Corners(ax: int, ay: int, bx: int, by': int)

  /** createRoom: minimum height and width default to 0 and corners to unpinned. */
  function CreateRoom(val: string, minArea: int, minHeight: int := 0, minWidth: int := 0,
                      ax: Option<int> := None, ay: Option<int> := None,
                      bx: Option<int> := None, by': Option<int> := None): RoomSpec
  {
    RoomSpec(val, minArea, minHeight, minWidth, ax, ay, bx, by')
  }

  /** A corner of the record: the pinned value, or the solver's value for a fresh variable. */
  function Pick(pinned: Option<int>, chosen: int): int
  {
    if pinned.Some? then pinned.value else chosen
  }

  /**
   * The room roomConstraint leaves behind: every unpinned corner is filled
   * with a fresh variable, here with the value the solver gives it.
   */
  function Place(spec: RoomSpec, choice: Corners): (r: Room)
    ensures r.val == spec.val && r.minArea == spec.minArea
    ensures r.minHeight == spec.minHeight && r.minWidth == spec.minWidth
    ensures spec.ax.None? ==> r.ax == choice.ax
    ensures spec.ay.None? ==> r.ay == choice.ay
    ensures spec.bx.None? ==> r.bx == choice.bx
    ensures spec.by'.None? ==> r.by' == choice.by'
    ensures spec.ax.Some? ==> r.ax == spec.ax.value
    ensures spec.ay.Some? ==> r.ay == spec.ay.value
    ensures spec.bx.Some? ==> r.bx == spec.bx.value
    ensures spec.by'.Some? ==> r.by' == spec.by'.value
  {
    Room(spec.val, spec.minArea, spec.minHeight, spec.minWidth,
         Pick(spec.ax, choice.ax), Pick(spec.ay, choice.ay),
         Pick(spec.bx, choice.bx), Pick(spec.by', choice.by'))
  }

  /** A room created with no pins takes all four corners from the solver. */
  lemma CreatedRoomIsFree(val: string, minArea: int, choice: Corners)
    ensures var r := Place(CreateRoom(val, minArea), choice);
            r.ax == choice.ax && r.ay == choice.ay && r.bx == choice.bx && r.by' == choice.by'
            && r.minHeight == 0 && r.minWidth == 0
  {
  }

  /**
   * The domains roomConstraint gives the fresh corner variables, as written:
   * [0, len(grid) - 1] for all four, although `ay` and `by` are columns.
   */
  predicate CornerDomainAsWritten(spec: RoomSpec, r: Room, grid: seq<seq<int>>)
    requires IsGrid(grid)
  {
    var gridW := |grid|;
    && (spec.ax.None? ==> 0 <= r.ax <= gridW - 1)
    && (spec.ay.None? ==> 0 <= r.ay <= gridW - 1)
    && (spec.bx.None? ==> 0 <= r.bx <= gridW - 1)
    && (spec.by'.None? ==> 0 <= r.by' <= gridW - 1)
  }

  /** The intended domains: rows within the rows of the grid, columns within its columns. */
  predicate CornerDomain(spec: RoomSpec, r: Room, grid: seq<seq<int>>)
    requires IsGrid(grid)
  {
    var gridW, gridH := |grid|, |grid[0]|;
    && (spec.ax.None? ==> 0 <= r.ax <= gridW - 1)
    && (spec.ay.None? ==> 0 <= r.ay <= gridH - 1)
    && (spec.bx.None? ==> 0 <= r.bx <= gridW - 1)
    && (spec.by'.None? ==> 0 <= r.by' <= gridH - 1)
  }

  /**
   * The height, width and area variables: height in [minHeight, columns],
   * width in [minWidth, rows], area = width * height in [minArea, cells].
   */
  predicate SizeConstraints(r: Room, grid: seq<seq<int>>)
    requires IsGrid(grid)
  {
    var gridW, gridH := |grid|, |grid[0]|;
    && r.minHeight <= Height(r) <= gridH
    && r.minWidth <= Width(r) <= gridW
    && r.minArea <= Area(r) <= gridH * gridW
  }

  /**
   * matchCellToRoom: `inRoom` reifies "the row is in [ax, bx] and the column
   * in [ay, by]"; the cell must hold the room's index when `inRoom` holds and
   * must not when it fails. True when the cell satisfies both clauses.
   */
  function MatchCell(room: Room, index: int, row: int, col: int, cell: int): (b: bool)
    ensures b <==> (cell == index <==> Inside(room, row, col))
  {
    IsAndPair(IsBetween(row, room.ax, room.bx), IsBetween(col, room.ay, room.by'));
    var inRoom := IsAnd([IsBetween(row, room.ax, room.bx), IsBetween(col, room.ay, room.by')]);
    Reified(inRoom, cell == index, cell != index)
  }

  /** matchCellToRoom holds for every cell of the first `rows` rows. */
  predicate RowsMatch(room: Room, grid: seq<seq<int>>, index: int, rows: int)
    requires 0 <= rows <= |grid|
  {
    forall row, col :: 0 <= row < rows && 0 <= col < |grid[row]| ==>
      MatchCell(room, index, row, col, grid[row][col])
  }

  /** matchCellToRoom holds on every cell: the cells holding `index` are exactly the room's. */
  predicate GridMatches(room: Room, grid: seq<seq<int>>, index: int)
  {
    RowsMatch(room, grid, index, |grid|)
  }

  /** The loop of roomConstraint over every cell, calling matchCellToRoom. */
  method MatchGrid(room: Room, grid: seq<seq<int>>, index: int) returns (ok: bool)
    ensures ok <==> forall row, col :: 0 <= row < |grid| && 0 <= col < |grid[row]| ==>
                      (grid[row][col] == index <==> Inside(room, row, col))
  {
    ok := true;
    var rowIdx := 0;
    while rowIdx < |grid|
      invariant 0 <= rowIdx <= |grid|
      invariant ok <==> RowsMatch(room, grid, index, rowIdx)
    {
      var colIdx := 0;
      while colIdx < |grid[rowIdx]|
        invariant 0 <= colIdx <= |grid[rowIdx]|
        invariant ok <==> RowsMatch(room, grid, index, rowIdx)
                          && forall col :: 0 <= col < colIdx ==>
                               MatchCell(room, index, rowIdx, col, grid[rowIdx][col])
      {
        ok := ok && MatchCell(room, index, rowIdx, colIdx, grid[rowIdx][colIdx]);
        colIdx := colIdx + 1;
      }
      rowIdx := rowIdx + 1;
    }
  }

  /** Everything roomConstraint requires of a placed room, with the intended corner domains. */
  predicate RoomHolds(spec: RoomSpec, r: Room, grid: seq<seq<int>>, index: int)
    requires IsGrid(grid)
  {
    CornerDomain(spec, r, grid) && SizeConstraints(r, grid) && GridMatches(r, grid, index)
  }

  /** The same with the corner domains as written. */
  predicate RoomHoldsAsWritten(spec: RoomSpec, r: Room, grid: seq<seq<int>>, index: int)
    requires IsGrid(grid)
  {
    CornerDomainAsWritten(spec, r, grid) && SizeConstraints(r, grid) && GridMatches(r, grid, index)
  }

  /**
   * roomConstraint: fills the unpinned corners, with the corner domains as
   * written, then evaluates the size and area constraints and
   * matchCellToRoom on every cell. `domain.index` of a label missing from
   * the domain raises ValueError at the first cell.
   */
  method RoomConstraint(spec: RoomSpec, choice: Corners, grid: seq<seq<int>>, domain: seq<string>)
    returns (room: Room, ok: Result<bool>)
    requires IsGrid(grid)
    ensures room == Place(spec, choice)
    ensures ok.Err? <==> |grid[0]| > 0 && spec.val !in domain
    ensures ok.Err? ==> ok.error == ValueError
    ensures ok.Ok? && spec.val in domain ==>
              (ok.value <==> RoomHoldsAsWritten(spec, room, grid, IndexOf(domain, spec.val).value))
    ensures ok.Ok? && spec.val !in domain ==>
              (ok.value <==> CornerDomainAsWritten(spec, room, grid) && SizeConstraints(room, grid))
  {
    room := Place(spec, choice);
    var sized := CornerDomainAsWritten(spec, room, grid) && SizeConstraints(room, grid);
    match IndexOf(domain, spec.val)
    case None =>
      if |grid[0]| > 0 {
        ok := Err(ValueError);
      } else {
        ok := Ok(sized);
      }
    case Some(index) =>
      var cellsMatch := MatchGrid(room, grid, index);
      ok := Ok(sized && cellsMatch);
  }

  /**
   * matchCellToRoom keeps rooms with different indices apart: no cell of
   * the grid lies in both.
   */
  lemma DistinctRoomsShareNoCell(r1: Room, r2: Room, grid: seq<seq<int>>, i1: int, i2: int, row: int, col: int)
    requires GridMatches(r1, grid, i1) && GridMatches(r2, grid, i2) && i1 != i2
    requires 0 <= row < |grid| && 0 <= col < |grid[row]|
    ensures !(Inside(r1, row, col) && Inside(r2, row, col))
    ensures Inside(r1, row, col) ==> grid[row][col] == i1
  {
  }

  /** Two placed rooms with different indices that lie inside the grid do not overlap at all. */
  lemma PlacedRoomsDisjoint(r1: Room, r2: Room, grid: seq<seq<int>>, i1: int, i2: int)
    requires IsGrid(grid) && WithinGrid(r1, grid) && WithinGrid(r2, grid)
    requires GridMatches(r1, grid, i1) && GridMatches(r2, grid, i2) && i1 != i2
    ensures !Overlap(r1, r2)
  {
    var row := if r1.ax <= r2.ax then r2.ax else r1.ax;
    var col := if r1.ay <= r2.ay then r2.ay else r1.ay;
    assert 0 <= row < |grid| && 0 <= col < |grid[row]|;
    DistinctRoomsShareNoCell(r1, r2, grid, i1, i2, row, col);
    assert Overlap(r1, r2) ==> Inside(r1, row, col) && Inside(r2, row, col);
  }

  /** Non-negative factors with a positive product are both positive. */
  lemma PositiveFactors(w: int, h: int)
    requires w >= 0 && h >= 0 && w * h >= 1
    ensures w >= 1 && h >= 1
  {
    assert w == 0 ==> w * h == 0;
    assert h == 0 ==> w * h == 0;
  }

  /**
   * With non-negative minimum sides, a positive minimum area forces the
   * corners into order: the room has at least one cell.
   */
  lemma MinAreaOrdersCorners(r: Room, grid: seq<seq<int>>)
    requires IsGrid(grid) && SizeConstraints(r, grid)
    requires r.minWidth >= 0 && r.minHeight >= 0 && r.minArea >= 1
    ensures WellFormed(r) && Width(r) >= 1 && Height(r) >= 1
  {
    PositiveFactors(Width(r), Height(r));
  }

  /**
   * As written, a free room may lie wholly outside the grid when the grid has
   * more rows than columns: on a 3x1 grid the 1x1 room at row 0, column 2
   * meets every constraint of roomConstraint and covers no cell.
   */
  lemma RoomOutsideGridAsWritten()
    ensures var grid := [[0], [0], [0]];
            var spec := CreateRoom("R", 1);
            var room := Place(spec, Corners(0, 2, 0, 2));
            && IsGrid(grid)
            && RoomHoldsAsWritten(spec, room, grid, 1)
            && !WithinGrid(room, grid)
            && forall row, col :: 0 <= row < |grid| && 0 <= col < |grid[row]| ==> !Inside(room, row, col)
  {
    var grid := [[0], [0], [0]];
    var room := Place(CreateRoom("R", 1), Corners(0, 2, 0, 2));
    assert GridMatches(room, grid, 1) by {
      forall row, col | 0 <= row < |grid| && 0 <= col < |grid[row]|
        ensures MatchCell(room, 1, row, col, grid[row][col])
      {
        assert col == 0 && grid[row][col] == 0;
      }
    }
  }

  /**
   * With the intended domains, a free room of positive minimum area lies in
   * the grid, and its top-left cell holds the room's index.
   */
  lemma FreeRoomWithinGrid(spec: RoomSpec, choice: Corners, grid: seq<seq<int>>, index: int)
    requires IsGrid(grid)
    requires spec.ax.None? && spec.ay.None? && spec.bx.None? && spec.by'.None?
    requires spec.minWidth >= 0 && spec.minHeight >= 0 && spec.minArea >= 1
    requires RoomHolds(spec, Place(spec, choice), grid, index)
    ensures WithinGrid(Place(spec, choice), grid)
    ensures grid[choice.ax][choice.ay] == index
  {
    var r := Place(spec, choice);
    MinAreaOrdersCorners(r, grid);
    assert MatchCell(r, index, r.ax, r.ay, grid[r.ax][r.ay]);
  }

  /** On a square grid the corner domains as written are the intended ones. */
  lemma SquareGridDomainsAgree(spec: RoomSpec, r: Room, grid: seq<seq<int>>, index: int)
    requires IsGrid(grid) && |grid| == |grid[0]|
    ensures RoomHoldsAsWritten(spec, r, grid, index) <==> RoomHolds(spec, r, grid, index)
  {
  }

  /**
   * On a grid with fewer rows than columns, the domains as written keep a
   * free room out of the last columns: a room whose last column is the
   * grid's last column is rejected although it fits.
   */
  lemma LastColumnsUnreachableAsWritten(spec: RoomSpec, r: Room, grid: seq<seq<int>>, index: int)
    requires IsGrid(grid) && |grid| < |grid[0]|
    requires spec.by'.None? && r.by' == |grid[0]| - 1
    ensures !RoomHoldsAsWritten(spec, r, grid, index)
  {
  }

  /**
   * The label list of the driver: the background label `D` first, then the
   * apartments' room labels, then the corridor and utility labels. Its
   * order fixes the integer each cell holds.
   */
  function BuildDomain(roomLabels: seq<string>, corridorLabels: seq<string>): (domain: seq<string>)
    ensures |domain| == 1 + |roomLabels| + |corridorLabels|
    ensures IndexOf(domain, "D") == Some(0)
    ensures forall i :: 0 <= i < |roomLabels| ==> domain[1 + i] == roomLabels[i]
    ensures forall i :: 0 <= i < |corridorLabels| ==> domain[1 + |roomLabels| + i] == corridorLabels[i]
  {
    ["D"] + roomLabels + corridorLabels
  }

  /**
   * When the labels are pairwise distinct and none is `D`, `domain.index`
   * finds each room label at 1 + its position and each corridor label after
   * all room labels.
   */
  lemma BuildDomainIndices(roomLabels: seq<string>, corridorLabels: seq<string>)
    requires "D" !in roomLabels + corridorLabels && Distinct(roomLabels + corridorLabels)
    ensures forall i :: 0 <= i < |roomLabels| ==>
              IndexOf(BuildDomain(roomLabels, corridorLabels), roomLabels[i]) == Some(1 + i)
    ensures forall i :: 0 <= i < |corridorLabels| ==>
              IndexOf(BuildDomain(roomLabels, corridorLabels), corridorLabels[i]) == Some(1 + |roomLabels| + i)
  {
    var domain := BuildDomain(roomLabels, corridorLabels);
    BuildDomainDistinct(roomLabels, corridorLabels);
    forall i | 0 <= i < |roomLabels| ensures IndexOf(domain, roomLabels[i]) == Some(1 + i) {
      assert domain[1 + i] == roomLabels[i];
      IndexOfDistinct(domain, 1 + i);
    }
    forall i | 0 <= i < |corridorLabels|
      ensures IndexOf(domain, corridorLabels[i]) == Some(1 + |roomLabels| + i)
    {
      assert domain[1 + |roomLabels| + i] == corridorLabels[i];
      IndexOfDistinct(domain, 1 + |roomLabels| + i);
    }
  }

  /** Distinct labels other than `D` give a domain without repeats. */
  lemma BuildDomainDistinct(roomLabels: seq<string>, corridorLabels: seq<string>)
    requires "D" !in roomLabels + corridorLabels && Distinct(roomLabels + corridorLabels)
    ensures Distinct(BuildDomain(roomLabels, corridorLabels))
  {
    DistinctCons("D", roomLabels + corridorLabels);
    assert BuildDomain(roomLabels, corridorLabels) == ["D"] + (roomLabels + corridorLabels);
  }
}
