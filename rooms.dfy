/**
 * The geometric predicates and the distance of roomUtility.py, evaluated on
 * one concrete layout. Coordinates follow the source: `x` counts grid rows
 * and `y` counts grid columns; (ax, ay) is a room's top-left cell and
 * (bx, by') its bottom-right cell (`by` is a
 * keyword in Dafny, hence the prime).
 */
module Rooms {
  import opened Common
  import opened Reify

  /** A room of a layout: its name, its minimum sizes and its solved corners. */
  datatype Room = Room(val: string, minArea: int, minHeight: int, minWidth: int,
                       ax: int, ay: int, bx: int, by': int)

  /** Extent along the rows (the source calls this the width). */
  function Width(r: Room): int { r.bx - r.ax + 1 }

  /** Extent along the columns (the source calls this the height). */
  function Height(r: Room): int { r.by' - r.ay + 1 }

  function Area(r: Room): int { Width(r) * Height(r) }

  /** The cell (row, col) belongs to the room's rectangle. */
  predicate Inside(r: Room, row: int, col: int)
  {
    r.ax <= row <= r.bx && r.ay <= col <= r.by'
  }

  /** The rectangle holds at least one cell. */
  predicate WellFormed(r: Room)
  {
    r.ax <= r.bx && r.ay <= r.by'
  }

  /** The two rectangles have a cell in common. */
  predicate Overlap(a: Room, b: Room)
  {
    a.ax <= b.bx && b.ax <= a.bx && a.ay <= b.by' && b.ay <= a.by'
  }

  function Abs(n: int): nat { if n < 0 then -n else n }

  // ---------------------------------------------------------------------------
  // Room categories: the first `_`-separated field of the name
  // ---------------------------------------------------------------------------

  /** `name.split("_")[0]`. */
  function Category(name: string): string
  {
    Split(name, '_')[0]
  }

  /**
   * The name is `cat` or starts with `cat_`; for a category without `_` this
   * is `name.split("_")[0] == cat`, as CategoryIsFirstField shows.
   */
  predicate HasCategory(name: string, cat: string)
  {
    name == cat || cat + "_" <= name
  }

  /** The prefix test is the source's test on the first `_`-separated field. */
  lemma CategoryIsFirstField(name: string, cat: string)
    requires '_' !in cat
    ensures HasCategory(name, cat) <==> Category(name) == cat
  {
    FirstField(name, '_', cat);
  }

  /** isBedroom: the name is `BD` or starts with `BD_`. */
  predicate IsBedroom(room: Room)
  {
    HasCategory(room.val, "BD")
  }

  /** isLivingRoom: the name is `LR` or starts with `LR_`. */
  predicate IsLivingRoom(room: Room)
  {
    HasCategory(room.val, "LR")
  }

  /** isMainBathroom: the name is `MSB` or starts with `MSB_`. */
  predicate IsMainBathroom(room: Room)
  {
    HasCategory(room.val, "MSB")
  }

  /** The three category tests compare the first `_`-separated field of the name. */
  lemma CategoryTests(room: Room)
    ensures IsBedroom(room) <==> Category(room.val) == "BD"
    ensures IsLivingRoom(room) <==> Category(room.val) == "LR"
    ensures IsMainBathroom(room) <==> Category(room.val) == "MSB"
  {
    CategoryIsFirstField(room.val, "BD");
    CategoryIsFirstField(room.val, "LR");
    CategoryIsFirstField(room.val, "MSB");
  }

  // ---------------------------------------------------------------------------
  // Midpoints and distance
  // ---------------------------------------------------------------------------

  /**
   * getMid: a sum variable and a midpoint variable, both with domain
   * [0, max], and `mid = sum / 2`. The division truncates, which is the floor
   * here because the sum is non-negative. None when the sum leaves [0, max].
   */
  function GetMid(max: int, a: int, b: int): (m: Option<int>)
    ensures m.Some? <==> 0 <= a + b <= max
    ensures m.Some? ==> 0 <= m.value <= max && 2 * m.value <= a + b <= 2 * m.value + 1
  {
    var sum := a + b;
    if 0 <= sum <= max then Some(sum / 2) else None
  }

  /** The room's centre, rounded down, when both midpoints exist. */
  function Centre(r: Room, max: int): Option<(int, int)>
  {
    match (GetMid(max, r.ax, r.bx), GetMid(max, r.ay, r.by'))
    case (Some(x), Some(y)) => Some((x, y))
    case _ => None
  }

  function Manhattan(p: (int, int), q: (int, int)): nat
  {
    Abs(p.0 - q.0) + Abs(p.1 - q.1)
  }

  /**
   * getDistance: the Manhattan distance between the two rooms' centres.
   * The differences `diffX` and `diffY` get domain [0, max] before their
   * absolute values are taken, so a value exists only when the first room's
   * centre is at least the second's on both axes.
   */
  function GetDistance(r1: Room, r2: Room, max: int): (d: Option<int>)
    ensures d.Some? ==> 0 <= d.value <= max
  {
    match (GetMid(max, r1.ax, r1.bx), GetMid(max, r1.ay, r1.by'),
           GetMid(max, r2.ax, r2.bx), GetMid(max, r2.ay, r2.by'))
    case (Some(midX1), Some(midY1), Some(midX2), Some(midY2)) =>
      var diffX := midX1 - midX2;
      var diffY := midY1 - midY2;
      if 0 <= diffX <= max && 0 <= diffY <= max then
        var absDiffX := Abs(diffX);
        var absDiffY := Abs(diffY);
        var dist := absDiffX + absDiffY;
        if dist <= max then Some(dist) else None
      else None
    case _ => None
  }

  /**
   * The distance is the Manhattan distance of the two centres, and it exists
   * exactly when both centres exist, the first is at least the second on
   * both axes, and the distance is at most `max`.
   */
  lemma GetDistanceMeaning(r1: Room, r2: Room, max: int)
    ensures GetDistance(r1, r2, max).Some? <==>
      && Centre(r1, max).Some? && Centre(r2, max).Some?
      && Centre(r1, max).value.0 >= Centre(r2, max).value.0
      && Centre(r1, max).value.1 >= Centre(r2, max).value.1
      && Manhattan(Centre(r1, max).value, Centre(r2, max).value) <= max
    ensures GetDistance(r1, r2, max).Some? ==>
      GetDistance(r1, r2, max).value == Manhattan(Centre(r1, max).value, Centre(r2, max).value)
  {
  }

  /**
   * Argument order matters: both orders have a distance only when the two
   * centres coincide, and then both distances are 0.
   */
  lemma DistanceBothOrders(r1: Room, r2: Room, max: int)
    requires GetDistance(r1, r2, max).Some? && GetDistance(r2, r1, max).Some?
    ensures Centre(r1, max) == Centre(r2, max)
    ensures GetDistance(r1, r2, max) == Some(0) == GetDistance(r2, r1, max)
  {
    GetDistanceMeaning(r1, r2, max);
    GetDistanceMeaning(r2, r1, max);
  }

  /** Two 1x1 rooms at (0,0) and (2,2): only one argument order has a distance. */
  lemma DistanceIsNotSymmetric()
    ensures var a := Room("A", 1, 1, 1, 0, 0, 0, 0);
            var b := Room("B", 1, 1, 1, 2, 2, 2, 2);
            GetDistance(a, b, 8) == None && GetDistance(b, a, 8) == Some(4)
  {
  }

  /** isDistanceLessThan: reifies `dist < value`; None when the distance has no value. */
  function IsDistanceLessThan(a: Room, b: Room, value: int, max: int): (r: Option<bool>)
    ensures r.Some? <==> GetDistance(a, b, max).Some?
    ensures r.Some? ==> Reified(r.value, GetDistance(a, b, max).value < value,
                                         GetDistance(a, b, max).value >= value)
  {
    match GetDistance(a, b, max)
    case None => None
    case Some(dist) => Some(dist < value)
  }

  /** isDistanceGreaterThan: reifies `dist > value`; None when the distance has no value. */
  function IsDistanceGreaterThan(a: Room, b: Room, value: int, max: int): (r: Option<bool>)
    ensures r.Some? <==> GetDistance(a, b, max).Some?
    ensures r.Some? ==> Reified(r.value, GetDistance(a, b, max).value > value,
                                         GetDistance(a, b, max).value <= value)
  {
    match GetDistance(a, b, max)
    case None => None
    case Some(dist) => Some(dist > value)
  }

  /** For the same rooms and bound the two threshold tests are never both true. */
  lemma NeverBothLessAndGreater(a: Room, b: Room, value: int, max: int)
    ensures !(IsDistanceLessThan(a, b, value, max) == Some(true)
              && IsDistanceGreaterThan(a, b, value, max) == Some(true))
  {
  }

  // ---------------------------------------------------------------------------
  // Borders
  // ---------------------------------------------------------------------------

  /**
   * isOnBorder: a horizontal border is a row, tested against the rows of the
   * top and bottom edges; otherwise a column, tested against the left and
   * right edges.
   */
  function IsOnBorder(border: int, isHorizontal: bool, room: Room): (b: bool)
    ensures isHorizontal ==> (b <==> room.ax == border || room.bx == border)
    ensures !isHorizontal ==> (b <==> room.ay == border || room.by' == border)
  {
    if isHorizontal then
      IsOrPair(IsEqual(room.ax, border), IsEqual(room.bx, border));
      IsOr([IsEqual(room.ax, border), IsEqual(room.bx, border)])
    else
      IsOrPair(IsEqual(room.ay, border), IsEqual(room.by', border));
      IsOr([IsEqual(room.ay, border), IsEqual(room.by', border)])
  }

  /** The cell lies on the outer wall of the grid. */
  predicate OnOuterWall(grid: seq<seq<int>>, row: int, col: int)
    requires |grid| > 0
  {
    row == 0 || col == 0 || row == |grid| - 1 || col == |grid[0]| - 1
  }

  /** The room lies inside the grid. */
  predicate WithinGrid(r: Room, grid: seq<seq<int>>)
    requires |grid| > 0
  {
    0 <= r.ax <= r.bx < |grid| && 0 <= r.ay <= r.by' < |grid[0]|
  }

  /** isSunRoom: some edge of the room is on row 0, column 0, the last row or the last column. */
  function IsSunRoom(room: Room, grid: seq<seq<int>>): (b: bool)
    requires |grid| > 0
    ensures b <==> || room.ax == 0 || room.bx == 0
                   || room.ay == 0 || room.by' == 0
                   || room.ax == |grid| - 1 || room.bx == |grid| - 1
                   || room.ay == |grid[0]| - 1 || room.by' == |grid[0]| - 1
  {
    var b1 := IsOnBorder(0, true, room);
    var b2 := IsOnBorder(0, false, room);
    var b3 := IsOnBorder(|grid| - 1, true, room);
    var b4 := IsOnBorder(|grid[0]| - 1, false, room);
    var flags := [b1, b2, b3, b4];
    assert (exists i :: 0 <= i < |flags| && flags[i]) <==> b1 || b2 || b3 || b4 by {
      assert flags[0] == b1 && flags[1] == b2 && flags[2] == b3 && flags[3] == b4;
    }
    IsOr(flags)
  }

  /** A room inside the grid gets sunlight exactly when one of its cells is on the outer wall. */
  lemma SunRoomTouchesOuterWall(room: Room, grid: seq<seq<int>>)
    requires |grid| > 0 && WithinGrid(room, grid)
    ensures IsSunRoom(room, grid) <==> exists row, col :: Inside(room, row, col) && OnOuterWall(grid, row, col)
  {
    if IsSunRoom(room, grid) {
      if room.ax == 0 || room.ax == |grid| - 1 || room.ay == 0 || room.ay == |grid[0]| - 1 {
        assert Inside(room, room.ax, room.ay) && OnOuterWall(grid, room.ax, room.ay);
      } else {
        assert Inside(room, room.bx, room.by') && OnOuterWall(grid, room.bx, room.by');
      }
    }
  }

  // ---------------------------------------------------------------------------
  // Band, diagonal contact and adjacency
  // ---------------------------------------------------------------------------

  /** between: the point lies in the room's rectangle grown by one cell on every side. */
  function Between(px: int, py: int, q: Room): (b: bool)
    ensures b <==> q.ax - 1 <= px <= q.bx + 1 && q.ay - 1 <= py <= q.by' + 1
  {
    var b1 := q.bx + 1 >= px;
    var b2 := px >= q.ax - 1;
    var b3 := q.by' + 1 >= py;
    var b4 := py >= q.ay - 1;
    var flags := [b1, b2, b3, b4];
    assert (forall i :: 0 <= i < |flags| ==> flags[i]) <==> b1 && b2 && b3 && b4 by {
      assert flags[0] == b1 && flags[1] == b2 && flags[2] == b3 && flags[3] == b4;
    }
    IsAnd(flags)
  }

  /** isbBRa: the point (bx, by') is one row below and one column right of (ax, ay). */
  function IsbBRa(ax: int, ay: int, bx: int, by': int): (b: bool)
    ensures b <==> bx == ax + 1 && by' == ay + 1
  {
    IsAndPair(ax == bx - 1, ay == by' - 1);
    IsAnd([ax == bx - 1, ay == by' - 1])
  }

  /** isbBLa: the point (bx, by') is one row below and one column left of (ax, ay). */
  function IsbBLa(ax: int, ay: int, bx: int, by': int): (b: bool)
    ensures b <==> bx == ax + 1 && by' == ay - 1
  {
    IsAndPair(ax == bx - 1, ay == by' + 1);
    IsAnd([ax == bx - 1, ay == by' + 1])
  }

  /**
   * isDiagonal: a corner of one room and the facing corner of the other are
   * diagonal neighbours: B starts below-right or below-left of A, or A starts
   * below-right or below-left of B.
   */
  function IsDiagonal(roomA: Room, roomB: Room): (b: bool)
    ensures b <==> || (roomB.ax == roomA.bx + 1 && roomB.ay == roomA.by' + 1)
                   || (roomB.ax == roomA.bx + 1 && roomB.by' == roomA.ay - 1)
                   || (roomA.ax == roomB.bx + 1 && roomA.ay == roomB.by' + 1)
                   || (roomA.ax == roomB.bx + 1 && roomA.by' == roomB.ay - 1)
  {
    // A's corners: a top-left, b top-right, c bottom-left, d bottom-right; B's: e, f, g, h.
    var (ax, ay, dx, dy) := (roomA.ax, roomA.ay, roomA.bx, roomA.by');
    var (bx, by', cx, cy) := (ax, dy, dx, ay);
    var (ex, ey, hx, hy) := (roomB.ax, roomB.ay, roomB.bx, roomB.by');
    var (fx, fy, gx, gy) := (ex, hy, hx, ey);
    var flags := [IsbBRa(dx, dy, ex, ey), IsbBLa(cx, cy, fx, fy),
                  IsbBRa(hx, hy, ax, ay), IsbBLa(gx, gy, bx, by')];
    assert (exists i :: 0 <= i < |flags| && flags[i]) <==> flags[0] || flags[1] || flags[2] || flags[3];
    IsOr(flags)
  }

  /** Swapping the rooms maps the four corner tests onto each other. */
  lemma DiagonalIsSymmetric(a: Room, b: Room)
    ensures IsDiagonal(a, b) == IsDiagonal(b, a)
  {
  }

  /**
   * The two rooms share a side: their row ranges meet and their column
   * ranges are consecutive, or the other way round.
   */
  predicate EdgeContact(a: Room, b: Room)
  {
    || ((a.bx + 1 == b.ax || b.bx + 1 == a.ax) && a.ay <= b.by' && b.ay <= a.by')
    || ((a.by' + 1 == b.ay || b.by' + 1 == a.ay) && a.ax <= b.bx && b.ax <= a.bx)
  }

  /** Cell (r1, c1) and cell (r2, c2) share a side. */
  predicate Neighbours(r1: int, c1: int, r2: int, c2: int)
  {
    Abs(r1 - r2) + Abs(c1 - c2) == 1
  }

  /** Two cells, one in each room, that share a side. */
  ghost predicate SharesEdge(a: Room, b: Room)
  {
    exists r1, c1, r2, c2 :: Inside(a, r1, c1) && Inside(b, r2, c2) && Neighbours(r1, c1, r2, c2)
  }

  /** For non-overlapping rooms, edge contact is a pair of side-sharing cells. */
  lemma EdgeContactIsSharedEdge(a: Room, b: Room)
    requires WellFormed(a) && WellFormed(b) && !Overlap(a, b)
    ensures EdgeContact(a, b) <==> SharesEdge(a, b)
  {
    var rowA := if a.ax <= b.ax then b.ax else a.ax;
    var colA := if a.ay <= b.ay then b.ay else a.ay;
    if a.bx + 1 == b.ax && a.ay <= b.by' && b.ay <= a.by' {
      assert Inside(a, a.bx, colA) && Inside(b, b.ax, colA) && Neighbours(a.bx, colA, b.ax, colA);
    } else if b.bx + 1 == a.ax && a.ay <= b.by' && b.ay <= a.by' {
      assert Inside(a, a.ax, colA) && Inside(b, b.bx, colA) && Neighbours(a.ax, colA, b.bx, colA);
    } else if a.by' + 1 == b.ay && a.ax <= b.bx && b.ax <= a.bx {
      assert Inside(a, rowA, a.by') && Inside(b, rowA, b.ay) && Neighbours(rowA, a.by', rowA, b.ay);
    } else if b.by' + 1 == a.ay && a.ax <= b.bx && b.ax <= a.bx {
      assert Inside(a, rowA, a.ay) && Inside(b, rowA, b.by') && Neighbours(rowA, a.ay, rowA, b.by');
    }
    if SharesEdge(a, b) {
      var r1, c1, r2, c2 :| Inside(a, r1, c1) && Inside(b, r2, c2) && Neighbours(r1, c1, r2, c2);
    }
  }

  /** Diagonal rooms touch at one corner only: they share no side and no cell. */
  lemma DiagonalRoomsTouchAtCornerOnly(a: Room, b: Room)
    requires WellFormed(a) && WellFormed(b) && IsDiagonal(a, b)
    ensures !Overlap(a, b) && !EdgeContact(a, b)
    ensures exists r1, c1, r2, c2 :: Inside(a, r1, c1) && Inside(b, r2, c2)
                                    && Abs(r1 - r2) == 1 && Abs(c1 - c2) == 1
  {
    if b.ax == a.bx + 1 && b.ay == a.by' + 1 {
      assert Inside(a, a.bx, a.by') && Inside(b, b.ax, b.ay);
    } else if b.ax == a.bx + 1 && b.by' == a.ay - 1 {
      assert Inside(a, a.bx, a.ay) && Inside(b, b.ax, b.by');
    } else if a.ax == b.bx + 1 && a.ay == b.by' + 1 {
      assert Inside(a, a.ax, a.ay) && Inside(b, b.bx, b.by');
    } else {
      assert Inside(a, a.ax, a.by') && Inside(b, b.bx, b.ay);
    }
  }

  /**
   * isAdjacent: a room is adjacent to itself (same index); otherwise roomA's
   * top-left or bottom-right corner lies in roomB's one-cell band and the two
   * rooms are not diagonal.
   */
  function IsAdjacent(u: int, v: int, roomA: Room, roomB: Room): (b: bool)
    ensures u == v ==> b
    ensures u != v ==> (b <==>
      && ((roomB.ax - 1 <= roomA.ax <= roomB.bx + 1 && roomB.ay - 1 <= roomA.ay <= roomB.by' + 1)
          || (roomB.ax - 1 <= roomA.bx <= roomB.bx + 1 && roomB.ay - 1 <= roomA.by' <= roomB.by' + 1))
      && !IsDiagonal(roomA, roomB))
  {
    if u == v then true
    else
      var b1 := Between(roomA.ax, roomA.ay, roomB);
      var b2 := Between(roomA.bx, roomA.by', roomB);
      IsOrPair(b1, b2);
      var b1or2 := IsOr([b1, b2]);
      var b3 := IsDiagonal(roomA, roomB);
      IsAndPair(b1or2, !b3);
      IsAnd([b1or2, !b3])
  }

  /**
   * For distinct, non-overlapping rooms, adjacency implies a shared side:
   * a corner in the band that is not a diagonal contact lies next to a side.
   */
  lemma AdjacentRoomsShareEdge(u: int, v: int, a: Room, b: Room)
    requires u != v && WellFormed(a) && WellFormed(b) && !Overlap(a, b)
    requires IsAdjacent(u, v, a, b)
    ensures EdgeContact(a, b) && SharesEdge(a, b)
  {
    EdgeContactIsSharedEdge(a, b);
  }

  /** Two adjacency cases: side-sharing 1x1 rooms are adjacent, corner-touching ones are not. */
  lemma AdjacencyExamples()
    ensures var a := Room("A", 1, 1, 1, 0, 0, 0, 0);
            var right := Room("B", 1, 1, 1, 0, 1, 0, 1);
            var below := Room("C", 1, 1, 1, 1, 1, 1, 1);
            && IsAdjacent(0, 1, a, right) && !IsDiagonal(a, right)
            && !IsAdjacent(0, 1, a, below) && IsDiagonal(a, below)
  {
  }

  /**
   * isAdjacent tests only roomA's two corners against roomB, so it is not
   * symmetric: a 1x1 room below the middle of a 1x6 room is adjacent to it,
   * but not the other way round.
   */
  lemma AdjacencyIsNotSymmetric()
    ensures var a := Room("A", 1, 1, 1, 0, 0, 0, 5);
            var b := Room("B", 1, 1, 1, 1, 2, 1, 2);
            IsAdjacent(1, 0, b, a) && !IsAdjacent(0, 1, a, b) && EdgeContact(a, b)
  {
  }

  /**
   * Two staggered 2-row rooms that share a side of two cells are adjacent
   * in neither order: neither room has a tested corner in the other's band.
   */
  lemma EdgeContactCanBeMissed()
    ensures var a := Room("A", 1, 1, 1, 0, 2, 1, 6);
            var b := Room("B", 1, 1, 1, 2, 0, 3, 3);
            EdgeContact(a, b) && !Overlap(a, b)
            && !IsAdjacent(0, 1, a, b) && !IsAdjacent(1, 0, b, a)
  {
  }
}
