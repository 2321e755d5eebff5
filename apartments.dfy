/**
 * The apartment-level rules of constraints.py on one layout: the open-area
 * rule (aptOpenAreaConstraint), the sun-room rule, equal areas
 * (symmetricRooms, symmetricApts), the golden ratio (ensureGoldenRatio)
 * and the mirror image of one apartment in another
 * (ensureApartmentSymmetry).
 */
module Apartments {
  import opened Common
  import opened Reify
  import opened Rooms

  // ---------------------------------------------------------------------------
  // aptOpenAreaConstraint and sunRoomConstraint
  // ---------------------------------------------------------------------------

  /**
   * The side of the grid an `onOpenArea` key names: "top" is row 0,
   * "bottom" the last row, "left" column 0, and every other key the last
   * column. The room faces that side when one of its corners lies on it.
   */
  predicate FacesSide(room: Room, key: string, grid: seq<seq<int>>)
    requires IsGrid(grid)
  {
    if key == "top" then room.ax == 0 || room.bx == 0
    else if key == "bottom" then room.ax == |grid| - 1 || room.bx == |grid| - 1
    else if key == "left" then room.ay == 0 || room.by' == 0
    else room.ay == |grid[0]| - 1 || room.by' == |grid[0]| - 1
  }

  /**
   * The literal of one room for one key: isOnBorder over the rows for
   * "bottom" and "top", over the columns for any other key.
   */
  function SideLiteral(room: Room, key: string, grid: seq<seq<int>>): (b: bool)
    requires IsGrid(grid)
    ensures b <==> FacesSide(room, key, grid)
  {
    assert "bottom" != "top" by { assert "bottom"[0] != "top"[0]; }
    if key == "bottom" || key == "top" then IsOnBorder(if key == "top" then 0 else |grid| - 1, true, room)
    else IsOnBorder(if key == "left" then 0 else |grid[0]| - 1, false, room)
  }

  /** Some key with a non-zero value names a side the room faces. */
  predicate OpenOn(room: Room, entries: seq<(string, int)>, grid: seq<seq<int>>)
    requires IsGrid(grid)
  {
    exists e :: 0 <= e < |entries| && entries[e].1 != 0 && FacesSide(room, entries[e].0, grid)
  }

  /** The literals of one room: one for every key whose value is not 0, in key order. */
  function RoomLiterals(room: Room, entries: seq<(string, int)>, grid: seq<seq<int>>): (bs: seq<bool>)
    requires IsGrid(grid)
    ensures true in bs <==> OpenOn(room, entries, grid)
  {
    if |entries| == 0 then []
    else
      var rest := RoomLiterals(room, entries[1..], grid);
      assert OpenOn(room, entries[1..], grid) ==> OpenOn(room, entries, grid) by {
        if OpenOn(room, entries[1..], grid) {
          var e :| 0 <= e < |entries[1..]| && entries[1..][e].1 != 0 && FacesSide(room, entries[1..][e].0, grid);
          assert entries[e + 1] == entries[1..][e];
        }
      }
      assert OpenOn(room, entries, grid) ==>
               (entries[0].1 != 0 && FacesSide(room, entries[0].0, grid)) || OpenOn(room, entries[1..], grid) by {
        if OpenOn(room, entries, grid) {
          var e :| 0 <= e < |entries| && entries[e].1 != 0 && FacesSide(room, entries[e].0, grid);
          if e > 0 {
            assert entries[1..][e - 1] == entries[e];
          }
        }
      }
      (if entries[0].1 == 0 then [] else [SideLiteral(room, entries[0].0, grid)]) + rest
  }

  /** The literals of every room of the apartment, room after room. */
  function OpenAreaLiterals(apt: seq<Room>, entries: seq<(string, int)>, grid: seq<seq<int>>): (bs: seq<bool>)
    requires IsGrid(grid)
    ensures true in bs <==> exists i :: 0 <= i < |apt| && OpenOn(apt[i], entries, grid)
  {
    if |apt| == 0 then []
    else
      var rest := OpenAreaLiterals(apt[1..], entries, grid);
      assert forall i :: 0 < i < |apt| ==> apt[1..][i - 1] == apt[i];
      RoomLiterals(apt[0], entries, grid) + rest
  }

  /**
   * aptOpenAreaConstraint: the disjunction of the literals. It holds
   * exactly when some room of the apartment faces a side whose key has a
   * non-zero value.
   */
  function AptOpenAreaConstraint(apt: seq<Room>, entries: seq<(string, int)>, grid: seq<seq<int>>): (b: bool)
    requires IsGrid(grid)
    ensures b <==> exists i :: 0 <= i < |apt| && OpenOn(apt[i], entries, grid)
  {
    var bs := OpenAreaLiterals(apt, entries, grid);
    assert (exists k :: 0 <= k < |bs| && bs[k]) <==> true in bs;
    IsOr(bs)
  }

  /** An apartment on an open area has a sun room. */
  lemma OpenAreaHasSunRoom(apt: seq<Room>, entries: seq<(string, int)>, grid: seq<seq<int>>)
    requires IsGrid(grid) && AptOpenAreaConstraint(apt, entries, grid)
    ensures exists i :: 0 <= i < |apt| && IsSunRoom(apt[i], grid)
  {
    var i :| 0 <= i < |apt| && OpenOn(apt[i], entries, grid);
    var e :| 0 <= e < |entries| && entries[e].1 != 0 && FacesSide(apt[i], entries[e].0, grid);
    assert IsSunRoom(apt[i], grid);
  }

  /** Keys whose values are all 0 leave an empty disjunction: the constraint cannot hold. */
  lemma NoOpenSideIsUnsatisfiable(apt: seq<Room>, entries: seq<(string, int)>, grid: seq<seq<int>>)
    requires IsGrid(grid)
    requires forall e :: 0 <= e < |entries| ==> entries[e].1 == 0
    ensures !AptOpenAreaConstraint(apt, entries, grid)
  {
  }

  /** sunRoomConstraint: the conjunction of the one isSunRoom literal. */
  function SunRoomConstraint(room: Room, grid: seq<seq<int>>): (b: bool)
    requires IsGrid(grid)
    ensures b <==> IsSunRoom(room, grid)
    ensures WithinGrid(room, grid) ==> (b <==> exists row, col :: Inside(room, row, col) && OnOuterWall(grid, row, col))
  {
    var bs := [IsSunRoom(room, grid)];
    assert bs[0] == IsSunRoom(room, grid);
    if WithinGrid(room, grid) then
      SunRoomTouchesOuterWall(room, grid);
      IsAnd(bs)
    else IsAnd(bs)
  }

  // ---------------------------------------------------------------------------
  // symmetricRooms and symmetricApts
  // ---------------------------------------------------------------------------

  /** Every room of the list has area `area`. */
  function SameArea(rooms: seq<Room>, area: int): (b: bool)
    ensures b <==> forall i :: 0 <= i < |rooms| ==> Area(rooms[i]) == area
  {
    if |rooms| == 0 then true
    else
      assert forall i :: 0 < i < |rooms| ==> rooms[1..][i - 1] == rooms[i];
      Area(rooms[0]) == area && SameArea(rooms[1..], area)
  }

  /**
   * symmetricRooms: every room's area variable equals the first room's.
   * The area is `width * height` as roomConstraint binds it. An empty list
   * raises IndexError.
   */
  function SymmetricRooms(rooms: seq<Room>): (r: Result<bool>)
    ensures r.Err? <==> |rooms| == 0
    ensures r.Err? ==> r.error == IndexError
    ensures r.Ok? ==> (r.value <==> forall i, j :: 0 <= i < |rooms| && 0 <= j < |rooms| ==> Area(rooms[i]) == Area(rooms[j]))
  {
    if |rooms| == 0 then Err(IndexError) else Ok(SameArea(rooms, Area(rooms[0])))
  }

  /** `[apt[i] for apt in apts]`. */
  function Column(apts: seq<seq<Room>>, i: nat): (col: seq<Room>)
    requires forall a :: 0 <= a < |apts| ==> i < |apts[a]|
    ensures |col| == |apts| && forall a :: 0 <= a < |apts| ==> col[a] == apts[a][i]
  {
    seq(|apts|, a requires 0 <= a < |apts| => apts[a][i])
  }

  /** The loop of symmetricApts from room position `i` on. */
  function SymmetricFrom(apts: seq<seq<Room>>, i: nat): (r: Result<bool>)
    requires |apts| > 0
    ensures r.Err? <==> exists a :: 0 <= a < |apts| && i < |apts[0]| && |apts[a]| < |apts[0]|
    ensures r.Err? ==> r.error == IndexError
    ensures r.Ok? ==> (r.value <==> forall a, b, k :: 0 <= a < |apts| && 0 <= b < |apts| && i <= k < |apts[0]|
                                       ==> Area(apts[a][k]) == Area(apts[b][k]))
    decreases |apts[0]| - i
  {
    if i >= |apts[0]| then Ok(true)
    else if exists a :: 0 <= a < |apts| && |apts[a]| <= i then Err(IndexError)
    else
      var here := SymmetricRooms(Column(apts, i));
      match SymmetricFrom(apts, i + 1)
      case Err(e) => Err(e)
      case Ok(rest) =>
        assert forall a :: 0 <= a < |apts| ==> |apts[a]| >= |apts[0]|;
        Ok(here.value && rest)
  }

  /**
   * symmetricApts: for every room position of the first apartment, the
   * rooms at that position in all apartments have equal areas. An empty
   * list, or an apartment shorter than the first, raises IndexError.
   */
  function SymmetricApts(apts: seq<seq<Room>>): (r: Result<bool>)
    ensures r.Err? <==> |apts| == 0 || exists a :: 0 <= a < |apts| && |apts[a]| < |apts[0]|
    ensures r.Err? ==> r.error == IndexError
    ensures r.Ok? ==> (r.value <==> forall a, b, k :: 0 <= a < |apts| && 0 <= b < |apts| && 0 <= k < |apts[0]|
                                       ==> Area(apts[a][k]) == Area(apts[b][k]))
  {
    if |apts| == 0 then Err(IndexError)
    else
      var r := SymmetricFrom(apts, 0);
      assert r.Err? ==> |apts[0]| > 0;
      r
  }

  // ---------------------------------------------------------------------------
  // ensureGoldenRatio
  // ---------------------------------------------------------------------------

  function Min(x: int, y: int): int { if x <= y then x else y }

  function Max(x: int, y: int): int { if x <= y then y else x }

  /**
   * ensureGoldenRatio: the extents x and y lie in [0, mx], and so do
   * a = min(x, y) and c = max(x, y), with 10 * c == 16 * a.
   */
  predicate EnsureGoldenRatio(room: Room, mx: int)
  {
    var x, y := Width(room), Height(room);
    var a, c := Min(x, y), Max(x, y);
    && 0 <= x <= mx && 0 <= y <= mx
    && 0 <= a <= mx && 0 <= c <= mx
    && 10 * c == 16 * a
  }

  /**
   * The golden-ratio rule holds exactly when the room's two extents are
   * 5k and 8k, in either order, for some k with 8k <= mx.
   */
  lemma GoldenRatioShape(room: Room, mx: int)
    ensures EnsureGoldenRatio(room, mx) <==>
              exists k :: 0 <= k && 8 * k <= mx &&
                ((Width(room) == 5 * k && Height(room) == 8 * k) || (Width(room) == 8 * k && Height(room) == 5 * k))
  {
    var x, y := Width(room), Height(room);
    var a, c := Min(x, y), Max(x, y);
    if EnsureGoldenRatio(room, mx) {
      var k := 2 * c - 3 * a;
      assert a == 5 * k;
      assert c == 8 * k;
    }
  }

  /** A room with at least one cell that keeps the golden ratio is at least 5 by 8. */
  lemma GoldenRoomIsAtLeastFiveByEight(room: Room, mx: int)
    requires WellFormed(room) && EnsureGoldenRatio(room, mx)
    ensures Min(Width(room), Height(room)) >= 5 && Max(Width(room), Height(room)) >= 8
  {
    GoldenRatioShape(room, mx);
  }

  // ---------------------------------------------------------------------------
  // ensureApartmentSymmetry
  // ---------------------------------------------------------------------------

  /** The room reflected across column `midX`: column y goes to 2 * midX - y. */
  function Mirror(room: Room, midX: int): Room
  {
    room.(ay := 2 * midX - room.by', by' := 2 * midX - room.ay)
  }

  /** The two rooms have the same corners. */
  predicate SameCorners(r1: Room, r2: Room)
  {
    r1.ax == r2.ax && r1.ay == r2.ay && r1.bx == r2.bx && r1.by' == r2.by'
  }

  /** The four equalities ensureApartmentSymmetry adds for the rooms at one position. */
  predicate MirrorEquations(room1: Room, room2: Room, midX: int)
  {
    && room2.ay - midX == midX - room1.by'
    && midX - room1.ay == room2.by' - midX
    && room2.ax == room1.ax
    && room2.bx == room1.bx
  }

  /**
   * ensureApartmentSymmetry: the i-th room of the second apartment is the
   * mirror image of the i-th room of the first, for every room of the
   * first. A shorter second apartment raises IndexError; its extra rooms
   * are not constrained.
   */
  function EnsureApartmentSymmetry(apt1: seq<Room>, apt2: seq<Room>, midX: int): (r: Result<bool>)
    ensures r.Err? <==> |apt2| < |apt1|
    ensures r.Err? ==> r.error == IndexError
    ensures r.Ok? ==> (r.value <==> forall i :: 0 <= i < |apt1| ==> SameCorners(apt2[i], Mirror(apt1[i], midX)))
  {
    if |apt2| < |apt1| then Err(IndexError)
    else Ok(forall i :: 0 <= i < |apt1| ==> MirrorEquations(apt1[i], apt2[i], midX))
  }

  /** Mirroring twice across the same column gives the room back. */
  lemma MirrorIsInvolution(room: Room, midX: int)
    ensures Mirror(Mirror(room, midX), midX) == room
  {
  }

  /** The mirror image keeps the room's extents and area, and reflects its cells. */
  lemma MirrorReflectsCells(room: Room, midX: int, row: int, col: int)
    ensures Width(Mirror(room, midX)) == Width(room) && Height(Mirror(room, midX)) == Height(room)
    ensures Area(Mirror(room, midX)) == Area(room)
    ensures Inside(Mirror(room, midX), row, col) <==> Inside(room, row, 2 * midX - col)
  {
  }

  /** The equations are symmetric in the two rooms. */
  lemma MirrorEquationsSymmetric(room1: Room, room2: Room, midX: int)
    requires MirrorEquations(room1, room2, midX)
    ensures MirrorEquations(room2, room1, midX)
  {
  }

  /** Mirror images have equal areas, so symmetric apartments satisfy symmetricRooms pairwise. */
  lemma SymmetricApartmentsHaveEqualAreas(apt1: seq<Room>, apt2: seq<Room>, midX: int, i: int)
    requires EnsureApartmentSymmetry(apt1, apt2, midX) == Ok(true)
    requires 0 <= i < |apt1|
    ensures SymmetricRooms([apt1[i], apt2[i]]) == Ok(true)
  {
    MirrorReflectsCells(apt1[i], midX, 0, 0);
    assert Area(apt2[i]) == Area(Mirror(apt1[i], midX));
  }

  /**
   * Mirrored across the middle of the grid (2 * midX the last column), a
   * sun room stays a sun room.
   */
  lemma MirrorKeepsSunRooms(room: Room, grid: seq<seq<int>>, midX: int)
    requires IsGrid(grid) && 2 * midX == |grid[0]| - 1
    ensures IsSunRoom(Mirror(room, midX), grid) <==> IsSunRoom(room, grid)
  {
  }
}
