/**
 * The neighbour requirements of constraints.py: roomAdjacencyConstraint (each
 * room must touch a room of every category its label requires) and
 * aptAdjacencyConstraint (an apartment's corridor must touch a hallway).
 * Both test the one-cell band around a room's sides against the grid.
 */
module Adjacency {
  import opened Common
  import opened Reify
  import opened Rooms

  // ---------------------------------------------------------------------------
  // The side band
  // ---------------------------------------------------------------------------

  /**
   * The integer variables `upperX = ax - 1`, `lowerX = bx + 1` (domain
   * [-1, rows]) and `leftY = ay - 1`, `rightY = by + 1` (domain [-1, columns])
   * can take their values; otherwise the model is infeasible.
   */
  predicate BandVarsOk(room: Room, grid: seq<seq<int>>)
    requires IsGrid(grid)
  {
    && -1 <= room.ax - 1 <= |grid|
    && -1 <= room.bx + 1 <= |grid|
    && -1 <= room.by' + 1 <= |grid[0]|
    && -1 <= room.ay - 1 <= |grid[0]|
  }

  /**
   * The band: the rows just above and below the room over its columns, and
   * the columns just left and right of it over its rows.
   */
  predicate InBand(room: Room, row: int, col: int)
  {
    || ((row == room.bx + 1 || row == room.ax - 1) && room.ay <= col <= room.by')
    || ((col == room.ay - 1 || col == room.by' + 1) && room.ax <= row <= room.bx)
  }

  /**
   * `inEdge` of a cell: on row `upperX` or `lowerX` with the column in
   * [leftY + 1, rightY - 1], or on column `leftY` or `rightY` with the row
   * in [upperX + 1, lowerX - 1].
   */
  function InEdge(room: Room, row: int, col: int): (b: bool)
    ensures b <==> InBand(room, row, col)
  {
    var upperX, lowerX, leftY, rightY := room.ax - 1, room.bx + 1, room.ay - 1, room.by' + 1;
    var rowIsLower := IsEqual(row, lowerX);
    var rowIsUpper := IsEqual(row, upperX);
    var colIsLeft := IsEqual(col, leftY);
    var colIsRight := IsEqual(col, rightY);
    IsOrPair(rowIsLower, rowIsUpper);
    IsOrPair(colIsLeft, colIsRight);
    var onRow := IsOr([rowIsLower, rowIsUpper]);
    var onCol := IsOr([colIsLeft, colIsRight]);
    var colInside := IsBetween(col, leftY + 1, rightY - 1);
    var rowInside := IsBetween(row, upperX + 1, lowerX - 1);
    IsAndPair(onRow, colInside);
    IsAndPair(onCol, rowInside);
    var horizontal := IsAnd([onRow, colInside]);
    var vertical := IsAnd([onCol, rowInside]);
    IsOrPair(horizontal, vertical);
    IsOr([horizontal, vertical])
  }

  /**
   * The band of a well-formed room is exactly the set of cells outside it
   * that share a side with one of its cells.
   */
  lemma BandIsSideNeighbourhood(room: Room, row: int, col: int)
    requires WellFormed(room)
    ensures InBand(room, row, col) <==>
              && !Inside(room, row, col)
              && (|| Inside(room, row - 1, col) || Inside(room, row + 1, col)
                  || Inside(room, row, col - 1) || Inside(room, row, col + 1))
  {
  }

  /** The four diagonal corner cells are not in the band. */
  lemma BandExcludesCorners(room: Room)
    ensures !InBand(room, room.ax - 1, room.ay - 1) && !InBand(room, room.ax - 1, room.by' + 1)
    ensures !InBand(room, room.bx + 1, room.ay - 1) && !InBand(room, room.bx + 1, room.by' + 1)
  {
  }

  /** A cell of the grid in the band that holds one of the indices `ids`. */
  predicate HitAt(room: Room, grid: seq<seq<int>>, ids: seq<int>, row: int, col: int)
  {
    0 <= row < |grid| && 0 <= col < |grid[row]| && InBand(room, row, col) && grid[row][col] in ids
  }

  /** Some cell in the band holds one of the indices `ids`. */
  ghost predicate BandHit(room: Room, grid: seq<seq<int>>, ids: seq<int>)
  {
    exists row, col :: HitAt(room, grid, ids, row, col)
  }

  /**
   * The booleans one cell contributes for one required category:
   * `isAnd([inEdge, isEqual(cell, index)])` for every candidate index; their
   * disjunction holds exactly when the cell is in the band and holds one of
   * the indices.
   */
  function AnyMatch(inEdge: bool, cell: int, ids: seq<int>): (b: bool)
    ensures b <==> inEdge && cell in ids
  {
    if |ids| == 0 then false
    else
      IsAndPair(inEdge, IsEqual(cell, ids[0]));
      assert ids == [ids[0]] + ids[1..];
      IsAnd([inEdge, IsEqual(cell, ids[0])]) || AnyMatch(inEdge, cell, ids[1..])
  }

  /**
   * The loop over the grid cells: the disjunction of the booleans the
   * cells contribute is true exactly when some band cell holds an index
   * of `ids`.
   */
  method ScanBand(room: Room, grid: seq<seq<int>>, ids: seq<int>) returns (hit: bool)
    ensures hit <==> BandHit(room, grid, ids)
  {
    hit := false;
    for rowIdx := 0 to |grid|
      invariant hit <==> exists row, col :: row < rowIdx && HitAt(room, grid, ids, row, col)
    {
      for colIdx := 0 to |grid[rowIdx]|
        invariant hit <==> || (exists row, col :: row < rowIdx && HitAt(room, grid, ids, row, col))
                           || (exists col :: col < colIdx && HitAt(room, grid, ids, rowIdx, col))
      {
        var cell := grid[rowIdx][colIdx];
        var inEdge := InEdge(room, rowIdx, colIdx);
        assert AnyMatch(inEdge, cell, ids) <==> HitAt(room, grid, ids, rowIdx, colIdx);
        hit := hit || AnyMatch(inEdge, cell, ids);
      }
      assert (exists col :: HitAt(room, grid, ids, rowIdx, col))
             ==> exists col :: col < |grid[rowIdx]| && HitAt(room, grid, ids, rowIdx, col);
    }
  }

  // ---------------------------------------------------------------------------
  // Required neighbours of a room label `category_apartment_instance`
  // ---------------------------------------------------------------------------

  /** The table `adjDict`: the categories a room of each category must touch. */
  function AdjacencyTable(roomType: string): (t: seq<string>)
    ensures |t| <= 2
    ensures |t| == 0 <==> roomType !in ["DN", "K", "MSB", "DR", "MNB"]
  {
    if roomType == "DN" then ["K"]
    else if roomType == "K" then ["D"]
    else if roomType == "MSB" then ["D"]
    else if roomType == "DR" then ["BD"]
    else if roomType == "MNB" then ["BD", "D"]
    else []
  }

  /** No table entry holds "CR" or a category twice; only DR and MNB rooms need a "BD". */
  lemma AdjacencyTableFacts(roomType: string)
    ensures "CR" !in AdjacencyTable(roomType)
    ensures "BD" in AdjacencyTable(roomType) <==> roomType == "DR" || roomType == "MNB"
    ensures multiset(AdjacencyTable(roomType))["BD"] <= 1
  {
    assert "CR"[0] != "BD"[0] && "CR"[0] != "K"[0] && "CR"[0] != "D"[0];
    assert "BD"[0] != "K"[0] && "BD" != "D";
  }

  /** Python's `xs.remove(x)`: drops the first occurrence, ValueError when there is none. */
  function RemoveFirst(xs: seq<string>, x: string): (r: Result<seq<string>>)
    ensures r.Err? <==> x !in xs
    ensures r.Err? ==> r.error == ValueError
  {
    match IndexOf(xs, x)
    case None => Err(ValueError)
    case Some(i) => Ok(xs[..i] + xs[i + 1..])
  }

  /** `remove` takes away exactly one occurrence and keeps every other element. */
  lemma RemoveFirstMeaning(xs: seq<string>, x: string)
    requires x in xs
    ensures var r := RemoveFirst(xs, x).value;
            && multiset(r) == multiset(xs) - multiset{x} && |r| == |xs| - 1
            && forall y :: y in r <==> y in xs && (y != x || multiset(xs)[x] > 1)
  {
    var i := IndexOf(xs, x).value;
    assert xs == xs[..i] + [x] + xs[i + 1..];
    var r := RemoveFirst(xs, x).value;
    forall y
      ensures y in r <==> y in xs && (y != x || multiset(xs)[x] > 1)
    {
      assert y in r <==> multiset(r)[y] > 0;
      assert y in xs <==> multiset(xs)[y] > 0;
    }
  }

  /** The fields of a room label, as `str.split("_")` gives them. */
  function Fields(val: string): seq<string>
  {
    Split(val, '_')
  }

  /** Python's `s.startswith("#")`. */
  predicate IsHashInstance(inst: string)
  {
    "#" <= inst
  }

  /** The table entry, with "CR" appended unless the room is DR or a MNB whose instance lacks "#". */
  function WithCorridor(roomType: string, inst: string): seq<string>
  {
    var base := AdjacencyTable(roomType);
    if (roomType != "MNB" || IsHashInstance(inst)) && roomType != "DR" then base + ["CR"] else base
  }

  /**
   * The list `nextList` of roomAdjacencyConstraint: the table entry, plus
   * "CR" unless the room is DR or a MNB whose instance lacks "#", minus
   * "BD" for a "#" instance. A label with fewer than three fields raises
   * IndexError.
   */
  function RequiredNeighbours(val: string): (r: Result<seq<string>>)
    ensures r.Err? && r.error == IndexError <==> |Fields(val)| < 3
    ensures r.Ok? ==> |Fields(val)| >= 3
  {
    var split := Fields(val);
    if |split| < 3 then Err(IndexError)
    else
      var roomType, inst := split[0], split[2];
      if IsHashInstance(inst) then RemoveFirst(WithCorridor(roomType, inst), "BD")
      else Ok(WithCorridor(roomType, inst))
  }

  /**
   * What the required-neighbour list holds: "CR" exactly when the room is
   * not DR and not a MNB without "#"; "BD" exactly for DR and MNB rooms
   * without "#"; nothing outside the table but "CR". Removing "BD" from a
   * "#" room of any other category raises ValueError.
   */
  lemma RequiredNeighboursMeaning(val: string)
    ensures var r := RequiredNeighbours(val);
            r.Err? && r.error == ValueError <==>
              |Fields(val)| >= 3 && IsHashInstance(Fields(val)[2])
              && Fields(val)[0] != "DR" && Fields(val)[0] != "MNB"
    ensures var r := RequiredNeighbours(val);
            r.Ok? ==> var roomType, inst := Fields(val)[0], Fields(val)[2];
              && ("CR" in r.value <==> roomType != "DR" && (roomType != "MNB" || IsHashInstance(inst)))
              && ("BD" in r.value <==> (roomType == "DR" || roomType == "MNB") && !IsHashInstance(inst))
              && forall x :: x in r.value ==> x in AdjacencyTable(roomType) || x == "CR"
  {
    var split := Fields(val);
    if |split| >= 3 {
      var roomType, inst := split[0], split[2];
      var base := AdjacencyTable(roomType);
      var withCorridor := WithCorridor(roomType, inst);
      AdjacencyTableFacts(roomType);
      assert "CR"[0] != "BD"[0];
      assert "BD" in withCorridor <==> "BD" in base;
      assert "CR" in withCorridor <==> (roomType != "MNB" || IsHashInstance(inst)) && roomType != "DR";
      assert multiset(withCorridor)["BD"] <= 1;
      if IsHashInstance(inst) && "BD" in withCorridor {
        RemoveFirstMeaning(withCorridor, "BD");
      }
    }
  }

  /** The three fields of a label. */
  lemma FieldsOfLabel(a: string, b: string, c: string)
    requires '_' !in a && '_' !in b && '_' !in c
    ensures Fields(a + "_" + b + "_" + c) == [a, b, c]
  {
    var parts := [a, b, c];
    assert Join(parts, '_') == a + "_" + b + "_" + c by {
      assert Join(parts[1..], '_') == b + "_" + c by {
        assert parts[1..][1..] == [c];
      }
    }
    SplitJoin(parts, '_');
  }

  /** A "#" kitchen has no "BD" to remove: `K_<apartment>_#<n>` raises ValueError. */
  lemma HashKitchenRaises(apt: string, inst: string)
    requires '_' !in apt && '_' !in inst && IsHashInstance(inst)
    ensures RequiredNeighbours("K" + "_" + apt + "_" + inst) == Err(ValueError)
  {
    FieldsOfLabel("K", apt, inst);
    assert AdjacencyTable("K") + ["CR"] == ["D", "CR"];
  }

  /** A main bathroom without "#" needs its bedroom and the background. */
  lemma MainBathroomNeeds(apt: string, inst: string)
    requires '_' !in apt && '_' !in inst && !IsHashInstance(inst)
    ensures RequiredNeighbours("MNB" + "_" + apt + "_" + inst) == Ok(["BD", "D"])
  {
    FieldsOfLabel("MNB", apt, inst);
  }

  /** A "#" main bathroom needs the background and a corridor instead of its bedroom. */
  lemma HashMainBathroomNeeds(apt: string, inst: string)
    requires '_' !in apt && '_' !in inst && IsHashInstance(inst)
    ensures RequiredNeighbours("MNB" + "_" + apt + "_" + inst) == Ok(["D", "CR"])
  {
    FieldsOfLabel("MNB", apt, inst);
    assert AdjacencyTable("MNB") + ["CR"] == ["BD", "D", "CR"];
    assert IndexOf(["BD", "D", "CR"], "BD") == Some(0);
    assert ["BD", "D", "CR"][..0] + ["BD", "D", "CR"][1..] == ["D", "CR"];
  }

  /** A "#" dressing room loses its only requirement. */
  lemma HashDressingRoomNeedsNothing(apt: string, inst: string)
    requires '_' !in apt && '_' !in inst && IsHashInstance(inst)
    ensures RequiredNeighbours("DR" + "_" + apt + "_" + inst) == Ok([])
  {
    FieldsOfLabel("DR", apt, inst);
    assert IndexOf(["BD"], "BD") == Some(0);
    assert ["BD"][..0] + ["BD"][1..] == [];
  }

  /** A living room without "#" needs only a corridor. */
  lemma LivingRoomNeedsCorridor(apt: string, inst: string)
    requires '_' !in apt && '_' !in inst && !IsHashInstance(inst)
    ensures RequiredNeighbours("LR" + "_" + apt + "_" + inst) == Ok(["CR"])
  {
    FieldsOfLabel("LR", apt, inst);
    assert "LR" != "DN" && "LR" != "K" && "LR" != "MSB" && "LR" != "DR" && "LR" != "MNB" by {
      assert "LR"[0] == 'L' && |"LR"| == 2;
    }
    assert AdjacencyTable("LR") + ["CR"] == ["CR"];
  }

  // ---------------------------------------------------------------------------
  // Candidate labels for one required category
  // ---------------------------------------------------------------------------

  /**
   * `assRoom`: the room's own instance field when a MNB looks for its BD,
   * or when the room is a DR; the empty text otherwise.
   */
  function AssociatedRoom(roomType: string, inst: string, nextElem: string): (assRoom: string)
    ensures assRoom == "" || assRoom == inst
    ensures roomType != "DR" && nextElem != "BD" ==> assRoom == ""
    ensures roomType == "DR" ==> assRoom == inst
    ensures roomType == "MNB" && nextElem == "BD" ==> assRoom == inst
    ensures roomType != "MNB" && roomType != "DR" ==> assRoom == ""
  {
    if (roomType == "MNB" && nextElem == "BD") || roomType == "DR" then inst else ""
  }

  /** The first two conditions of the filter lambda. */
  predicate SameAptAndCategory(x: string, apt: string, nextElem: string)
  {
    (Contains(x, apt) || !Contains(x, "AP")) && nextElem == Fields(x)[0]
  }

  /**
   * The filter lambda on one domain label `x`: in the apartment (by
   * substring) or in no apartment, of the required category, and, when
   * `assRoom` is set, with `assRoom` as third field (a one-character label
   * passes). `x.split("_")[2]` raises IndexError on a longer label with
   * fewer than three fields once the first two conditions hold.
   */
  function Qualifies(x: string, apt: string, nextElem: string, assRoom: string): (r: Result<bool>)
    ensures r.Err? <==> SameAptAndCategory(x, apt, nextElem) && assRoom != "" && |x| > 1 && |Fields(x)| < 3
    ensures r.Err? ==> r.error == IndexError
    ensures r == Ok(true) <==>
              && SameAptAndCategory(x, apt, nextElem)
              && (|| assRoom == ""
                  || (|x| > 1 && |Fields(x)| >= 3 && assRoom == Fields(x)[2])
                  || |x| == 1)
  {
    if !SameAptAndCategory(x, apt, nextElem) then Ok(false)
    else if assRoom == "" then Ok(true)
    else if |x| > 1 then
      if |Fields(x)| < 3 then Err(IndexError) else Ok(assRoom == Fields(x)[2])
    else Ok(|x| == 1)
  }

  /** `list(filter(...))` over the domain: the qualifying labels in domain order, or the first error. */
  function Candidates(domain: seq<string>, apt: string, nextElem: string, assRoom: string): (r: Result<seq<string>>)
    ensures r.Err? <==> exists i :: 0 <= i < |domain| && Qualifies(domain[i], apt, nextElem, assRoom).Err?
    ensures r.Err? ==> r.error == IndexError
    ensures r.Ok? ==> forall x :: x in r.value <==> x in domain && Qualifies(x, apt, nextElem, assRoom) == Ok(true)
  {
    if |domain| == 0 then Ok([])
    else
      var rest := Candidates(domain[1..], apt, nextElem, assRoom);
      assert forall i :: 0 < i < |domain| ==> domain[i] == domain[1..][i - 1];
      match Qualifies(domain[0], apt, nextElem, assRoom)
      case Err(e) => Err(e)
      case Ok(q) =>
        if rest.Err? then
          var i :| 0 <= i < |domain[1..]| && Qualifies(domain[1..][i], apt, nextElem, assRoom).Err?;
          assert Qualifies(domain[i + 1], apt, nextElem, assRoom).Err?;
          rest
        else
          assert domain == [domain[0]] + domain[1..];
          Ok(if q then [domain[0]] + rest.value else rest.value)
  }

  /**
   * The apartment token is matched as a substring: a bedroom of an
   * apartment whose name extends `apt` (AP10 for AP1) is a candidate for a
   * room of apartment `apt`.
   */
  lemma OtherApartmentIsCandidate(apt: string, tail: string, inst: string)
    requires '_' !in apt + tail && '_' !in inst
    ensures Qualifies("BD" + "_" + (apt + tail) + "_" + inst, apt, "BD", "") == Ok(true)
  {
    var x := "BD" + "_" + (apt + tail) + "_" + inst;
    FieldsOfLabel("BD", apt + tail, inst);
    assert x == "BD_" + apt + (tail + "_" + inst);
    assert OccursAt(x, apt, 3);
    ContainsAt(x, apt);
  }

  /** Three or more parts joined hold at least two separators. */
  lemma JoinOfThreeIsLong(parts: seq<string>, sep: char)
    requires |parts| >= 3
    ensures |Join(parts, sep)| >= 2
  {
    assert Join(parts, sep) == parts[0] + [sep] + Join(parts[1..], sep);
    assert Join(parts[1..], sep) == parts[1] + [sep] + Join(parts[2..], sep);
  }

  /**
   * A label with no "AP" passes the apartment test of every apartment: it
   * is a candidate for its own category whenever no room is associated or
   * its third field is the associated room.
   */
  lemma SharedLabelQualifies(x: string, apt: string, assRoom: string)
    requires !Contains(x, "AP")
    requires assRoom == "" || (|Fields(x)| >= 3 && Fields(x)[2] == assRoom)
    ensures Qualifies(x, apt, Fields(x)[0], assRoom) == Ok(true)
  {
    if assRoom != "" {
      assert |x| > 1 by {
        assert Join(Fields(x), '_') == x;
        JoinOfThreeIsLong(Fields(x), '_');
      }
    }
  }

  /** A label without separator is its own single field. */
  lemma UnsplitLabel(x: string)
    requires '_' !in x
    ensures Fields(x) == [x]
  {
    SplitJoin([x], '_');
  }

  /**
   * The background "D" is a candidate for the "D" need of a room of every
   * apartment, whatever room is associated: it holds no "AP" and is one
   * character long.
   */
  lemma BackgroundIsCandidate(apt: string, assRoom: string)
    ensures Qualifies("D", apt, "D", assRoom) == Ok(true)
  {
    UnsplitLabel("D");
    assert !Contains("D", "AP") by {
      assert !("AP" <= "D");
      assert "D"[1..] == "" && !("AP" <= "");
    }
  }

  /**
   * A label without separator is a candidate only for a need equal to the
   * whole label.
   */
  lemma UnsplitLabelQualifiesOnlyForItself(x: string, apt: string, nextElem: string, assRoom: string)
    requires '_' !in x && nextElem != x
    ensures Qualifies(x, apt, nextElem, assRoom) == Ok(false)
  {
    UnsplitLabel(x);
  }

  /**
   * The hallway labels `xxxxxxxx<i>`, `ELR` and `SW` are never candidates
   * for a "CR" need.
   */
  lemma HallwaysNeverCorridorCandidates(suffix: string, apt: string, assRoom: string)
    requires '_' !in suffix
    ensures Qualifies("xxxxxxxx" + suffix, apt, "CR", assRoom) == Ok(false)
    ensures Qualifies("ELR", apt, "CR", assRoom) == Ok(false)
    ensures Qualifies("SW", apt, "CR", assRoom) == Ok(false)
  {
    var h := "xxxxxxxx" + suffix;
    assert '_' !in h by {
      forall i | 0 <= i < |h| ensures h[i] != '_' {
        if i >= 8 { assert h[i] == suffix[i - 8]; }
      }
    }
    assert h[0] == 'x';
    UnsplitLabelQualifiesOnlyForItself(h, apt, "CR", assRoom);
    UnsplitLabelQualifiesOnlyForItself("ELR", apt, "CR", assRoom);
    UnsplitLabelQualifiesOnlyForItself("SW", apt, "CR", assRoom);
  }

  /** The domain position of each candidate, by `domain.index`. */
  function CandidateIndices(domain: seq<string>, cands: seq<string>): (ids: seq<int>)
    requires forall c :: c in cands ==> c in domain
    ensures |ids| == |cands|
    ensures forall i :: 0 <= i < |ids| ==> IndexOf(domain, cands[i]) == Some(ids[i])
    ensures forall i :: 0 <= i < |ids| ==> 0 <= ids[i] < |domain| && domain[ids[i]] == cands[i]
    ensures forall v :: v in ids ==> 0 <= v < |domain| && domain[v] in cands
  {
    if |cands| == 0 then []
    else [IndexOf(domain, cands[0]).value] + CandidateIndices(domain, cands[1..])
  }

  /** The candidates for required category `nextElem` of a room whose label has fields `split`. */
  function CandidatesFor(split: seq<string>, nextElem: string, domain: seq<string>): Result<seq<string>>
    requires |split| >= 3
  {
    Candidates(domain, split[1], nextElem, AssociatedRoom(split[0], split[2], nextElem))
  }

  /** The candidate filter for `nextElem` raises, and the grid has a cell on which it runs. */
  predicate NeedRaises(grid: seq<seq<int>>, split: seq<string>, nextElem: string, domain: seq<string>)
    requires IsGrid(grid) && |split| >= 3
  {
    |grid[0]| > 0 && CandidatesFor(split, nextElem, domain).Err?
  }

  /** The disjunction for one required category holds: a band cell holds a candidate. */
  ghost predicate NeedMet(room: Room, grid: seq<seq<int>>, domain: seq<string>, split: seq<string>, nextElem: string)
    requires |split| >= 3
  {
    match CandidatesFor(split, nextElem, domain)
    case Err(_) => false
    case Ok(cands) => BandHit(room, grid, CandidateIndices(domain, cands))
  }

  /** The test "this category's candidate filter does not raise". */
  function NoRaiseTest(grid: seq<seq<int>>, split: seq<string>, domain: seq<string>): string -> bool
    requires IsGrid(grid) && |split| >= 3
  {
    (nextElem: string) => !NeedRaises(grid, split, nextElem, domain)
  }

  /** The test "this category's disjunction holds". */
  ghost function MetTest(room: Room, grid: seq<seq<int>>, domain: seq<string>, split: seq<string>): string -> bool
    requires |split| >= 3
  {
    (nextElem: string) => NeedMet(room, grid, domain, split, nextElem)
  }

  /**
   * The required categories `next` of a room with label fields `split`: a
   * filter error at the first cell when the grid has cells, otherwise the
   * band variables fit their domains and every category's disjunction holds.
   */
  ghost function NeedsResult(room: Room, grid: seq<seq<int>>, domain: seq<string>, split: seq<string>,
                             next: seq<string>): Result<bool>
    requires IsGrid(grid) && |split| >= 3
  {
    if !All(next, NoRaiseTest(grid, split, domain)) then Err(IndexError)
    else Ok(BandVarsOk(room, grid) && All(next, MetTest(room, grid, domain, split)))
  }

  /** roomAdjacencyConstraint on one layout: the label errors first, then the requirements. */
  ghost function RoomAdjacency(room: Room, grid: seq<seq<int>>, domain: seq<string>): Result<bool>
    requires IsGrid(grid)
  {
    match RequiredNeighbours(room.val)
    case Err(e) => Err(e)
    case Ok(next) => NeedsResult(room, grid, domain, Fields(room.val), next)
  }

  /**
   * The disjunction for one required category: the candidate filter (which
   * raises on the first cell when the grid has cells), then the scan of
   * the band cells against the candidates' indices.
   */
  method CheckNeed(room: Room, grid: seq<seq<int>>, domain: seq<string>, split: seq<string>, nextElem: string)
    returns (err: bool, met: bool)
    requires IsGrid(grid) && |split| >= 3
    ensures err <==> NeedRaises(grid, split, nextElem, domain)
    ensures met <==> NeedMet(room, grid, domain, split, nextElem)
  {
    var cands := CandidatesFor(split, nextElem, domain);
    if cands.Err? {
      err, met := |grid[0]| > 0, false;
    } else {
      err := false;
      met := ScanBand(room, grid, CandidateIndices(domain, cands.value));
    }
  }

  /**
   * The loop over the required categories: one disjunction each, over every
   * band cell and every candidate label. The source visits the cells in the
   * outer loop and the categories inside; the disjunctions are the same
   * with the categories outside.
   */
  method CheckNeeds(room: Room, grid: seq<seq<int>>, domain: seq<string>, split: seq<string>, next: seq<string>)
    returns (r: Result<bool>)
    requires IsGrid(grid) && |split| >= 3
    ensures r == NeedsResult(room, grid, domain, split, next)
  {
    var bandOk := BandVarsOk(room, grid);
    var met := true;
    for e := 0 to |next|
      invariant All(next[..e], NoRaiseTest(grid, split, domain))
      invariant met <==> All(next[..e], MetTest(room, grid, domain, split))
    {
      var err, hit := CheckNeed(room, grid, domain, split, next[e]);
      assert next[..e + 1][..e] == next[..e];
      if err {
        AllMeaning(next, NoRaiseTest(grid, split, domain));
        return Err(IndexError);
      }
      met := met && hit;
    }
    assert next[..|next|] == next;
    r := Ok(bandOk && met);
  }

  /** roomAdjacencyConstraint: the required categories of the label, then their disjunctions. */
  method RoomAdjacencyConstraint(room: Room, grid: seq<seq<int>>, domain: seq<string>) returns (r: Result<bool>)
    requires IsGrid(grid)
    ensures r == RoomAdjacency(room, grid, domain)
  {
    var next := RequiredNeighbours(room.val);
    if next.Err? {
      return Err(next.error);
    }
    r := CheckNeeds(room, grid, domain, Fields(room.val), next.value);
  }

  /**
   * When the constraint holds, every required category has a cell next to a
   * side of the room whose label is a candidate of that category.
   */
  lemma SatisfiedRoomTouchesEveryNeed(room: Room, grid: seq<seq<int>>, domain: seq<string>, e: int)
    requires IsGrid(grid) && WellFormed(room)
    requires RoomAdjacency(room, grid, domain) == Ok(true)
    requires 0 <= e < |RequiredNeighbours(room.val).value|
    ensures var split, nextElem := Fields(room.val), RequiredNeighbours(room.val).value[e];
            exists row, col :: 0 <= row < |grid| && 0 <= col < |grid[row]|
              && !Inside(room, row, col) && InBand(room, row, col)
              && 0 <= grid[row][col] < |domain|
              && Qualifies(domain[grid[row][col]], split[1], nextElem,
                           AssociatedRoom(split[0], split[2], nextElem)) == Ok(true)
  {
    var split, nextElem := Fields(room.val), RequiredNeighbours(room.val).value[e];
    AllMeaning(RequiredNeighbours(room.val).value, MetTest(room, grid, domain, split));
    assert NeedMet(room, grid, domain, split, nextElem);
    var cands := CandidatesFor(split, nextElem, domain).value;
    var ids := CandidateIndices(domain, cands);
    var row, col :| HitAt(room, grid, ids, row, col);
    BandIsSideNeighbourhood(room, row, col);
  }

  /**
   * Some band cell holds the first domain position of a label that passes
   * the filter for `nextElem`.
   */
  ghost predicate TouchesQualifying(room: Room, grid: seq<seq<int>>, domain: seq<string>, split: seq<string>,
                                    nextElem: string)
    requires |split| >= 3
  {
    exists row, col :: 0 <= row < |grid| && 0 <= col < |grid[row]| && InBand(room, row, col)
      && 0 <= grid[row][col] < |domain|
      && IndexOf(domain, domain[grid[row][col]]) == Some(grid[row][col])
      && Qualifies(domain[grid[row][col]], split[1], nextElem,
                   AssociatedRoom(split[0], split[2], nextElem)) == Ok(true)
  }

  /** One category's disjunction holds exactly when its filter succeeds and a band cell holds a candidate. */
  lemma NeedMetMeaning(room: Room, grid: seq<seq<int>>, domain: seq<string>, split: seq<string>, nextElem: string)
    requires |split| >= 3
    ensures NeedMet(room, grid, domain, split, nextElem) <==>
              CandidatesFor(split, nextElem, domain).Ok? && TouchesQualifying(room, grid, domain, split, nextElem)
  {
    var assRoom := AssociatedRoom(split[0], split[2], nextElem);
    var cands := CandidatesFor(split, nextElem, domain);
    if cands.Ok? {
      var ids := CandidateIndices(domain, cands.value);
      if NeedMet(room, grid, domain, split, nextElem) {
        var row, col :| HitAt(room, grid, ids, row, col);
        var k :| 0 <= k < |ids| && ids[k] == grid[row][col];
        assert cands.value[k] in cands.value;
      }
      if TouchesQualifying(room, grid, domain, split, nextElem) {
        var row, col :| 0 <= row < |grid| && 0 <= col < |grid[row]| && InBand(room, row, col)
          && 0 <= grid[row][col] < |domain|
          && IndexOf(domain, domain[grid[row][col]]) == Some(grid[row][col])
          && Qualifies(domain[grid[row][col]], split[1], nextElem, assRoom) == Ok(true);
        var k :| 0 <= k < |cands.value| && cands.value[k] == domain[grid[row][col]];
        assert ids[k] == grid[row][col];
        assert HitAt(room, grid, ids, row, col);
      }
    }
  }

  /**
   * roomAdjacencyConstraint holds exactly when the band variables fit their
   * domains and, for every required category, the filter does not raise and
   * some band cell holds a candidate.
   */
  lemma RoomAdjacencyMeaning(room: Room, grid: seq<seq<int>>, domain: seq<string>)
    requires IsGrid(grid) && RequiredNeighbours(room.val).Ok?
    ensures var split, next := Fields(room.val), RequiredNeighbours(room.val).value;
            RoomAdjacency(room, grid, domain) == Ok(true) <==>
              && BandVarsOk(room, grid)
              && (forall e :: 0 <= e < |next| ==> CandidatesFor(split, next[e], domain).Ok?)
              && (forall e :: 0 <= e < |next| ==> TouchesQualifying(room, grid, domain, split, next[e]))
  {
    var split, next := Fields(room.val), RequiredNeighbours(room.val).value;
    AllMeaning(next, NoRaiseTest(grid, split, domain));
    AllMeaning(next, MetTest(room, grid, domain, split));
    forall e | 0 <= e < |next| {
      NeedMetMeaning(room, grid, domain, split, next[e]);
    }
  }

  /**
   * A satisfied main bathroom `MNB_<apt>_<i>` whose instance has no "#"
   * touches, on one side, a bedroom label of its own apartment (or of none)
   * whose instance field is its own `<i>`.
   */
  lemma MainBathroomTouchesOwnBedroom(room: Room, grid: seq<seq<int>>, domain: seq<string>, apt: string, inst: string)
    requires IsGrid(grid) && WellFormed(room)
    requires '_' !in apt && '_' !in inst && inst != "" && !IsHashInstance(inst)
    requires room.val == "MNB" + "_" + apt + "_" + inst
    requires RoomAdjacency(room, grid, domain) == Ok(true)
    ensures exists row, col :: 0 <= row < |grid| && 0 <= col < |grid[row]|
              && !Inside(room, row, col) && InBand(room, row, col)
              && 0 <= grid[row][col] < |domain|
              && Fields(domain[grid[row][col]])[0] == "BD"
              && (Contains(domain[grid[row][col]], apt) || !Contains(domain[grid[row][col]], "AP"))
              && |Fields(domain[grid[row][col]])| >= 3
              && Fields(domain[grid[row][col]])[2] == inst
  {
    MainBathroomNeeds(apt, inst);
    FieldsOfLabel("MNB", apt, inst);
    SatisfiedRoomTouchesEveryNeed(room, grid, domain, 0);
    var row, col :| 0 <= row < |grid| && 0 <= col < |grid[row]|
              && !Inside(room, row, col) && InBand(room, row, col)
              && 0 <= grid[row][col] < |domain|
              && Qualifies(domain[grid[row][col]], apt, "BD", inst) == Ok(true);
    FirstField(domain[grid[row][col]], '_', "BD");
  }

  /** A required category without any candidate label makes the constraint unsatisfiable. */
  lemma NoCandidateIsUnsatisfiable(room: Room, grid: seq<seq<int>>, domain: seq<string>, e: int)
    requires IsGrid(grid) && RequiredNeighbours(room.val).Ok?
    requires 0 <= e < |RequiredNeighbours(room.val).value|
    requires CandidatesFor(Fields(room.val), RequiredNeighbours(room.val).value[e], domain) == Ok([])
    ensures RoomAdjacency(room, grid, domain) != Ok(true)
  {
    var split, nextElem := Fields(room.val), RequiredNeighbours(room.val).value[e];
    AllMeaning(RequiredNeighbours(room.val).value, MetTest(room, grid, domain, split));
    assert !NeedMet(room, grid, domain, split, nextElem) by {
      assert CandidateIndices(domain, []) == [];
    }
  }

  // ---------------------------------------------------------------------------
  // aptAdjacencyConstraint
  // ---------------------------------------------------------------------------

  /** The hallway labels `filter(lambda d: "xxx" in d, domain)`, in domain order. */
  function Hallways(domain: seq<string>): (hall: seq<string>)
    ensures forall h :: h in hall <==> h in domain && Contains(h, "xxx")
  {
    if |domain| == 0 then []
    else
      assert domain == [domain[0]] + domain[1..];
      (if Contains(domain[0], "xxx") then [domain[0]] else []) + Hallways(domain[1..])
  }

  /** The room's label contains "CR". */
  predicate IsCorridor(room: Room)
  {
    Contains(room.val, "CR")
  }

  /** The position of the first room whose label contains "CR". */
  function FirstCorridor(apt: seq<Room>): (i: Option<nat>)
    ensures i.None? <==> forall j :: 0 <= j < |apt| ==> !IsCorridor(apt[j])
    ensures i.Some? ==> i.value < |apt| && IsCorridor(apt[i.value])
                        && forall j :: 0 <= j < i.value ==> !IsCorridor(apt[j])
  {
    if |apt| == 0 then None
    else if IsCorridor(apt[0]) then Some(0)
    else match FirstCorridor(apt[1..])
      case None => None
      case Some(i) => Some(i + 1)
  }

  /**
   * aptAdjacencyConstraint on one layout. The hallway list is a one-shot
   * iterator, so only the first corridor room is paired with the hallways:
   * its band variables must fit and some band cell must hold a hallway's
   * index. No corridor or no hallway leaves an empty disjunction.
   */
  ghost predicate AptAdjacency(apt: seq<Room>, grid: seq<seq<int>>, domain: seq<string>)
    requires IsGrid(grid)
  {
    match FirstCorridor(apt)
    case None => false
    case Some(i) =>
      var hall := Hallways(domain);
      |hall| > 0 && BandVarsOk(apt[i], grid) && BandHit(apt[i], grid, CandidateIndices(domain, hall))
  }

  /**
   * The inner loop of aptAdjacencyConstraint for one corridor room: it draws
   * every remaining hallway label from the iterator, creates the room's
   * band variables for each, and adds the band cells holding that label.
   */
  method DrainHallways(room: Room, grid: seq<seq<int>>, domain: seq<string>, hall: seq<string>)
    returns (feasible: bool, found: bool)
    requires IsGrid(grid)
    requires forall h :: h in hall ==> h in domain
    ensures feasible <==> |hall| == 0 || BandVarsOk(room, grid)
    ensures found <==> BandHit(room, grid, CandidateIndices(domain, hall))
  {
    var pending := hall;
    feasible, found := true, false;
    ghost var taken := 0;
    while |pending| > 0
      invariant 0 <= taken <= |hall| && pending == hall[taken..]
      invariant feasible <==> taken == 0 || BandVarsOk(room, grid)
      invariant found <==> exists h :: 0 <= h < taken && BandHit(room, grid, CandidateIndices(domain, [hall[h]]))
      decreases |pending|
    {
      var nextElem := pending[0];
      pending := pending[1..];
      feasible := feasible && BandVarsOk(room, grid);
      var hit := ScanBand(room, grid, CandidateIndices(domain, [nextElem]));
      found := found || hit;
      taken := taken + 1;
    }
    HallwayHits(room, grid, domain, hall);
  }

  /**
   * aptAdjacencyConstraint: `pending` is the hallway iterator; the first
   * corridor room drains it, so later corridor rooms find it empty.
   */
  method AptAdjacencyConstraint(apt: seq<Room>, grid: seq<seq<int>>, domain: seq<string>) returns (ok: bool)
    requires IsGrid(grid)
    ensures ok <==> AptAdjacency(apt, grid, domain)
  {
    var hall := Hallways(domain);
    var pending := hall;
    var feasible := true;
    var found := false;
    ghost var first := FirstCorridor(apt);
    for i := 0 to |apt|
      invariant first.None? || first.value >= i ==> pending == hall && feasible && !found
      invariant first.Some? && first.value < i ==>
                  && pending == []
                  && (feasible <==> |hall| == 0 || BandVarsOk(apt[first.value], grid))
                  && (found <==> BandHit(apt[first.value], grid, CandidateIndices(domain, hall)))
    {
      if IsCorridor(apt[i]) {
        var f, h := DrainHallways(apt[i], grid, domain, pending);
        feasible, found := feasible && f, found || h;
        pending := [];
      }
    }
    ok := feasible && found;
  }

  /** A band hit on the whole hallway list is a band hit on one hallway. */
  lemma HallwayHits(room: Room, grid: seq<seq<int>>, domain: seq<string>, hall: seq<string>)
    requires forall h :: h in hall ==> h in domain
    ensures BandHit(room, grid, CandidateIndices(domain, hall)) <==>
              exists h :: 0 <= h < |hall| && BandHit(room, grid, CandidateIndices(domain, [hall[h]]))
  {
    var ids := CandidateIndices(domain, hall);
    if BandHit(room, grid, ids) {
      var row, col :| HitAt(room, grid, ids, row, col);
      var k :| 0 <= k < |ids| && ids[k] == grid[row][col];
      assert HitAt(room, grid, CandidateIndices(domain, [hall[k]]), row, col);
    }
    if h :| 0 <= h < |hall| && BandHit(room, grid, CandidateIndices(domain, [hall[h]])) {
      var one := CandidateIndices(domain, [hall[h]]);
      var row, col :| HitAt(room, grid, one, row, col);
      assert one[0] == ids[h];
      assert HitAt(room, grid, ids, row, col);
    }
  }

  /** Corridor rooms after the first one do not affect aptAdjacencyConstraint. */
  lemma OnlyFirstCorridorCounts(apt: seq<Room>, grid: seq<seq<int>>, domain: seq<string>, j: int, other: Room)
    requires IsGrid(grid)
    requires FirstCorridor(apt).Some? && FirstCorridor(apt).value < j < |apt|
    ensures AptAdjacency(apt[j := other], grid, domain) == AptAdjacency(apt, grid, domain)
  {
    var c := FirstCorridor(apt).value;
    FirstCorridorIgnoresTail(apt, j, other);
    assert apt[j := other][c] == apt[c];
  }

  /** A corridor room with no corridor room before it is the first corridor. */
  lemma FirstCorridorIs(apt: seq<Room>, c: int)
    requires 0 <= c < |apt| && IsCorridor(apt[c])
    requires forall j :: 0 <= j < c ==> !IsCorridor(apt[j])
    ensures FirstCorridor(apt) == Some(c)
  {
    var first := FirstCorridor(apt);
    assert first.Some?;
    assert !(first.value < c);
    assert !(first.value > c);
  }

  /** Replacing a room after the first corridor keeps the first corridor. */
  lemma FirstCorridorIgnoresTail(apt: seq<Room>, j: int, other: Room)
    requires FirstCorridor(apt).Some? && FirstCorridor(apt).value < j < |apt|
    ensures FirstCorridor(apt[j := other]) == FirstCorridor(apt)
  {
    var c := FirstCorridor(apt).value;
    var apt' := apt[j := other];
    assert forall k :: 0 <= k <= c ==> apt'[k] == apt[k];
    FirstCorridorIs(apt', c);
  }
}
