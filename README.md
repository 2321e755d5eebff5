# Floor-plan constraints, evaluated on one layout

The residential-buildings layout generator places apartments on a grid of
cells. It builds a constraint model with OR-Tools. Every cell is an integer
variable that holds an index into the *domain*, the ordered list of room
labels: `"D"` first, then each apartment's rooms, then the shared hallways
(`xxxxxxxx0`, …), the elevator `ELR` and the stairwell `SW`. Every room
has four corner variables: `ax`/`bx` are its first and last rows, `ay`/`by`
its first and last columns. On top of these the generator adds reified
booleans, sums and constraints.

This project gives those constraints their *meaning*. It fixes one concrete
layout: corner values for every room and a label index for every cell. Each
constraint-building function then becomes the truth value, or the integer
value, that its variables would be forced to take on that layout. A
variable whose domain the layout leaves becomes `None`. That is an
infeasible layout, because OR-Tools cannot give the variable a value. A
Python exception raised while building the model becomes
`Err(IndexError)` or `Err(ValueError)`.

Modules:

* `Common` holds shared pieces:
  * `Option` and `Result`;
  * Python's `str.split`, modelled as `Split` with its inverse `Join`;
  * substring tests (`Contains`);
  * `list.index`, modelled as `IndexOf`;
  * a generic "all elements pass" predicate.
* `Reify` models genericUtility.py: the reified `and`, `or`, range test, equality and bounded sum.
* `Rooms` models roomUtility.py:
  * the room record and label categories;
  * centres and the distance between rooms;
  * border and sun tests;
  * the one-cell band around a room;
  * the diagonal test and the adjacency test.
* `Layout` models `createRoom`, `roomConstraint` and `matchCellToRoom`: how corner variables are created and bound to the grid. It also models how the generator builds the domain.
* `Connectivity` models `enforceComponencyConstraint`. This is the in-place transitive closure over an `array2<bool>`, proved equal to reachability in the room-adjacency graph.
* `Adjacency` models `roomAdjacencyConstraint` and `aptAdjacencyConstraint`:
  * the table of required neighbours and its exceptions;
  * the candidate filter;
  * the scan of the band around a room.
* `Aggregates` models the counts and sums used by the objective, and the equal-distance-to-elevator rule.
* `Apartments` models the apartment-level rules:
  * open area and sun rooms;
  * equal areas;
  * the golden ratio;
  * mirror symmetry between two apartments.

Several loops of the source are methods with loop invariants:
- the grid scans (`Layout.MatchGrid`, `Adjacency.ScanBand`);
- the in-place closure of the path matrix (`Connectivity.CloseRound` and its helpers);
- the count and sum loops (`Aggregates.AppendSunFlags`, `Aggregates.AddBedroomRow`, `Aggregates.AddBathroomRow`).

Each is proved equal to a specification function, and lemmas state what that function means. Four list loops at the apartment level are not methods:
- the open-area loop is the recursive functions `Apartments.RoomLiterals` and `Apartments.OpenAreaLiterals`;
- the loop of `symmetricRooms` is the recursive function `Apartments.SameArea`;
- the loop of `symmetricApts` is the recursive function `Apartments.SymmetricFrom`;
- the loop of `ensureApartmentSymmetry` is a quantifier in `Apartments.EnsureApartmentSymmetry`.

Each of these posts constraints one by one and changes nothing else, so a value states all of it.

Behaviours of the code that the model states and proves:

* **Distance.** The distance is not an absolute Manhattan distance. Each difference of centres is bound to a variable with domain `[0, max]`. So a distance exists only when the first room's centre is not above or left of the second's (`Rooms.GetDistanceMeaning`). The distance is therefore not symmetric (`Rooms.DistanceIsNotSymmetric`).
* **Adjacency.** `isAdjacent` is not symmetric. `Rooms.AdjacencyIsNotSymmetric` gives two rooms where it holds in one order only. `Rooms.EdgeContactCanBeMissed` gives two rooms that share an edge but are adjacent in neither order.
* **Open area.** The open-area check compares row corners for `top`/`bottom` and column corners for `left`/`right` (`Apartments.FacesSide`).
* **Corridors and hallways.** `aptAdjacencyConstraint` keeps the rooms whose label contains `CR`. Its list of hallways is a one-shot Python `filter` iterator, which the first corridor exhausts. So only the first corridor of an apartment takes part (`Adjacency.OnlyFirstCorridorCounts`).
* **Disjointness.** `matchCellToRoom` also forbids the room's index outside the room. So two rooms with different indices can never claim the same cell (`Layout.DistinctRoomsShareNoCell`, `Layout.PlacedRoomsDisjoint`).
* **Closure matrix.** `enforceComponencyConstraint` overwrites the matrix in place during a round. This reads the same values as a fresh matrix, because a round never changes row or column `k` (`Connectivity.RoundKeepsPivot`).

## Model

| member | source | states |
|---|---|---|
| Common.Split | constraints.py:117 | `str.split`: at least one part, no part contains the separator, and joining the parts gives back the string |
| Common.SplitJoin | constraints.py:117 | splitting joined parts that do not contain the separator gives back the parts |
| Common.FirstField | roomUtility.py:37-40 | the first field of a split is `p` exactly when the string is `p` or starts with `p` followed by the separator |
| Common.ContainsAt | constraints.py:79 | Python's `in` on strings holds exactly when the pattern occurs at some position |
| Common.IndexOf | constraints.py:43 | `list.index`: None exactly when the value is absent, else the first position holding it |
| Common.IndexOfDistinct | constraints.py:179 | in a list without repeats, `index` finds each element at its own position |
| Common.AllMeaning | constraints.py:182-183 | the recursive "every element passes" predicate holds exactly when every element passes |
| Reify.BoolAnd | genericUtility.py:4-11 | the conjunction is true exactly when every literal is true |
| Reify.BoolOr | genericUtility.py:14-21 | the disjunction is true exactly when some literal is true |
| Reify.Negate | genericUtility.py:10 | the negated literals, element by element |
| Reify.IsAnd | genericUtility.py:4-11 | the reified AND satisfies both enforced constraints, is the only value that does, and is true exactly when all literals are (so the empty list gives true) |
| Reify.IsOr | genericUtility.py:14-21 | the reified OR satisfies both enforced constraints, is the only value that does, and is true exactly when some literal is (so the empty list gives false) |
| Reify.IsAndPair | genericUtility.py:4-11 | on two literals the reified AND is `x && y` |
| Reify.IsOrPair | genericUtility.py:14-21 | on two literals the reified OR is `x \|\| y` |
| Reify.OrIsDualOfAnd | genericUtility.py:4-21 | the reified OR is the negation of the reified AND of the negated literals |
| Reify.IsBetween | genericUtility.py:24-34 | true exactly when `lo <= v <= hi`; an empty range gives false |
| Reify.ReifiedIsExact | genericUtility.py:37-44 | a boolean enforced both ways (`cond` when true, `!cond` when false) equals `cond` |
| Reify.IsEqual | genericUtility.py:37-44 | the reified equality satisfies both enforced constraints, is the only boolean that does, and is true exactly when the two values are equal |
| Reify.CountTrue | genericUtility.py:49 | the linear sum of literals is the number of true literals, at most their count |
| Reify.GetSum | genericUtility.py:47-51 | the count variable has a value exactly when the number of true literals fits its domain `[0, maxVal]`, and that value is the number |
| Rooms.IsBedroom | roomUtility.py:37-40 | the label is `BD` or starts with `BD_`, which `Rooms.CategoryTests` proves is the first-field test of the source |
| Rooms.IsLivingRoom | roomUtility.py:43-46 | the label is `LR` or starts with `LR_`, the first-field test by `Rooms.CategoryTests` |
| Rooms.IsMainBathroom | roomUtility.py:49-52 | the label is `MSB` or starts with `MSB_`, the first-field test by `Rooms.CategoryTests` |
| Rooms.CategoryIsFirstField | roomUtility.py:37-52 | the prefix test on a label is the same as comparing the first `_`-separated field |
| Rooms.CategoryTests | roomUtility.py:37-52 | bedroom, living room and main bathroom are the labels whose first field is `BD`, `LR` and `MSB` |
| Rooms.GetMid | roomUtility.py:29-34 | the midpoint exists exactly when `0 <= a + b <= max`; it then lies in `[0, max]` and is `(a + b)` halved, rounded down |
| Rooms.GetDistance | roomUtility.py:4-26 | a distance that exists lies in `[0, max]` |
| Rooms.GetDistanceMeaning | roomUtility.py:4-26 | the distance exists exactly when both centres exist, the first is not above or left of the second, and their Manhattan distance is at most `max`; it then is that Manhattan distance |
| Rooms.DistanceBothOrders | roomUtility.py:12-16 | if the distance exists in both orders, the two centres coincide and both distances are 0 |
| Rooms.DistanceIsNotSymmetric | roomUtility.py:12-16 | two rooms whose distance exists in one order and not in the other |
| Rooms.IsDistanceLessThan | roomUtility.py:56-61 | defined exactly when the distance is, and then true exactly when the distance is below the bound |
| Rooms.IsDistanceGreaterThan | roomUtility.py:65-70 | defined exactly when the distance is, and then true exactly when the distance is above the bound |
| Rooms.NeverBothLessAndGreater | roomUtility.py:56-70 | no pair is at once closer than and farther than the same bound |
| Rooms.IsOnBorder | roomUtility.py:73-76 | horizontal: a row corner equals the border; vertical: a column corner equals it |
| Rooms.IsSunRoom | roomUtility.py:79-84 | true exactly when some corner lies on row 0, column 0, the last row or the last column |
| Rooms.SunRoomTouchesOuterWall | roomUtility.py:79-84 | for a room inside the grid, the sun test holds exactly when one of its cells is on the outer wall |
| Rooms.Between | roomUtility.py:152-168 | true exactly when the point lies in the room grown by one cell on every side |
| Rooms.IsbBRa | roomUtility.py:130-137 | true exactly when the second point is one row below and one column right of the first |
| Rooms.IsbBLa | roomUtility.py:141-148 | true exactly when the second point is one row below and one column left of the first |
| Rooms.IsDiagonal | roomUtility.py:106-126 | true exactly when one room's first row is one below the other's last row, and either its first column is one past the other's last column or its last column is one before the other's first column |
| Rooms.DiagonalIsSymmetric | roomUtility.py:106-126 | the diagonal test gives the same answer in both orders |
| Rooms.EdgeContactIsSharedEdge | roomUtility.py:88-100 | for disjoint well-formed rooms, the corner-band contact test means that some cell of one is a side neighbour of a cell of the other |
| Rooms.DiagonalRoomsTouchAtCornerOnly | roomUtility.py:106-126 | diagonal rooms do not overlap and share no edge, but have cells that touch at a corner |
| Rooms.IsAdjacent | roomUtility.py:88-100 | a room is adjacent to itself by index; otherwise adjacent exactly when its top-left or bottom-right corner is in the other's band and the pair is not diagonal |
| Rooms.AdjacentRoomsShareEdge | roomUtility.py:88-100 | adjacent, disjoint, well-formed rooms share an edge |
| Rooms.AdjacencyExamples | roomUtility.py:88-126 | a side neighbour is adjacent and a diagonal neighbour is not |
| Rooms.AdjacencyIsNotSymmetric | roomUtility.py:88-100 | two rooms that are adjacent in one order and not in the other |
| Rooms.EdgeContactCanBeMissed | roomUtility.py:88-100 | two rooms that share an edge but are adjacent in neither order |
| Layout.CreateRoom | constraints.py:186-196 | the room record with minimum height and width 0 and every corner unpinned unless given; what placement makes of it is stated by `Layout.CreatedRoomIsFree` |
| Layout.Place | constraints.py:14-16 | a created corner variable takes the chosen value, a given corner keeps its value, and the label and minimum sizes are unchanged |
| Layout.CreatedRoomIsFree | constraints.py:186-196 | a room from `createRoom` with the defaults has zero minimum width and height, and all four corners are chosen |
| Layout.MatchCell | constraints.py:40-44 | a cell satisfies the two enforced constraints exactly when it holds the room's index if and only if it lies inside the room |
| Layout.MatchGrid | constraints.py:34-37 | the scan of every cell succeeds exactly when every cell satisfies the cell constraint |
| Layout.RoomConstraint | constraints.py:4-37 | `ValueError` exactly when the grid has cells and the label is not in the domain; otherwise the placed room's constraints hold exactly when the corners are in the domains as written (all four in `[0, len(grid) - 1]`), the sizes meet their minimums and every cell matches |
| Layout.DistinctRoomsShareNoCell | constraints.py:40-44 | two rooms with different indices that both match the grid never claim the same cell |
| Layout.PlacedRoomsDisjoint | constraints.py:40-44 | two rooms inside the grid that match it with different indices do not overlap |
| Layout.MinAreaOrdersCorners | constraints.py:25-32 | with a positive minimum area, the size constraints force first corners to be at most last corners, and width and height to be at least 1 |
| Layout.SquareGridDomainsAgree | constraints.py:11-16 | on a square grid the corner domains as written and the intended ones accept the same rooms |
| Layout.LastColumnsUnreachableAsWritten | constraints.py:11-16 | on a grid with fewer rows than columns, no free room may end in the last column, because the domains as written reject it |
| Layout.RoomOutsideGridAsWritten | constraints.py:14-16 | on a 3×1 grid, a room in column 2 meets every constraint as written, yet lies outside the grid and covers no cell |
| Layout.FreeRoomWithinGrid | constraints.py:14-16 | with column corners bounded by the column count, a room whose corners are all chosen lies inside the grid and its first cell holds its index |
| Layout.BuildDomain | generatorLogic.py:17 | the domain is `"D"` at index 0, followed by the room labels and then the corridor labels, in order |
| Layout.BuildDomainIndices | generatorLogic.py:17-44 | when the labels are pairwise distinct and none is `D`, `domain.index` finds each room label at 1 + its position and each corridor label after all room labels |
| Connectivity.AdjacencyMatrix | constraints.py:52-56 | a square matrix over the rooms whose entry `(x, y)` is `isAdjacent(x, y)` |
| Connectivity.RoundKeepsPivot | constraints.py:58-67 | a round of the closure does not change row or column `k`, so updating the matrix in place reads the same values |
| Connectivity.ReachKGrows | constraints.py:58-67 | an entry that is true after some round stays true after every later one |
| Connectivity.DiagonalStaysTrue | constraints.py:52-67 | every diagonal entry is true after every round |
| Connectivity.ReachKHasWalk | constraints.py:58-67 | an entry true after round `k` has a walk between its ends whose inner rooms have index below `k` |
| Connectivity.WalkGivesReachK | constraints.py:58-67 | a walk whose inner rooms have index below `k` makes the entry true after round `k` |
| Connectivity.ClosureIsReachability | constraints.py:58-74 | after all rounds an entry is true exactly when its column room can be reached from its row room along adjacent rooms |
| Connectivity.FillPath | constraints.py:52-56 | the new matrix holds the adjacency matrix |
| Connectivity.FillRow | constraints.py:54-56 | one row is filled from the adjacency matrix and the other rows are unchanged |
| Connectivity.RelaxRow | constraints.py:60-67 | one row goes from round `k` to round `k + 1` and the other rows are unchanged |
| Connectivity.CloseRound | constraints.py:58-67 | the matrix goes from round `k` to round `k + 1` |
| Connectivity.AllEntries | constraints.py:69-74 | true exactly when every entry of the matrix is true |
| Connectivity.EnforceComponencyConstraint | constraints.py:47-74 | the constraint holds exactly when every room can be reached from every room along adjacent rooms |
| Connectivity.ConnectedRoomTouchesAnother | constraints.py:47-74 | in a connected set of disjoint well-formed rooms, each room shares an edge with another room |
| Connectivity.SingleRoomIsConnected | constraints.py:47-74 | a single room is connected |
| Adjacency.InEdge | constraints.py:146-157 | the reified band test is true exactly when the cell is on a side of the room grown by one, corners excluded |
| Adjacency.BandIsSideNeighbourhood | constraints.py:146-157 | for a well-formed room, the band is exactly the cells outside the room that are side neighbours of a cell inside it |
| Adjacency.BandExcludesCorners | constraints.py:146-157 | the four diagonal corner cells are not in the band |
| Adjacency.AnyMatch | constraints.py:176-180 | a literal is true exactly when the cell is in the band and holds one of the candidate indices |
| Adjacency.ScanBand | constraints.py:96-110 | the scan finds a hit exactly when some band cell of the grid holds a candidate index |
| Adjacency.AdjacencyTable | constraints.py:120-124 | `adjDict` with the empty list for a missing key: at most two categories, and none exactly for the types outside `DN`, `K`, `MSB`, `DR` and `MNB` |
| Adjacency.AdjacencyTableFacts | constraints.py:120-124 | the table never lists `CR`, lists `BD` only for `DR` and `MNB`, and lists it at most once |
| Adjacency.RemoveFirst | constraints.py:129-130 | `list.remove` raises `ValueError` exactly when the value is absent |
| Adjacency.RemoveFirstMeaning | constraints.py:129-130 | removing a present value drops one occurrence, and nothing else changes |
| Adjacency.RequiredNeighbours | constraints.py:117-130 | `IndexError` exactly when the label has fewer than three fields |
| Adjacency.RequiredNeighboursMeaning | constraints.py:117-130 | `ValueError` exactly for a three-field label with a `#` instance whose type is neither `DR` nor `MNB`; otherwise `CR` is needed except for `DR` and non-`#` `MNB`, `BD` is needed only by non-`#` `DR`/`MNB`, and every need comes from the table or is `CR` |
| Adjacency.FieldsOfLabel | constraints.py:117-119 | a label built from three underscore-free fields splits back into them |
| Adjacency.HashKitchenRaises | constraints.py:129-130 | a `#` kitchen raises `ValueError` |
| Adjacency.MainBathroomNeeds | constraints.py:120-127 | a main bathroom needs a bedroom and `D` |
| Adjacency.HashMainBathroomNeeds | constraints.py:120-130 | a `#` main bathroom needs `D` and a corridor |
| Adjacency.HashDressingRoomNeedsNothing | constraints.py:120-130 | a `#` dressing room needs nothing |
| Adjacency.LivingRoomNeedsCorridor | constraints.py:120-127 | a living room needs only a corridor |
| Adjacency.AssociatedRoom | constraints.py:160-165 | `assRoom` is the room's own instance field when a `MNB` looks for its `BD` and for every need of a `DR`; it is empty for every other room type, and for a `MNB` need other than `BD` |
| Adjacency.MainBathroomTouchesOwnBedroom | constraints.py:160-172 | a satisfied `MNB_<apt>_<i>` whose instance has no `#` has a side-neighbour cell holding a `BD` label of its own apartment (or of none) whose third field is `<i>` |
| Adjacency.Qualifies | constraints.py:167-172 | `IndexError` exactly when a same-apartment, same-category label of length above 1 with fewer than three fields is tested against an associated room; otherwise true exactly when the label matches apartment and category and either no room is associated, the third field is that room, or the label is one character long |
| Adjacency.Candidates | constraints.py:167-172 | `IndexError` exactly when some label raises; otherwise the candidates are the domain labels that qualify |
| Adjacency.OtherApartmentIsCandidate | constraints.py:169 | the apartment test is a substring test, so apartment `apt` accepts a bedroom of apartment `apt + tail` |
| Adjacency.SharedLabelQualifies | constraints.py:167-172 | a label without `AP` passes the apartment test of every apartment, so it is a candidate for its own category when no room is associated or its third field is the associated room |
| Adjacency.UnsplitLabel | constraints.py:170 | a label without `_` splits into itself alone |
| Adjacency.BackgroundIsCandidate | constraints.py:167-172 | the background `D` passes the filter for the `D` need of a room of every apartment, whatever room is associated |
| Adjacency.UnsplitLabelQualifiesOnlyForItself | constraints.py:167-172 | a label without `_` is a candidate only for a need equal to the whole label |
| Adjacency.HallwaysNeverCorridorCandidates | constraints.py:167-172 | the hallway labels `xxxxxxxx<i>`, `ELR` and `SW` are never candidates for a `CR` need |
| Adjacency.CandidateIndices | constraints.py:178 | each candidate is mapped to its first position in the domain |
| Adjacency.CheckNeed | constraints.py:158-180 | one need raises exactly when building its candidates raises, and is met exactly when some band cell holds a candidate |
| Adjacency.CheckNeeds | constraints.py:158-183 | the needs give an error if any need raises; otherwise they hold exactly when the band variables are feasible and every need is met |
| Adjacency.RoomAdjacencyConstraint | constraints.py:114-183 | the constraint's result is the specification function: label errors, then every required neighbour met |
| Adjacency.SatisfiedRoomTouchesEveryNeed | constraints.py:114-183 | when the constraint holds, each required neighbour has a band cell outside the room holding a qualifying label |
| Adjacency.NeedMetMeaning | constraints.py:167-180 | one category's disjunction holds exactly when its filter does not raise and some band cell holds the first domain position (`domain.index`) of a qualifying label |
| Adjacency.RoomAdjacencyMeaning | constraints.py:114-183 | the constraint holds exactly when the band variables fit their domains and, for every required category, the filter does not raise and a band cell holds a candidate |
| Adjacency.NoCandidateIsUnsatisfiable | constraints.py:182-183 | a need without candidates makes the constraint fail |
| Adjacency.Hallways | constraints.py:79 | the hallways are the domain labels containing `xxx` |
| Adjacency.FirstCorridor | constraints.py:81 | None exactly when no room is a corridor; otherwise the first corridor |
| Adjacency.DrainHallways | constraints.py:82-110 | the band variables are feasible when there are no hallways or the band fits, and a hit is found exactly when a band cell holds a hallway |
| Adjacency.AptAdjacencyConstraint | constraints.py:77-111 | the constraint holds exactly when the first corridor's band fits and touches a hallway |
| Adjacency.HallwayHits | constraints.py:96-110 | a hit on the hallway indices is a band cell whose label contains `xxx` |
| Adjacency.OnlyFirstCorridorCounts | constraints.py:79-83 | changing any room after the first corridor does not change the constraint |
| Adjacency.FirstCorridorIs | constraints.py:81 | a corridor with no corridor before it is the first corridor |
| Adjacency.FirstCorridorIgnoresTail | constraints.py:81 | rooms after the first corridor do not change which corridor is first |
| Aggregates.Flatten | constraints.py:202-204 | the rooms of all apartments, each apartment in order |
| Aggregates.SunRoomsMembers | roomUtility.py:79-84 | the filtered rooms are exactly the sun rooms |
| Aggregates.GetCountSunRooms | constraints.py:199-205 | the count has a value exactly when the number of sun rooms fits the cell count, and that value is the number |
| Aggregates.AppendSunFlags | constraints.py:203-204 | appending one apartment's flags adds its number of sun rooms |
| Aggregates.ThresholdMembers | constraints.py:248-261 | the counted tuples are exactly those whose distance is below, or above, the bound |
| Aggregates.CountLiterals | genericUtility.py:47-51 | the count exists exactly when every literal exists, and it is the number of true literals |
| Aggregates.GetCountDistanceLessThan | constraints.py:248-253 | the count exists exactly when every distance exists, and it is the number of tuples closer than their bound |
| Aggregates.GetCountDistanceGreaterThan | constraints.py:256-261 | the count exists exactly when every distance exists, and it is the number of tuples farther than their bound |
| Aggregates.CloserPlusFartherAtMostTuples | constraints.py:248-261 | no tuple is counted both as closer and as farther |
| Aggregates.BedroomSumBound | constraints.py:264-277 | the bedroom sum after `i` rows is at most `i · n · maxVal` |
| Aggregates.BedroomRunningSumFits | constraints.py:266-275 | every running bedroom sum fits the domain `[0, n² · maxVal]`, so the domain never binds |
| Aggregates.GetPairWiseDistanceBetweenBedroom | constraints.py:264-277 | the sum exists exactly when every bedroom-pair distance exists, and it is the sum over pairs `i < j` |
| Aggregates.AddBedroomRow | constraints.py:268-275 | one row adds the distances from bedroom `i` to the later bedrooms |
| Aggregates.NoBedroomPairSumsToZero | constraints.py:264-277 | without two bedrooms the sum is 0 |
| Aggregates.TwoBedroomsSumToTheirDistance | constraints.py:264-277 | for two rooms, the sum is their distance when both are bedrooms and 0 otherwise |
| Aggregates.CountMainBathroomsMono | constraints.py:287-289 | the number of main bathrooms, and of other rooms, grows along the list |
| Aggregates.BathSumBound | constraints.py:280-298 | the bathroom sum is bounded by the bathrooms seen times twice `maxVal` times the other rooms |
| Aggregates.BathRunningSumFits | constraints.py:284-297 | every running bathroom sum fits the domain `[0, n² · maxVal]`, so the domain never binds |
| Aggregates.GetPairWiseDistanceToBathroom | constraints.py:280-298 | the sum exists exactly when every needed distance exists, and it is the sum over main bathrooms and other rooms, with living rooms weighted 2 |
| Aggregates.AddBathroomRow | constraints.py:286-297 | one row adds the weighted distances from bathroom `i` to every room that is not a main bathroom |
| Aggregates.FactorWeighs | constraints.py:292-295 | the factor times the distance is the weighted distance |
| Aggregates.NoMainBathroomSumsToZero | constraints.py:280-298 | without a main bathroom the sum is 0 |
| Aggregates.LivingRoomIsNoMainBathroom | roomUtility.py:43-52 | a living room is never a main bathroom |
| Aggregates.LivingRoomCountsTwice | constraints.py:292-295 | a main bathroom and a living room contribute twice their distance |
| Aggregates.MinWithin | constraints.py:308-313 | the minimum exists exactly when every distance exists and `maxVal >= 0`; it lies in `[0, maxVal]`, is at most every distance, and equals `maxVal` or one of them |
| Aggregates.ElevatorDistances | constraints.py:310-311 | the distance from each room to the elevator |
| Aggregates.ApartmentMinMeaning | constraints.py:305-318 | an apartment's minimum distance to the elevator, stated in terms of the room distances |
| Aggregates.EnsureEqualDistanceToElevator | constraints.py:305-318 | holds exactly when every apartment's minimum exists and equals the first apartment's |
| Aggregates.NoRoomCloserThanAnyMinimum | constraints.py:305-318 | under the rule, no room of any apartment is closer to the elevator than any apartment's minimum |
| Apartments.SideLiteral | constraints.py:213-218 | the literal for one side is true exactly when the room faces that side |
| Apartments.RoomLiterals | constraints.py:210-218 | a room's literals include a true one exactly when it faces an open side |
| Apartments.OpenAreaLiterals | constraints.py:210-218 | the apartment's literals include a true one exactly when some room faces an open side |
| Apartments.AptOpenAreaConstraint | constraints.py:208-219 | holds exactly when some room of the apartment faces a side whose flag is non-zero |
| Apartments.OpenAreaHasSunRoom | constraints.py:208-219 | an apartment on an open area has a sun room |
| Apartments.NoOpenSideIsUnsatisfiable | constraints.py:208-219 | with every flag zero, the constraint cannot hold |
| Apartments.SunRoomConstraint | constraints.py:301-302 | holds exactly when the room is a sun room, that is, for a room inside the grid, when it has a cell on the outer wall |
| Apartments.SameArea | constraints.py:224-225 | true exactly when every room has the given area |
| Apartments.SymmetricRooms | constraints.py:222-225 | `IndexError` exactly for an empty list; otherwise true exactly when all areas are equal |
| Apartments.Column | constraints.py:232 | the `i`-th room of every apartment |
| Apartments.SymmetricFrom | constraints.py:229-232 | from position `i` on: `IndexError` exactly when some apartment is shorter than the first, else equal areas position by position |
| Apartments.SymmetricApts | constraints.py:229-232 | `IndexError` exactly for no apartments or an apartment shorter than the first; otherwise true exactly when the rooms at each position have equal areas |
| Apartments.EnsureGoldenRatio | constraints.py:235-245 | the five posted constraints on one room: both extents and their minimum and maximum in `[0, mx]`, and `10 · max == 16 · min`; its meaning is stated by `Apartments.GoldenRatioShape` |
| Apartments.GoldenRatioShape | constraints.py:235-245 | the ratio constraint holds exactly when the room's extents are `5k` and `8k` in some order, for some `k >= 0` with `8k <= mx` |
| Apartments.GoldenRoomIsAtLeastFiveByEight | constraints.py:235-245 | a well-formed room meeting the ratio is at least 5 by 8 |
| Apartments.EnsureApartmentSymmetry | constraints.py:321-331 | `IndexError` exactly when the second apartment is shorter; otherwise true exactly when each room of the second is the mirror image of its partner about `midX` |
| Apartments.MirrorIsInvolution | constraints.py:326-329 | mirroring twice gives back the room |
| Apartments.MirrorReflectsCells | constraints.py:326-331 | the mirror image has the same width, height and area, and holds exactly the reflected cells |
| Apartments.MirrorEquationsSymmetric | constraints.py:326-331 | the four symmetry equations hold for `(room1, room2)` exactly when they hold for `(room2, room1)` |
| Apartments.SymmetricApartmentsHaveEqualAreas | constraints.py:321-331 | mirrored partners have equal areas |
| Apartments.MirrorKeepsSunRooms | constraints.py:321-331 | about the grid's middle column, a mirrored room is a sun room exactly when the original is |

## Left out

- The OR-Tools solver itself is not modelled: variable creation, search, solution callbacks, the objective weights and `solutionPrinter.py`. The model evaluates each constraint on one given layout instead.
- The debug `print` calls in `roomConstraint` and `roomAdjacencyConstraint` are left out.
- generatorLogic.py is left out: reading the building from the console, calling the constraints and printing. Only its construction of the domain is modelled, as `Layout.BuildDomain`.
- An empty grid (no rows) is excluded by `IsGrid`. On such a grid the source fails on `grid[0]` before any constraint is posted.
- `roomConstraint` writes the new corner variables into the room dictionary in place. The model returns the placed room as a value (`Layout.Place`). Later code that reads the dictionary sees that value.
- The `area` variable that `roomConstraint` stores in the room is used as `Width * Height` wherever a later rule reads it.
- `roomAdjacencyConstraint` visits cells in the outer loop and needs in the inner loop. Its model visits needs first and cells second. The resulting disjunctions are the same; only the order in which literals are created differs. The candidate filter does not depend on the cell, so an error it raises arises on the first cell in either order.
- `Connectivity.FillPath` copies the adjacency matrix, computed as a value, into the array. The reified booleans of `isAdjacent` are not re-created cell by cell.
- The `onOpenArea` dictionary is a sequence of `(key, value)` pairs in insertion order. Python dictionary identity and key uniqueness are not modelled.
- Layout.MinAreaOrdersCorners: assumes non-negative minimum width and height. The source accepts any integers there, and a negative minimum lets a room have its corners reversed.
- Layout.RoomConstraint: evaluates the corner domains as written (see Findings). The intended column domain is stated only by `Layout.RoomHolds` and proved about by `Layout.FreeRoomWithinGrid`; no operation evaluates it.
- Rooms.GetDistance: its own contract gives only the range `[0, max]`. The exact value is stated by `Rooms.GetDistanceMeaning`.

## Findings

| source | as written | input that shows it | evidently intended | confidence | as-written member | corrected member |
|---|---|---|---|---|---|---|
| constraints.py:14-16 | every free corner, the column corners `ay`/`by` included, gets the domain `[0, len(grid) - 1]` (the row count) | a 3-row, 1-column grid with a room at rows 0–0, column 2: every constraint holds, yet the room lies outside the grid and covers no cell | column corners range over `[0, len(grid[0]) - 1]` | not executed | Layout.RoomOutsideGridAsWritten | Layout.FreeRoomWithinGrid |
