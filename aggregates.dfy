/**
 * The aggregate expressions of constraints.py, evaluated on one layout:
 * counts of reified booleans (sun rooms, distance thresholds), the running
 * distance sums over bedroom pairs and from main bathrooms, and the rule
 * that every apartment is equally far from the elevator.
 *
 * A sum the source binds to an integer variable with a bounded domain has
 * no value (None) when the layout leaves that domain, and so does every
 * aggregate that uses a `getDistance` without a value: the whole model is
 * then infeasible for the layout.
 */
module Aggregates {
  import opened Common
  import opened Reify
  import opened Rooms

  // ---------------------------------------------------------------------------
  // Filters and counted literals
  // ---------------------------------------------------------------------------

  /** The elements of `xs` that satisfy `p`, in order. */
  function Filter<T>(xs: seq<T>, p: T -> bool): (s: seq<T>)
    ensures |s| <= |xs|
  {
    if |xs| == 0 then []
    else Filter(xs[..|xs| - 1], p) + (if p(xs[|xs| - 1]) then [xs[|xs| - 1]] else [])
  }

  lemma FilterSnoc<T>(xs: seq<T>, x: T, p: T -> bool)
    ensures Filter(xs + [x], p) == Filter(xs, p) + (if p(x) then [x] else [])
  {
    assert (xs + [x])[..|xs|] == xs;
  }

  lemma {:induction false} FilterAppend<T>(xs: seq<T>, ys: seq<T>, p: T -> bool)
    ensures Filter(xs + ys, p) == Filter(xs, p) + Filter(ys, p)
    decreases |ys|
  {
    if |ys| == 0 {
      assert xs + ys == xs;
    } else {
      var init := ys[..|ys| - 1];
      var last := ys[|ys| - 1];
      assert ys == init + [last];
      assert xs + ys == (xs + init) + [last];
      FilterAppend(xs, init, p);
      FilterSnoc(xs + init, last, p);
      FilterSnoc(init, last, p);
    }
  }

  /** Filter keeps exactly the elements that satisfy the test. */
  lemma {:induction false} FilterMembers<T>(xs: seq<T>, p: T -> bool)
    ensures forall x :: x in Filter(xs, p) <==> x in xs && p(x)
    decreases |xs|
  {
    if |xs| > 0 {
      var init := xs[..|xs| - 1];
      assert xs == init + [xs[|xs| - 1]];
      FilterMembers(init, p);
    }
  }

  /**
   * Literals collected one element at a time count the elements that pass:
   * one more literal for one more element keeps the count.
   */
  lemma CountSnoc<T>(flags: seq<bool>, k: int, xs: seq<T>, x: T, p: T -> bool)
    requires multiset(flags)[true] == k + |Filter(xs, p)|
    ensures multiset(flags + [p(x)])[true] == k + |Filter(xs + [x], p)|
  {
    FilterSnoc(xs, x, p);
    assert multiset(flags + [p(x)]) == multiset(flags) + multiset{p(x)};
  }

  // ---------------------------------------------------------------------------
  // Counting sun rooms
  // ---------------------------------------------------------------------------

  /** The rooms of every apartment, apartment after apartment. */
  function Flatten(apts: seq<seq<Room>>): (rooms: seq<Room>)
    ensures forall r :: r in rooms <==> exists a :: 0 <= a < |apts| && r in apts[a]
  {
    if |apts| == 0 then []
    else
      var init := apts[..|apts| - 1];
      assert forall a :: 0 <= a < |init| ==> init[a] == apts[a];
      Flatten(init) + apts[|apts| - 1]
  }

  /** Taking one more apartment appends its rooms. */
  lemma FlattenSnoc(apts: seq<seq<Room>>, a: nat)
    requires a < |apts|
    ensures Flatten(apts[..a + 1]) == Flatten(apts[..a]) + apts[a]
  {
    assert apts[..a + 1][..a] == apts[..a];
  }

  /** isSunRoom on the given grid, as a test on rooms. */
  function SunRoomTest(grid: seq<seq<int>>): Room -> bool
  {
    (r: Room) => |grid| > 0 && IsSunRoom(r, grid)
  }

  /** The sun rooms among `rooms`, in order. */
  function SunRooms(rooms: seq<Room>, grid: seq<seq<int>>): seq<Room>
  {
    Filter(rooms, SunRoomTest(grid))
  }

  /** SunRooms keeps exactly the sun rooms. */
  lemma SunRoomsMembers(rooms: seq<Room>, grid: seq<seq<int>>)
    requires |grid| > 0
    ensures forall r :: r in SunRooms(rooms, grid) <==> r in rooms && IsSunRoom(r, grid)
  {
    FilterMembers(rooms, SunRoomTest(grid));
  }

  /**
   * getCountSunRooms: one isSunRoom literal per room of every apartment,
   * summed by getSum with domain [0, rows * columns]. The count is the number
   * of sun rooms, and it has a value exactly when that number fits the
   * domain.
   */
  method GetCountSunRooms(apts: seq<seq<Room>>, grid: seq<seq<int>>) returns (count: Option<nat>)
    requires IsGrid(grid)
    ensures count.Some? <==> |SunRooms(Flatten(apts), grid)| <= |grid| * |grid[0]|
    ensures count.Some? ==> count.value == |SunRooms(Flatten(apts), grid)|
  {
    var boolVars: seq<bool> := [];
    for a := 0 to |apts|
      invariant multiset(boolVars)[true] == |SunRooms(Flatten(apts[..a]), grid)|
    {
      FlattenSnoc(apts, a);
      FilterAppend(Flatten(apts[..a]), apts[a], SunRoomTest(grid));
      boolVars := AppendSunFlags(boolVars, apts[a], grid);
    }
    assert apts[..|apts|] == apts;
    count := GetSum(boolVars, |grid| * |grid[0]|);
  }

  /** The inner loop of getCountSunRooms: one isSunRoom literal per room of one apartment. */
  method AppendSunFlags(boolVars: seq<bool>, apt: seq<Room>, grid: seq<seq<int>>) returns (flags: seq<bool>)
    requires |grid| > 0
    ensures multiset(flags)[true] == multiset(boolVars)[true] + |SunRooms(apt, grid)|
  {
    flags := boolVars;
    for i := 0 to |apt|
      invariant multiset(flags)[true] == multiset(boolVars)[true] + |SunRooms(apt[..i], grid)|
    {
      assert apt[..i + 1] == apt[..i] + [apt[i]];
      CountSnoc(flags, multiset(boolVars)[true], apt[..i], apt[i], SunRoomTest(grid));
      flags := flags + [IsSunRoom(apt[i], grid)];
    }
    assert apt[..|apt|] == apt;
  }

  // ---------------------------------------------------------------------------
  // Counting distance thresholds
  // ---------------------------------------------------------------------------

  /** Every tuple's `getDistance(rooma, roomb)` has a value. */
  predicate DistancesDefined(tuples: seq<(Room, Room, int)>, maxVal: int)
  {
    forall i :: 0 <= i < |tuples| ==> GetDistance(tuples[i].0, tuples[i].1, maxVal).Some?
  }

  /** isDistanceLessThan on a tuple `(rooma, roomb, value)`. */
  function LessLiteral(maxVal: int): ((Room, Room, int)) -> Option<bool>
  {
    (t: (Room, Room, int)) => IsDistanceLessThan(t.0, t.1, t.2, maxVal)
  }

  /** isDistanceGreaterThan on a tuple `(rooma, roomb, value)`. */
  function GreaterLiteral(maxVal: int): ((Room, Room, int)) -> Option<bool>
  {
    (t: (Room, Room, int)) => IsDistanceGreaterThan(t.0, t.1, t.2, maxVal)
  }

  /** The test "the literal is true". */
  function IsTrue<T>(lit: T -> Option<bool>): T -> bool
  {
    (x: T) => lit(x) == Some(true)
  }

  /** The tuples whose rooms are closer than the tuple's value, in order. */
  function Closer(tuples: seq<(Room, Room, int)>, maxVal: int): seq<(Room, Room, int)>
  {
    Filter(tuples, IsTrue(LessLiteral(maxVal)))
  }

  /** The tuples whose rooms are farther apart than the tuple's value, in order. */
  function Farther(tuples: seq<(Room, Room, int)>, maxVal: int): seq<(Room, Room, int)>
  {
    Filter(tuples, IsTrue(GreaterLiteral(maxVal)))
  }

  /** Closer and Farther keep the tuples whose distance exists and is below, resp. above, the value. */
  lemma ThresholdMembers(tuples: seq<(Room, Room, int)>, maxVal: int)
    ensures forall t :: t in Closer(tuples, maxVal) <==>
      t in tuples && GetDistance(t.0, t.1, maxVal).Some? && GetDistance(t.0, t.1, maxVal).value < t.2
    ensures forall t :: t in Farther(tuples, maxVal) <==>
      t in tuples && GetDistance(t.0, t.1, maxVal).Some? && GetDistance(t.0, t.1, maxVal).value > t.2
  {
    FilterMembers(tuples, IsTrue(LessLiteral(maxVal)));
    FilterMembers(tuples, IsTrue(GreaterLiteral(maxVal)));
  }

  /**
   * The loop shared by getCountDistanceLessThan and
   * getCountDistanceGreaterThan: one literal per element, summed by getSum
   * with domain [0, len(elements)]. That domain never binds; the count has
   * a value exactly when every literal does, and then it counts the true
   * ones.
   */
  method CountLiterals<T>(xs: seq<T>, lit: T -> Option<bool>) returns (count: Option<nat>)
    ensures count.Some? <==> forall i :: 0 <= i < |xs| ==> lit(xs[i]).Some?
    ensures count.Some? ==> count.value == |Filter(xs, IsTrue(lit))|
  {
    var boolVars: seq<bool> := [];
    for i := 0 to |xs|
      invariant |boolVars| == i
      invariant forall k :: 0 <= k < i ==> lit(xs[k]).Some?
      invariant multiset(boolVars)[true] == |Filter(xs[..i], IsTrue(lit))|
    {
      var b := lit(xs[i]);
      if b.None? {
        return None;
      }
      assert xs[..i + 1] == xs[..i] + [xs[i]];
      CountSnoc(boolVars, 0, xs[..i], xs[i], IsTrue(lit));
      boolVars := boolVars + [b.value];
    }
    assert xs[..|xs|] == xs;
    count := GetSum(boolVars, |xs|);
  }

  /** getCountDistanceLessThan: the number of tuples whose rooms are closer than the tuple's value. */
  method GetCountDistanceLessThan(tuples: seq<(Room, Room, int)>, maxVal: int) returns (count: Option<nat>)
    ensures count.Some? <==> DistancesDefined(tuples, maxVal)
    ensures count.Some? ==> count.value == |Closer(tuples, maxVal)|
  {
    count := CountLiterals(tuples, LessLiteral(maxVal));
  }

  /** getCountDistanceGreaterThan: the number of tuples whose rooms are farther apart than the tuple's value. */
  method GetCountDistanceGreaterThan(tuples: seq<(Room, Room, int)>, maxVal: int) returns (count: Option<nat>)
    ensures count.Some? <==> DistancesDefined(tuples, maxVal)
    ensures count.Some? ==> count.value == |Farther(tuples, maxVal)|
  {
    count := CountLiterals(tuples, GreaterLiteral(maxVal));
  }

  /** No tuple is both closer and farther than its value, so the two counts share the tuples. */
  lemma {:induction false} CloserPlusFartherAtMostTuples(tuples: seq<(Room, Room, int)>, maxVal: int)
    ensures |Closer(tuples, maxVal)| + |Farther(tuples, maxVal)| <= |tuples|
    decreases |tuples|
  {
    if |tuples| > 0 {
      var t := tuples[|tuples| - 1];
      CloserPlusFartherAtMostTuples(tuples[..|tuples| - 1], maxVal);
      NeverBothLessAndGreater(t.0, t.1, t.2, maxVal);
    }
  }

  // ---------------------------------------------------------------------------
  // Running distance sums
  // ---------------------------------------------------------------------------

  /** The distance from `a` to `b` when it has a value, 0 when it has none. */
  function Dist(a: Room, b: Room, maxVal: int): (d: nat)
    ensures GetDistance(a, b, maxVal).Some? ==> d == GetDistance(a, b, maxVal).value
    ensures maxVal >= 0 ==> d <= maxVal
  {
    match GetDistance(a, b, maxVal)
    case Some(v) => v
    case None => 0
  }

  lemma MulMono(a: int, b: int, c: int)
    requires 0 <= a <= b && 0 <= c
    ensures 0 <= a * c <= b * c
  {
    assert b * c == a * c + (b - a) * c;
  }

  /** The distances from bedroom `rooms[i]` to the bedrooms `rooms[k]` with i < k < j, summed. */
  function BedroomRow(rooms: seq<Room>, maxVal: int, i: nat, j: nat): nat
    requires i < |rooms| && j <= |rooms|
    decreases j
  {
    if j <= i + 1 then 0
    else
      BedroomRow(rooms, maxVal, i, j - 1)
      + (if IsBedroom(rooms[j - 1]) then Dist(rooms[i], rooms[j - 1], maxVal) else 0)
  }

  /** The distances of the bedroom pairs (i', k) with i' < k and i' < i, summed. */
  function BedroomSum(rooms: seq<Room>, maxVal: int, i: nat): nat
    requires i <= |rooms|
  {
    if i == 0 then 0
    else
      BedroomSum(rooms, maxVal, i - 1)
      + (if IsBedroom(rooms[i - 1]) then BedroomRow(rooms, maxVal, i - 1, |rooms|) else 0)
  }

  /** Two rooms: the sum is their distance when both are bedrooms, and 0 otherwise. */
  lemma TwoBedroomsSumToTheirDistance(a: Room, b: Room, maxVal: int)
    ensures BedroomSum([a, b], maxVal, 2) == if IsBedroom(a) && IsBedroom(b) then Dist(a, b, maxVal) else 0
  {
    var rooms := [a, b];
    assert BedroomRow(rooms, maxVal, 0, 1) == 0;
    assert BedroomRow(rooms, maxVal, 1, 2) == 0;
    assert BedroomSum(rooms, maxVal, 1) == if IsBedroom(a) then BedroomRow(rooms, maxVal, 0, 2) else 0;
  }

  /** Every bedroom pair i < j has a distance. */
  predicate BedroomDistancesDefined(rooms: seq<Room>, maxVal: int)
  {
    forall i, j :: 0 <= i < j < |rooms| && IsBedroom(rooms[i]) && IsBedroom(rooms[j]) ==>
      GetDistance(rooms[i], rooms[j], maxVal).Some?
  }

  lemma {:induction false} BedroomRowBound(rooms: seq<Room>, maxVal: int, i: nat, j: nat)
    requires maxVal >= 0 && i < |rooms| && j <= |rooms|
    ensures BedroomRow(rooms, maxVal, i, j) <= j * maxVal
    decreases j
  {
    if j <= i + 1 {
      MulMono(0, j, maxVal);
    } else {
      BedroomRowBound(rooms, maxVal, i, j - 1);
      StepBound(BedroomRow(rooms, maxVal, i, j - 1),
                if IsBedroom(rooms[j - 1]) then Dist(rooms[i], rooms[j - 1], maxVal) else 0,
                j - 1, maxVal);
    }
  }

  lemma {:induction false} BedroomSumBound(rooms: seq<Room>, maxVal: int, i: nat)
    requires maxVal >= 0 && i <= |rooms|
    ensures BedroomSum(rooms, maxVal, i) <= i * (|rooms| * maxVal)
    decreases i
  {
    if i > 0 {
      BedroomSumBound(rooms, maxVal, i - 1);
      BedroomRowBound(rooms, maxVal, i - 1, |rooms|);
      MulMono(0, |rooms|, maxVal);
      StepBound(BedroomSum(rooms, maxVal, i - 1),
                if IsBedroom(rooms[i - 1]) then BedroomRow(rooms, maxVal, i - 1, |rooms|) else 0,
                i - 1, |rooms| * maxVal);
    }
  }

  /**
   * Every running sum of getPairWiseDistanceBetWeenBedroom lies in the domain
   * [0, n * n * maxVal] of the variable that holds it.
   */
  lemma BedroomRunningSumFits(rooms: seq<Room>, maxVal: int, i: nat, j: nat)
    requires maxVal >= 0 && i < j < |rooms|
    ensures BedroomSum(rooms, maxVal, i) + BedroomRow(rooms, maxVal, i, j + 1) <= |rooms| * |rooms| * maxVal
  {
    BedroomSumBound(rooms, maxVal, i);
    BedroomRowBound(rooms, maxVal, i, j + 1);
    RowsBound(BedroomSum(rooms, maxVal, i), BedroomRow(rooms, maxVal, i, j + 1), i, j + 1, |rooms|, maxVal);
  }

  /** Arithmetic of the bound: i full rows and one partial row of n terms, each at most `m`. */
  lemma RowsBound(sum: int, row: int, i: nat, j: nat, n: nat, m: int)
    requires m >= 0 && i < n && j <= n
    requires sum <= i * (n * m) && row <= j * m
    ensures sum + row <= n * n * m
  {
    var x := n * m;
    MulMono(j, n, m);
    MulMono(i + 1, n, x);
    assert i * x + x == (i + 1) * x;
    assert n * x == n * n * m;
  }

  /**
   * getPairWiseDistanceBetWeenBedroom: the running sum over the bedroom pairs
   * i < j of getDistance(rooms[i], rooms[j]). It has a value exactly when
   * every such distance does: the domain of each running sum never binds.
   */
  method GetPairWiseDistanceBetweenBedroom(rooms: seq<Room>, maxVal: int) returns (sum: Option<int>)
    ensures sum.Some? <==> BedroomDistancesDefined(rooms, maxVal)
    ensures sum.Some? ==> sum.value == BedroomSum(rooms, maxVal, |rooms|)
  {
    var n := |rooms|;
    var sumVal := 0;
    for i := 0 to n
      invariant sumVal == BedroomSum(rooms, maxVal, i)
      invariant forall i', j :: 0 <= i' < i && i' < j < n && IsBedroom(rooms[i']) && IsBedroom(rooms[j]) ==>
        GetDistance(rooms[i'], rooms[j], maxVal).Some?
    {
      if IsBedroom(rooms[i]) {
        var r := AddBedroomRow(rooms, maxVal, i, sumVal);
        if r.None? {
          return None;
        }
        sumVal := r.value;
      }
    }
    return Some(sumVal);
  }

  /** The inner loop of getPairWiseDistanceBetWeenBedroom, for bedroom `rooms[i]`. */
  method AddBedroomRow(rooms: seq<Room>, maxVal: int, i: nat, sumVal: int) returns (r: Option<int>)
    requires i < |rooms| && sumVal == BedroomSum(rooms, maxVal, i)
    ensures r.Some? <==> forall j :: i < j < |rooms| && IsBedroom(rooms[j]) ==>
      GetDistance(rooms[i], rooms[j], maxVal).Some?
    ensures r.Some? ==> r.value == sumVal + BedroomRow(rooms, maxVal, i, |rooms|)
  {
    var n := |rooms|;
    var max2 := n * n * maxVal;
    var acc := sumVal;
    for j := i + 1 to n
      invariant acc == sumVal + BedroomRow(rooms, maxVal, i, j)
      invariant forall k :: i < k < j && IsBedroom(rooms[k]) ==> GetDistance(rooms[i], rooms[k], maxVal).Some?
    {
      if IsBedroom(rooms[j]) {
        var d := GetDistance(rooms[i], rooms[j], maxVal);
        if d.None? {
          return None;
        }
        var newSum := acc + d.value;
        BedroomRunningSumFits(rooms, maxVal, i, j);
        // newSum is a variable with domain [0, max2]; the bound never binds.
        assert 0 <= newSum <= max2;
        acc := newSum;
      }
    }
    return Some(acc);
  }

  /** With no two bedrooms there is no pair to sum. */
  lemma {:induction false} NoBedroomPairSumsToZero(rooms: seq<Room>, maxVal: int)
    requires forall i, j :: 0 <= i < j < |rooms| ==> !(IsBedroom(rooms[i]) && IsBedroom(rooms[j]))
    ensures BedroomSum(rooms, maxVal, |rooms|) == 0
  {
    BedroomSumZero(rooms, maxVal, |rooms|);
  }

  lemma {:induction false} BedroomSumZero(rooms: seq<Room>, maxVal: int, i: nat)
    requires i <= |rooms|
    requires forall i, j :: 0 <= i < j < |rooms| ==> !(IsBedroom(rooms[i]) && IsBedroom(rooms[j]))
    ensures BedroomSum(rooms, maxVal, i) == 0
    decreases i
  {
    if i > 0 {
      BedroomSumZero(rooms, maxVal, i - 1);
      if IsBedroom(rooms[i - 1]) {
        BedroomRowZero(rooms, maxVal, i - 1, |rooms|);
      }
    }
  }

  lemma {:induction false} BedroomRowZero(rooms: seq<Room>, maxVal: int, i: nat, j: nat)
    requires i < |rooms| && j <= |rooms| && IsBedroom(rooms[i])
    requires forall i, j :: 0 <= i < j < |rooms| ==> !(IsBedroom(rooms[i]) && IsBedroom(rooms[j]))
    ensures BedroomRow(rooms, maxVal, i, j) == 0
    decreases j
  {
    if j > i + 1 {
      BedroomRowZero(rooms, maxVal, i, j - 1);
    }
  }

  /** A distance to `r` with the factor of getPairWiseDistanceToBathRoom: doubled for a living room. */
  function Weighted(r: Room, d: nat): nat
  {
    if IsLivingRoom(r) then 2 * d else d
  }

  /**
   * The weighted distances from main bathroom `rooms[i]` to the rooms
   * `rooms[k]`, k < j, that are not main bathrooms, summed.
   */
  function BathRow(rooms: seq<Room>, maxVal: int, i: nat, j: nat): nat
    requires i < |rooms| && j <= |rooms|
  {
    if j == 0 then 0
    else
      BathRow(rooms, maxVal, i, j - 1)
      + (if IsMainBathroom(rooms[j - 1]) then 0 else Weighted(rooms[j - 1], Dist(rooms[i], rooms[j - 1], maxVal)))
  }

  /** The rows of the main bathrooms among the first i rooms, summed. */
  function BathSum(rooms: seq<Room>, maxVal: int, i: nat): nat
    requires i <= |rooms|
  {
    if i == 0 then 0
    else
      BathSum(rooms, maxVal, i - 1)
      + (if IsMainBathroom(rooms[i - 1]) then BathRow(rooms, maxVal, i - 1, |rooms|) else 0)
  }

  /** Every main bathroom has a distance to every room that is not a main bathroom. */
  predicate BathDistancesDefined(rooms: seq<Room>, maxVal: int)
  {
    forall i, j :: 0 <= i < |rooms| && 0 <= j < |rooms| && IsMainBathroom(rooms[i]) && !IsMainBathroom(rooms[j]) ==>
      GetDistance(rooms[i], rooms[j], maxVal).Some?
  }

  /** The number of main bathrooms among the first k rooms. */
  function CountMainBathrooms(rooms: seq<Room>, k: nat): (c: nat)
    requires k <= |rooms|
    ensures c <= k
  {
    if k == 0 then 0
    else CountMainBathrooms(rooms, k - 1) + (if IsMainBathroom(rooms[k - 1]) then 1 else 0)
  }

  lemma {:induction false} CountMainBathroomsMono(rooms: seq<Room>, k: nat, l: nat)
    requires k <= l <= |rooms|
    ensures CountMainBathrooms(rooms, k) <= CountMainBathrooms(rooms, l)
    ensures k - CountMainBathrooms(rooms, k) <= l - CountMainBathrooms(rooms, l)
    decreases l
  {
    if k < l {
      CountMainBathroomsMono(rooms, k, l - 1);
    }
  }

  lemma {:induction false} BathRowBound(rooms: seq<Room>, maxVal: int, i: nat, j: nat)
    requires maxVal >= 0 && i < |rooms| && j <= |rooms|
    ensures BathRow(rooms, maxVal, i, j) <= 2 * maxVal * (j - CountMainBathrooms(rooms, j))
    decreases j
  {
    if j > 0 {
      BathRowBound(rooms, maxVal, i, j - 1);
      assert Weighted(rooms[j - 1], Dist(rooms[i], rooms[j - 1], maxVal)) <= 2 * maxVal;
      var w := j - 1 - CountMainBathrooms(rooms, j - 1);
      assert 2 * maxVal * w + 2 * maxVal == 2 * maxVal * (w + 1);
    }
  }

  lemma {:induction false} BathSumBound(rooms: seq<Room>, maxVal: int, i: nat)
    requires maxVal >= 0 && i <= |rooms|
    ensures BathSum(rooms, maxVal, i)
            <= CountMainBathrooms(rooms, i) * (2 * maxVal * (|rooms| - CountMainBathrooms(rooms, |rooms|)))
    decreases i
  {
    if i > 0 {
      BathSumBound(rooms, maxVal, i - 1);
      BathRowBound(rooms, maxVal, i - 1, |rooms|);
      if !IsMainBathroom(rooms[i - 1]) {
        assert CountMainBathrooms(rooms, i) == CountMainBathrooms(rooms, i - 1);
        assert BathSum(rooms, maxVal, i) == BathSum(rooms, maxVal, i - 1);
      } else {
        StepBound(BathSum(rooms, maxVal, i - 1), BathRow(rooms, maxVal, i - 1, |rooms|),
                  CountMainBathrooms(rooms, i - 1), 2 * maxVal * (|rooms| - CountMainBathrooms(rooms, |rooms|)));
      }
    }
  }

  lemma StepBound(sum: int, row: int, c: int, r: int)
    requires sum <= c * r && row <= r
    ensures sum + row <= (c + 1) * r
  {
    assert (c + 1) * r == c * r + r;
  }

  /** With m of n rooms main bathrooms there are m * (n - m) pairs, and 2 * m * (n - m) <= n * n. */
  lemma PairCountBound(m: int, n: int)
    requires 0 <= m <= n
    ensures 2 * m * (n - m) <= n * n
  {
    assert n * n - 2 * m * (n - m) == (n - m) * (n - m) + m * m;
    MulMono(0, n - m, n - m);
    MulMono(0, m, m);
  }

  /**
   * Every running sum of getPairWiseDistanceToBathRoom lies in the domain
   * [0, n * n * maxVal] of the variable that holds it, even with the factor 2.
   */
  lemma BathRunningSumFits(rooms: seq<Room>, maxVal: int, i: nat, j: nat)
    requires maxVal >= 0 && i < |rooms| && j < |rooms|
    requires IsMainBathroom(rooms[i]) && !IsMainBathroom(rooms[j])
    ensures BathSum(rooms, maxVal, i) + BathRow(rooms, maxVal, i, j + 1) <= |rooms| * |rooms| * maxVal
  {
    var n := |rooms|;
    var m := CountMainBathrooms(rooms, n);
    var c := CountMainBathrooms(rooms, i);
    var w := j + 1 - CountMainBathrooms(rooms, j + 1);
    var sum := BathSum(rooms, maxVal, i);
    var row := BathRow(rooms, maxVal, i, j + 1);
    BathSumBound(rooms, maxVal, i);
    BathRowBound(rooms, maxVal, i, j + 1);
    CountMainBathroomsMono(rooms, j + 1, n);
    CountMainBathroomsMono(rooms, i + 1, n);
    assert CountMainBathrooms(rooms, i + 1) == c + 1;
    PairCountBound(m, n);
    PairsBound(sum, row, c, w, m, n, maxVal);
  }

  /**
   * Arithmetic of the bound: c < m full rows of weight at most r = 2 * maxVal * (n - m)
   * and one partial row of at most w <= n - m terms of weight 2 * maxVal.
   */
  lemma PairsBound(sum: int, row: int, c: nat, w: nat, m: nat, n: nat, maxVal: int)
    requires maxVal >= 0 && c < m <= n && w <= n - m
    requires 2 * m * (n - m) <= n * n
    requires sum <= c * (2 * maxVal * (n - m)) && row <= 2 * maxVal * w
    ensures sum + row <= n * n * maxVal
  {
    var r := 2 * maxVal * (n - m);
    MulMono(w, n - m, 2 * maxVal);
    assert 2 * maxVal * w <= r;
    MulMono(0, n - m, 2 * maxVal);
    MulMono(c + 1, m, r);
    assert c * r + r == (c + 1) * r;
    MulMono(2 * m * (n - m), n * n, maxVal);
    assert m * r == (2 * m * (n - m)) * maxVal;
    assert (n * n) * maxVal == n * n * maxVal;
  }

  /**
   * getPairWiseDistanceToBathRoom: the running sum, over every main bathroom
   * i and every room j that is not one, of factor * getDistance(rooms[i],
   * rooms[j]), the factor being 2 when rooms[j] is a living room. It has a
   * value exactly when every such distance does.
   */
  method GetPairWiseDistanceToBathroom(rooms: seq<Room>, maxVal: int) returns (sum: Option<int>)
    ensures sum.Some? <==> BathDistancesDefined(rooms, maxVal)
    ensures sum.Some? ==> sum.value == BathSum(rooms, maxVal, |rooms|)
  {
    var n := |rooms|;
    var sumVal := 0;
    for i := 0 to n
      invariant sumVal == BathSum(rooms, maxVal, i)
      invariant forall i', j :: 0 <= i' < i && 0 <= j < n && IsMainBathroom(rooms[i']) && !IsMainBathroom(rooms[j]) ==>
        GetDistance(rooms[i'], rooms[j], maxVal).Some?
    {
      if IsMainBathroom(rooms[i]) {
        var r := AddBathroomRow(rooms, maxVal, i, sumVal);
        if r.None? {
          return None;
        }
        sumVal := r.value;
      }
    }
    return Some(sumVal);
  }

  /** The inner loop of getPairWiseDistanceToBathRoom, for main bathroom `rooms[i]`. */
  method AddBathroomRow(rooms: seq<Room>, maxVal: int, i: nat, sumVal: int) returns (r: Option<int>)
    requires i < |rooms| && IsMainBathroom(rooms[i]) && sumVal == BathSum(rooms, maxVal, i)
    ensures r.Some? <==> forall j :: 0 <= j < |rooms| && !IsMainBathroom(rooms[j]) ==>
      GetDistance(rooms[i], rooms[j], maxVal).Some?
    ensures r.Some? ==> r.value == sumVal + BathRow(rooms, maxVal, i, |rooms|)
  {
    var n := |rooms|;
    var max2 := n * n * maxVal;
    var acc := sumVal;
    for j := 0 to n
      invariant acc == sumVal + BathRow(rooms, maxVal, i, j)
      invariant forall k :: 0 <= k < j && !IsMainBathroom(rooms[k]) ==> GetDistance(rooms[i], rooms[k], maxVal).Some?
    {
      if !IsMainBathroom(rooms[j]) {
        var factor := 1;
        if IsLivingRoom(rooms[j]) {
          factor := 2;
        }
        var d := GetDistance(rooms[i], rooms[j], maxVal);
        if d.None? {
          return None;
        }
        var newSum := acc + factor * d.value;
        FactorWeighs(factor, d.value, rooms[j]);
        BathRunningSumFits(rooms, maxVal, i, j);
        // newSum is a variable with domain [0, max2]; the bound never binds.
        assert 0 <= newSum <= max2;
        acc := newSum;
      }
    }
    return Some(acc);
  }

  lemma FactorWeighs(factor: int, d: nat, r: Room)
    requires factor == if IsLivingRoom(r) then 2 else 1
    ensures factor * d == Weighted(r, d)
  {
    if IsLivingRoom(r) {
      assert factor == 2;
    } else {
      assert factor == 1;
    }
  }

  /** Without a main bathroom nothing is summed. */
  lemma {:induction false} NoMainBathroomSumsToZero(rooms: seq<Room>, maxVal: int, i: nat)
    requires i <= |rooms|
    requires forall k :: 0 <= k < |rooms| ==> !IsMainBathroom(rooms[k])
    ensures BathSum(rooms, maxVal, i) == 0
    decreases i
  {
    if i > 0 {
      NoMainBathroomSumsToZero(rooms, maxVal, i - 1);
    }
  }

  /** A living room is never a main bathroom: the labels start with different letters. */
  lemma LivingRoomIsNoMainBathroom(r: Room)
    ensures IsLivingRoom(r) ==> !IsMainBathroom(r)
  {
    if IsLivingRoom(r) {
      assert "LR"[0] == 'L' && "LR_"[0] == 'L' && "MSB"[0] == 'M' && "MSB_"[0] == 'M';
      assert r.val[0] == 'L';
    }
  }

  /** A main bathroom and a living room: the living room's distance counts twice. */
  lemma LivingRoomCountsTwice(bath: Room, living: Room, maxVal: int)
    requires IsMainBathroom(bath) && IsLivingRoom(living)
    ensures BathSum([bath, living], maxVal, 2) == 2 * Dist(bath, living, maxVal)
  {
    LivingRoomIsNoMainBathroom(living);
    var rooms := [bath, living];
    assert BathRow(rooms, maxVal, 0, 1) == 0;
    assert BathSum(rooms, maxVal, 1) == BathRow(rooms, maxVal, 0, 2);
  }

  // ---------------------------------------------------------------------------
  // ensureEqualDistanceToElevator
  // ---------------------------------------------------------------------------

  /**
   * `AddMinEquality(curMinDist, [mxVar] + ds)` with `mxVar` fixed to maxVal
   * and `curMinDist` in [0, maxVal]: the minimum of maxVal and the values,
   * or None when a value is missing or the minimum leaves the domain.
   */
  function MinWithin(ds: seq<Option<int>>, maxVal: int): (d: Option<int>)
    ensures d.Some? <==> maxVal >= 0 && forall i :: 0 <= i < |ds| ==> ds[i].Some? && ds[i].value >= 0
    ensures d.Some? ==> 0 <= d.value <= maxVal && forall i :: 0 <= i < |ds| ==> d.value <= ds[i].value
    ensures d.Some? ==> d.value == maxVal || exists i :: 0 <= i < |ds| && d.value == ds[i].value
  {
    if |ds| == 0 then (if maxVal >= 0 then Some(maxVal) else None)
    else
      var init := ds[..|ds| - 1];
      var rest := MinWithin(init, maxVal);
      assert forall i :: 0 <= i < |init| ==> init[i] == ds[i];
      match ds[|ds| - 1]
      case None => None
      case Some(x) =>
        if x < 0 || rest.None? then None
        else if x < rest.value then Some(x)
        else rest
  }

  /** `getDistance(room, elevatorRoom)` for every room of the apartment. */
  function ElevatorDistances(apt: seq<Room>, elevator: Room, maxVal: int): (ds: seq<Option<int>>)
    ensures |ds| == |apt| && forall i :: 0 <= i < |apt| ==> ds[i] == GetDistance(apt[i], elevator, maxVal)
  {
    seq(|apt|, i requires 0 <= i < |apt| => GetDistance(apt[i], elevator, maxVal))
  }

  /** `curMinDist` of one apartment. */
  function ApartmentMin(apt: seq<Room>, elevator: Room, maxVal: int): Option<int>
  {
    MinWithin(ElevatorDistances(apt, elevator, maxVal), maxVal)
  }

  /**
   * The minimum distance to the elevator of one apartment has a value
   * exactly when maxVal >= 0 and every room's distance has one; it is
   * then at most every room's distance, and it is maxVal or one of them.
   */
  lemma ApartmentMinMeaning(apt: seq<Room>, elevator: Room, maxVal: int)
    ensures var d := ApartmentMin(apt, elevator, maxVal);
            && (d.Some? <==> maxVal >= 0 && forall i :: 0 <= i < |apt| ==> GetDistance(apt[i], elevator, maxVal).Some?)
            && (d.Some? ==> forall i :: 0 <= i < |apt| ==> d.value <= GetDistance(apt[i], elevator, maxVal).value)
            && (d.Some? ==> d.value == maxVal || exists i :: 0 <= i < |apt| && d.value == GetDistance(apt[i], elevator, maxVal).value)
  {
    var ds := ElevatorDistances(apt, elevator, maxVal);
    assert forall i :: 0 <= i < |apt| && ds[i].Some? ==> ds[i].value >= 0;
  }

  /** Every apartment's minimum distance to the elevator has a value, and they are all equal. */
  predicate EqualElevatorDistance(apts: seq<seq<Room>>, elevator: Room, maxVal: int)
  {
    forall a :: 0 <= a < |apts| ==>
      ApartmentMin(apts[a], elevator, maxVal).Some? && ApartmentMin(apts[a], elevator, maxVal) == ApartmentMin(apts[0], elevator, maxVal)
  }

  /**
   * ensureEqualDistanceToElevator: the first apartment's minimum is kept
   * in `last` and every later one must equal it.
   */
  method EnsureEqualDistanceToElevator(apts: seq<seq<Room>>, elevator: Room, maxVal: int) returns (ok: bool)
    ensures ok <==> EqualElevatorDistance(apts, elevator, maxVal)
  {
    var last: Option<int> := None;
    ok := true;
    for ap := 0 to |apts|
      invariant ap > 0 ==> last == ApartmentMin(apts[0], elevator, maxVal)
      invariant ok <==> forall a :: 0 <= a < ap ==>
        ApartmentMin(apts[a], elevator, maxVal).Some? && ApartmentMin(apts[a], elevator, maxVal) == ApartmentMin(apts[0], elevator, maxVal)
    {
      var curMinDist := ApartmentMin(apts[ap], elevator, maxVal);
      ok := ok && curMinDist.Some?;
      if ap == 0 {
        last := curMinDist;
      } else {
        ok := ok && last == curMinDist;
      }
    }
  }

  /**
   * Under the rule no room of any apartment is closer to the elevator than
   * another apartment's minimum distance.
   */
  lemma NoRoomCloserThanAnyMinimum(apts: seq<seq<Room>>, elevator: Room, maxVal: int, a: int, b: int, j: int)
    requires EqualElevatorDistance(apts, elevator, maxVal)
    requires 0 <= a < |apts| && 0 <= b < |apts| && 0 <= j < |apts[b]|
    ensures GetDistance(apts[b][j], elevator, maxVal).Some?
    ensures ApartmentMin(apts[a], elevator, maxVal).value <= GetDistance(apts[b][j], elevator, maxVal).value
  {
    ApartmentMinMeaning(apts[b], elevator, maxVal);
  }
}
