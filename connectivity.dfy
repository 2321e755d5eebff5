/**
 * enforceComponencyConstraint (constraints.py): the adjacency matrix of the
 * rooms, closed under paths by Warshall's triple loop over a matrix of
 * reified booleans, and required true everywhere. Evaluated on one layout it
 * holds exactly when every room reaches every room along isAdjacent edges.
 */
module Connectivity {
  import opened Common
  import opened Reify
  import opened Rooms

  /** Every row is as long as the matrix is high. */
  predicate Square(m: seq<seq<bool>>)
  {
    forall i :: 0 <= i < |m| ==> |m[i]| == |m|
  }

  /** The initial `path` matrix: entry (x, y) is isAdjacent(x, y, rooms[x], rooms[y]). */
  function AdjacencyMatrix(rooms: seq<Room>): (m: seq<seq<bool>>)
    ensures |m| == |rooms| && Square(m)
    ensures forall x, y :: 0 <= x < |rooms| && 0 <= y < |rooms| ==>
              m[x][y] == IsAdjacent(x, y, rooms[x], rooms[y])
  {
    seq(|rooms|, x requires 0 <= x < |rooms| =>
      seq(|rooms|, y requires 0 <= y < |rooms| => IsAdjacent(x, y, rooms[x], rooms[y])))
  }

  /** A walk of at least one edge along entries of `m` that are true. */
  predicate IsPath(m: seq<seq<bool>>, w: seq<int>)
    requires Square(m)
  {
    && |w| >= 2
    && (forall i :: 0 <= i < |w| ==> 0 <= w[i] < |m|)
    && (forall i :: 0 <= i < |w| - 1 ==> m[w[i]][w[i + 1]])
  }

  /** `v` can be reached from `u` by a walk of at least one edge. */
  ghost predicate Reachable(m: seq<seq<bool>>, u: int, v: int)
    requires Square(m)
  {
    exists w :: IsPath(m, w) && w[0] == u && w[|w| - 1] == v
  }

  /** A walk from `u` to `v` whose intermediate vertices are all below `k`. */
  predicate WalkBelow(m: seq<seq<bool>>, w: seq<int>, u: int, v: int, k: int)
    requires Square(m)
  {
    && IsPath(m, w) && w[0] == u && w[|w| - 1] == v
    && forall i :: 0 < i < |w| - 1 ==> w[i] < k
  }

  /**
   * The value of `path[u][v]` after the first `k` rounds of the triple loop:
   * round `k` sets it to `path[u][v] or (path[u][k] and path[k][v])`.
   */
  function ReachK(m: seq<seq<bool>>, k: nat, u: nat, v: nat): bool
    requires Square(m) && k <= |m| && u < |m| && v < |m|
    decreases k
  {
    if k == 0 then m[u][v]
    else ReachK(m, k - 1, u, v) || (ReachK(m, k - 1, u, k - 1) && ReachK(m, k - 1, k - 1, v))
  }

  /**
   * Round `k` leaves row `k` and column `k` as they were, so updating the
   * matrix in place reads the same values as a fresh copy would.
   */
  lemma RoundKeepsPivot(m: seq<seq<bool>>, k: nat, u: nat, v: nat)
    requires Square(m) && k < |m| && u < |m| && v < |m|
    ensures ReachK(m, k + 1, u, k) == ReachK(m, k, u, k)
    ensures ReachK(m, k + 1, k, v) == ReachK(m, k, k, v)
  {
  }

  /** An entry that is true after `k` rounds stays true in every later round. */
  lemma {:induction false} ReachKGrows(m: seq<seq<bool>>, k: nat, l: nat, u: nat, v: nat)
    requires Square(m) && k <= l <= |m| && u < |m| && v < |m|
    requires ReachK(m, k, u, v)
    ensures ReachK(m, l, u, v)
    decreases l
  {
    if k < l {
      ReachKGrows(m, k, l - 1, u, v);
    }
  }

  /** isAdjacent of a room with itself is true, so the diagonal is true after every round. */
  lemma DiagonalStaysTrue(rooms: seq<Room>, k: nat, u: nat)
    requires k <= |rooms| && u < |rooms|
    ensures ReachK(AdjacencyMatrix(rooms), k, u, u)
  {
    ReachKGrows(AdjacencyMatrix(rooms), 0, k, u, u);
  }

  /** After `k` rounds an entry is true only if a walk through vertices below `k` exists. */
  lemma {:induction false} ReachKHasWalk(m: seq<seq<bool>>, k: nat, u: nat, v: nat)
    requires Square(m) && k <= |m| && u < |m| && v < |m|
    requires ReachK(m, k, u, v)
    ensures exists w :: WalkBelow(m, w, u, v, k)
    decreases k
  {
    if k == 0 {
      assert WalkBelow(m, [u, v], u, v, k);
    } else if ReachK(m, k - 1, u, v) {
      ReachKHasWalk(m, k - 1, u, v);
      var w :| WalkBelow(m, w, u, v, k - 1);
      assert WalkBelow(m, w, u, v, k);
    } else {
      ReachKHasWalk(m, k - 1, u, k - 1);
      ReachKHasWalk(m, k - 1, k - 1, v);
      var w1 :| WalkBelow(m, w1, u, k - 1, k - 1);
      var w2 :| WalkBelow(m, w2, k - 1, v, k - 1);
      var w := w1 + w2[1..];
      assert |w| == |w1| + |w2| - 1;
      forall i | 0 <= i < |w|
        ensures 0 <= w[i] < |m|
        ensures 0 < i < |w| - 1 ==> w[i] < k
      {
        if i >= |w1| {
          assert w[i] == w2[i - |w1| + 1];
        }
      }
      forall i | 0 <= i < |w| - 1
        ensures m[w[i]][w[i + 1]]
      {
        if i < |w1| - 1 {
          assert w[i] == w1[i] && w[i + 1] == w1[i + 1];
        } else if i == |w1| - 1 {
          assert w[i] == w2[0] && w[i + 1] == w2[1];
        } else {
          assert w[i] == w2[i - |w1| + 1] && w[i + 1] == w2[i - |w1| + 2];
        }
      }
      assert WalkBelow(m, w, u, v, k);
    }
  }

  /**
   * A walk through vertices below `k` makes the entry true after `k` rounds:
   * split the walk at the first visit of `k - 1`; the head avoids `k - 1`
   * and the tail is shorter.
   */
  lemma {:induction false} WalkGivesReachK(m: seq<seq<bool>>, k: nat, w: seq<int>)
    requires Square(m) && k <= |m| && |w| >= 2
    requires WalkBelow(m, w, w[0], w[|w| - 1], k)
    ensures ReachK(m, k, w[0], w[|w| - 1])
    decreases k, |w|
  {
    var u, v := w[0], w[|w| - 1];
    if k == 0 {
      assert 0 <= w[1];
    } else {
      match IndexOf(w[1..|w| - 1], k - 1)
      case None =>
        AvoidsPivot(m, k, w);
        WalkGivesReachK(m, k - 1, w);
      case Some(j) =>
        SplitAtPivot(m, k, w, j);
        WalkGivesReachK(m, k - 1, w[..j + 2]);
        WalkGivesReachK(m, k, w[j + 1..]);
        RoundKeepsPivot(m, k - 1, u, v);
    }
  }

  /** A walk below `k` that never passes through `k - 1` is a walk below `k - 1`. */
  lemma AvoidsPivot(m: seq<seq<bool>>, k: nat, w: seq<int>)
    requires Square(m) && k >= 1 && |w| >= 2
    requires WalkBelow(m, w, w[0], w[|w| - 1], k)
    requires k - 1 !in w[1..|w| - 1]
    ensures WalkBelow(m, w, w[0], w[|w| - 1], k - 1)
  {
    var inner := w[1..|w| - 1];
    forall i | 0 < i < |w| - 1
      ensures w[i] < k - 1
    {
      assert w[i] == inner[i - 1];
    }
  }

  /**
   * Splitting a walk below `k` at its first inner visit of `k - 1` gives a
   * head below `k - 1` that ends there and a shorter tail below `k` that
   * starts there.
   */
  lemma SplitAtPivot(m: seq<seq<bool>>, k: nat, w: seq<int>, j: nat)
    requires Square(m) && k >= 1 && |w| >= 2
    requires WalkBelow(m, w, w[0], w[|w| - 1], k)
    requires IndexOf(w[1..|w| - 1], k - 1) == Some(j)
    ensures j + 2 < |w|
    ensures WalkBelow(m, w[..j + 2], w[0], k - 1, k - 1)
    ensures WalkBelow(m, w[j + 1..], k - 1, w[|w| - 1], k)
  {
    HeadBelowPivot(m, k, w, j);
    TailFromPivot(m, k, w, j + 1);
  }

  lemma HeadBelowPivot(m: seq<seq<bool>>, k: nat, w: seq<int>, j: nat)
    requires Square(m) && k >= 1 && |w| >= 2
    requires WalkBelow(m, w, w[0], w[|w| - 1], k)
    requires IndexOf(w[1..|w| - 1], k - 1) == Some(j)
    ensures j + 2 < |w|
    ensures WalkBelow(m, w[..j + 2], w[0], k - 1, k - 1)
  {
    var inner := w[1..|w| - 1];
    var head := w[..j + 2];
    assert head[j + 1] == inner[j] == k - 1;
    forall p | 0 < p < |head| - 1
      ensures head[p] < k - 1
    {
      assert head[p] == inner[p - 1];
      assert inner[p - 1] in inner[..j];
    }
    forall p | 0 <= p < |head| - 1
      ensures m[head[p]][head[p + 1]]
    {
      assert head[p] == w[p] && head[p + 1] == w[p + 1];
    }
  }

  lemma TailFromPivot(m: seq<seq<bool>>, k: nat, w: seq<int>, i: nat)
    requires Square(m) && |w| >= 2 && 0 < i < |w| - 1 && w[i] == k - 1
    requires WalkBelow(m, w, w[0], w[|w| - 1], k)
    ensures WalkBelow(m, w[i..], k - 1, w[|w| - 1], k)
  {
    var tail := w[i..];
    forall p | 0 <= p < |tail| - 1
      ensures m[tail[p]][tail[p + 1]]
    {
      assert tail[p] == w[i + p] && tail[p + 1] == w[i + p + 1];
    }
    forall p | 0 < p < |tail| - 1
      ensures tail[p] < k
    {
      assert tail[p] == w[i + p];
    }
  }

  /** After all rounds, an entry is true exactly when its target is reachable. */
  lemma ClosureIsReachability(m: seq<seq<bool>>, u: nat, v: nat)
    requires Square(m) && u < |m| && v < |m|
    ensures ReachK(m, |m|, u, v) <==> Reachable(m, u, v)
  {
    if ReachK(m, |m|, u, v) {
      ReachKHasWalk(m, |m|, u, v);
    }
    if Reachable(m, u, v) {
      var w :| IsPath(m, w) && w[0] == u && w[|w| - 1] == v;
      assert WalkBelow(m, w, u, v, |m|);
      WalkGivesReachK(m, |m|, w);
    }
  }

  /**
   * The first loop of enforceComponencyConstraint: a fresh n-by-n matrix
   * whose entry (x, y) is the isAdjacent literal of rooms x and y, copied
   * row by row from the adjacency matrix.
   */
  method FillPath(m: seq<seq<bool>>) returns (path: array2<bool>)
    requires Square(m)
    ensures fresh(path) && path.Length0 == |m| && path.Length1 == |m|
    ensures forall i, j :: 0 <= i < |m| && 0 <= j < |m| ==> path[i, j] == m[i][j]
  {
    var n := |m|;
    path := new bool[n, n];
    for x := 0 to n
      invariant forall i, j :: 0 <= i < x && 0 <= j < n ==> path[i, j] == m[i][j]
    {
      FillRow(path, m, x);
    }
  }

  /** Row `x` of the initial matrix. */
  method FillRow(path: array2<bool>, m: seq<seq<bool>>, x: nat)
    requires Square(m) && path.Length0 == |m| && path.Length1 == |m| && x < |m|
    modifies path
    ensures forall i, j :: 0 <= i < |m| && 0 <= j < |m| && i != x ==> path[i, j] == old(path[i, j])
    ensures forall j :: 0 <= j < |m| ==> path[x, j] == m[x][j]
  {
    for y := 0 to |m|
      invariant forall i, j :: 0 <= i < |m| && 0 <= j < |m| && i != x ==> path[i, j] == old(path[i, j])
      invariant forall j :: 0 <= j < y ==> path[x, j] == m[x][j]
    {
      path[x, y] := m[x][y];
    }
  }

  /**
   * Row `u` of round `k`: `b` reifies `path[u][k] and path[k][v]`, `b2`
   * reifies `b or path[u][v]`, and `b2` replaces `path[u][v]`.
   */
  method RelaxRow(path: array2<bool>, ghost m: seq<seq<bool>>, k: nat, u: nat)
    requires Square(m) && path.Length0 == |m| && path.Length1 == |m| && k < |m| && u < |m|
    requires forall i, j :: 0 <= i < |m| && 0 <= j < |m| ==>
               path[i, j] == if i < u then ReachK(m, k + 1, i, j) else ReachK(m, k, i, j)
    modifies path
    ensures forall i, j :: 0 <= i < |m| && 0 <= j < |m| ==>
              path[i, j] == if i <= u then ReachK(m, k + 1, i, j) else ReachK(m, k, i, j)
  {
    for v := 0 to path.Length1
      invariant forall i, j :: 0 <= i < |m| && 0 <= j < |m| ==>
                  path[i, j] == if i < u || (i == u && j < v) then ReachK(m, k + 1, i, j)
                                else ReachK(m, k, i, j)
    {
      RoundKeepsPivot(m, k, u, v);
      IsAndPair(path[u, k], path[k, v]);
      var b := IsAnd([path[u, k], path[k, v]]);
      IsOrPair(b, path[u, v]);
      var b2 := IsOr([b, path[u, v]]);
      path[u, v] := b2;
    }
  }

  /** Round `k` of the triple loop turns the `k`-round matrix into the `k + 1`-round one. */
  method CloseRound(path: array2<bool>, ghost m: seq<seq<bool>>, k: nat)
    requires Square(m) && path.Length0 == |m| && path.Length1 == |m| && k < |m|
    requires forall i, j :: 0 <= i < |m| && 0 <= j < |m| ==> path[i, j] == ReachK(m, k, i, j)
    modifies path
    ensures forall i, j :: 0 <= i < |m| && 0 <= j < |m| ==> path[i, j] == ReachK(m, k + 1, i, j)
  {
    for u := 0 to path.Length0
      invariant forall i, j :: 0 <= i < |m| && 0 <= j < |m| ==>
                  path[i, j] == if i < u then ReachK(m, k + 1, i, j) else ReachK(m, k, i, j)
    {
      RelaxRow(path, m, k, u);
    }
  }

  /** `AddBoolAnd(final)`: every entry of the matrix holds. */
  method AllEntries(path: array2<bool>) returns (ok: bool)
    ensures ok <==> forall i, j :: 0 <= i < path.Length0 && 0 <= j < path.Length1 ==> path[i, j]
  {
    ok := true;
    for u := 0 to path.Length0
      invariant ok <==> forall i, j :: 0 <= i < u && 0 <= j < path.Length1 ==> path[i, j]
    {
      for v := 0 to path.Length1
        invariant ok <==> (forall i, j :: 0 <= i < u && 0 <= j < path.Length1 ==> path[i, j])
                          && forall j :: 0 <= j < v ==> path[u, j]
      {
        ok := ok && path[u, v];
      }
    }
  }

  /**
   * enforceComponencyConstraint evaluated on the layout: fill `path` with
   * isAdjacent, run the triple loop, and require every final entry. True
   * exactly when every room reaches every room (itself included) along
   * isAdjacent edges.
   */
  method EnforceComponencyConstraint(rooms: seq<Room>) returns (ok: bool)
    ensures ok <==> forall u, v :: 0 <= u < |rooms| && 0 <= v < |rooms| ==>
                      Reachable(AdjacencyMatrix(rooms), u, v)
  {
    var m := AdjacencyMatrix(rooms);
    var path := FillPath(m);
    for k := 0 to path.Length0
      invariant forall i, j :: 0 <= i < |m| && 0 <= j < |m| ==> path[i, j] == ReachK(m, k, i, j)
    {
      CloseRound(path, m, k);
    }
    ok := AllEntries(path);
    forall u, v | 0 <= u < |m| && 0 <= v < |m|
      ensures ReachK(m, |m|, u, v) <==> Reachable(m, u, v)
    {
      ClosureIsReachability(m, u, v);
    }
  }

  /** The first step of a walk that leaves its start vertex. */
  function FirstExit(w: seq<int>, u: int): (i: nat)
    requires |w| >= 2 && w[0] == u && w[|w| - 1] != u
    ensures i < |w| - 1 && w[i] == u && w[i + 1] != u
    decreases |w|
  {
    if w[1] != u then 0 else 1 + FirstExit(w[1..], u)
  }

  /**
   * In a connected layout of well-formed, pairwise disjoint rooms, a room
   * that reaches another one shares a side with some other room.
   */
  lemma ConnectedRoomTouchesAnother(rooms: seq<Room>, u: int, v: int)
    requires 0 <= u < |rooms| && 0 <= v < |rooms| && u != v
    requires Reachable(AdjacencyMatrix(rooms), u, v)
    requires forall i :: 0 <= i < |rooms| ==> WellFormed(rooms[i])
    requires forall i, j :: 0 <= i < |rooms| && 0 <= j < |rooms| && i != j ==> !Overlap(rooms[i], rooms[j])
    ensures exists x :: 0 <= x < |rooms| && x != u && EdgeContact(rooms[u], rooms[x]) && SharesEdge(rooms[u], rooms[x])
  {
    var m := AdjacencyMatrix(rooms);
    var w :| IsPath(m, w) && w[0] == u && w[|w| - 1] == v;
    var i := FirstExit(w, u);
    var x := w[i + 1];
    assert m[u][x];
    AdjacentRoomsShareEdge(u, x, rooms[u], rooms[x]);
  }

  /** A single room is connected: its own entry is true before any round. */
  lemma SingleRoomIsConnected(r: Room)
    ensures Reachable(AdjacencyMatrix([r]), 0, 0)
  {
    var m := AdjacencyMatrix([r]);
    assert IsPath(m, [0, 0]);
  }
}
