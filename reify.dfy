/**
 * The reification helpers of genericUtility.py. Each helper creates one fresh
 * solver boolean `b` and adds a clause enforced when `b` holds and a clause
 * enforced when `b` does not hold. Evaluated on one assignment, the helper is
 * the value of `b` that satisfies both clauses; the contracts below show that
 * exactly one value does, and what it means.
 */
module Reify {
  import opened Common

  /** Truth of the solver clause `AddBoolAnd(xs)` under an assignment. */
  function BoolAnd(xs: seq<bool>): (b: bool)
    ensures b <==> forall i :: 0 <= i < |xs| ==> xs[i]
  {
    if |xs| == 0 then true else xs[0] && BoolAnd(xs[1..])
  }

  /** Truth of the solver clause `AddBoolOr(xs)` under an assignment. */
  function BoolOr(xs: seq<bool>): (b: bool)
    ensures b <==> exists i :: 0 <= i < |xs| && xs[i]
  {
    if |xs| == 0 then false else xs[0] || BoolOr(xs[1..])
  }

  /** The literals `var.Not()` for every `var` in `xs`. */
  function Negate(xs: seq<bool>): (r: seq<bool>)
    ensures |r| == |xs| && forall i :: 0 <= i < |xs| ==> r[i] == !xs[i]
  {
    seq(|xs|, i requires 0 <= i < |xs| => !xs[i])
  }

  /**
   * `b` satisfies the clause it enforces (`whenTrue`, required if `b` holds)
   * and the one its negation enforces (`whenFalse`, required if `b` fails).
   */
  predicate Reified(b: bool, whenTrue: bool, whenFalse: bool)
  {
    (b ==> whenTrue) && (!b ==> whenFalse)
  }

  /** isAnd: `b` is true exactly when every literal is true (true on no literals). */
  function IsAnd(xs: seq<bool>): (b: bool)
    ensures Reified(b, BoolAnd(xs), BoolOr(Negate(xs)))
    ensures forall c :: Reified(c, BoolAnd(xs), BoolOr(Negate(xs))) ==> c == b
    ensures b <==> forall i :: 0 <= i < |xs| ==> xs[i]
    ensures |xs| == 0 ==> b
  {
    BoolAnd(xs)
  }

  /** isOr: `b` is true exactly when some literal is true (false on no literals). */
  function IsOr(xs: seq<bool>): (b: bool)
    ensures Reified(b, BoolOr(xs), BoolAnd(Negate(xs)))
    ensures forall c :: Reified(c, BoolOr(xs), BoolAnd(Negate(xs))) ==> c == b
    ensures b <==> exists i :: 0 <= i < |xs| && xs[i]
    ensures |xs| == 0 ==> !b
  {
    BoolOr(xs)
  }

  /** isAnd on two literals. */
  lemma IsAndPair(x: bool, y: bool)
    ensures IsAnd([x, y]) <==> x && y
  {
    var xs := [x, y];
    assert xs[0] == x && xs[1] == y;
    if x && y {
      assert forall i :: 0 <= i < |xs| ==> xs[i] by {
        forall i | 0 <= i < |xs| ensures xs[i] {
          assert i == 0 || i == 1;
        }
      }
    }
  }

  /** isOr on two literals. */
  lemma IsOrPair(x: bool, y: bool)
    ensures IsOr([x, y]) <==> x || y
  {
    assert [x, y][0] == x && [x, y][1] == y;
  }

  /** isOr and isAnd use the same two clause shapes with the polarity swapped. */
  lemma OrIsDualOfAnd(xs: seq<bool>)
    ensures IsOr(xs) == !IsAnd(Negate(xs))
  {
  }

  /**
   * isBetween: two reified bounds joined by isAnd; true exactly when
   * `lo <= v <= hi`, so always false when the bounds are crossed.
   */
  function IsBetween(v: int, lo: int, hi: int): (b: bool)
    ensures b <==> lo <= v <= hi
    ensures lo > hi ==> !b
  {
    var lowerBool := lo <= v;
    var upperBool := hi >= v;
    var bounds := [lowerBool, upperBool];
    assert (forall i :: 0 <= i < |bounds| ==> bounds[i]) <==> bounds[0] && bounds[1];
    IsAnd(bounds)
  }

  /** A clause and its negation pin the reified boolean to the clause's truth. */
  lemma ReifiedIsExact(b: bool, cond: bool)
    ensures Reified(b, cond, !cond) <==> b == cond
  {
  }

  /** isEqual: the boolean the two clauses `a == b` / `a != b` pin down. */
  function IsEqual(a: int, b: int): (e: bool)
    ensures Reified(e, a == b, a != b)
    ensures Reified(true, a == b, a != b) ==> e
    ensures Reified(false, a == b, a != b) ==> !e
    ensures e <==> a == b
  {
    a == b
  }

  /** The number of true literals. */
  function CountTrue(bs: seq<bool>): (c: nat)
    ensures c == multiset(bs)[true]
    ensures c <= |bs|
  {
    if |bs| == 0 then 0
    else
      assert bs == [bs[0]] + bs[1..];
      (if bs[0] then 1 else 0) + CountTrue(bs[1..])
  }

  /**
   * getSum: an integer variable with domain [0, maxVal] constrained to the sum
   * of the literals. None when no value of that domain fits, which makes the
   * whole model infeasible.
   */
  function GetSum(bs: seq<bool>, maxVal: int): (r: Option<nat>)
    ensures r.Some? <==> multiset(bs)[true] <= maxVal
    ensures r.Some? ==> r.value == multiset(bs)[true]
  {
    var total := CountTrue(bs);
    if 0 <= total <= maxVal then Some(total) else None
  }
}
