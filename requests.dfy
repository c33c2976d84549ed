/**
 * Cylinder requests as the three schedulers see them: the head's direction,
 * the comparator the sort uses, and the head-movement sum every scheduler
 * reports (one loop, shared by FCFS, SCAN and C-SCAN).
 */
module Requests {

  /** The head's direction of travel. The source keeps it as the string "LEFT" or "RIGHT". */
  datatype Direction = Left | Right

  /** Highest cylinder number the command line accepts for the initial position. */
  const MaxCylinder: int := 299

  predicate IsCylinder(c: int) {
    0 <= c <= MaxCylinder
  }

  function Abs(x: int): nat {
    if x < 0 then -x else x
  }

  /**
   * The comparator handed to the sort: `x - y`, so its sign orders x before,
   * level with or after y. C's overflow of the subtraction is not modelled.
   */
  function Compare(x: int, y: int): (r: int)
    ensures r < 0 <==> x < y
    ensures r == 0 <==> x == y
    ensures r > 0 <==> x > y
  {
    x - y
  }

  predicate Sorted(s: seq<int>) {
    forall i, j :: 0 <= i < j < |s| ==> s[i] <= s[j]
  }

  predicate NonIncreasing(s: seq<int>) {
    forall i, j :: 0 <= i < j < |s| ==> s[i] >= s[j]
  }

  /** Where the head rests after serving `order`, having started at `from`. */
  function Final(from: int, order: seq<int>): int {
    if |order| == 0 then from else order[|order| - 1]
  }

  /**
   * Total head movement of serving `order` from `from`: the sum of the
   * absolute differences between successive head positions, the first
   * "previous" position being `from`.
   */
  function Movement(from: int, order: seq<int>): (r: int)
    ensures r >= 0
    decreases |order|
  {
    if |order| == 0 then 0 else Abs(from - order[0]) + Movement(order[0], order[1..])
  }

  /** Serving `x` then `y` costs the cost of `x` plus that of `y` from where `x` left the head. */
  lemma {:induction false} MovementAppend(from: int, x: seq<int>, y: seq<int>)
    ensures Movement(from, x + y) == Movement(from, x) + Movement(Final(from, x), y)
    decreases |x|
  {
    if |x| == 0 {
      assert x + y == y;
    } else {
      assert (x + y)[1..] == x[1..] + y;
      MovementAppend(x[0], x[1..], y);
      assert Final(x[0], x[1..]) == Final(from, x);
    }
  }

  /** The head does not move at all exactly when every request served sits at its start position. */
  lemma {:induction false} MovementZero(from: int, order: seq<int>)
    ensures Movement(from, order) == 0 <==> forall k :: 0 <= k < |order| ==> order[k] == from
    decreases |order|
  {
    if |order| > 0 {
      MovementZero(order[0], order[1..]);
      if Movement(from, order) == 0 {
        assert order[0] == from;
        forall k | 0 <= k < |order| ensures order[k] == from {
          if k > 0 { assert order[1..][k - 1] == order[k]; }
        }
      }
    }
  }

  /** Serving an ascending run costs the approach to its first element plus its span. */
  lemma {:induction false} MovementAscending(from: int, t: seq<int>)
    requires |t| > 0 && Sorted(t)
    ensures Movement(from, t) == Abs(from - t[0]) + t[|t| - 1] - t[0]
    decreases |t|
  {
    if |t| > 1 {
      MovementAscending(t[0], t[1..]);
    }
  }

  /** Serving a descending run costs the approach to its first element plus its span. */
  lemma {:induction false} MovementDescending(from: int, t: seq<int>)
    requires |t| > 0 && NonIncreasing(t)
    ensures Movement(from, t) == Abs(from - t[0]) + t[0] - t[|t| - 1]
    decreases |t|
  {
    if |t| > 1 {
      MovementDescending(t[0], t[1..]);
    }
  }

  /**
   * The head-movement loop of every scheduler: the head starts at
   * `position` and is moved to each served cylinder in turn.
   */
  method TotalMovement(position: int, served: seq<int>) returns (total: int)
    ensures total == Movement(position, served)
  {
    total := 0;
    var thisPosition := position;
    for i := 0 to |served|
      invariant total == Movement(position, served[..i])
      invariant thisPosition == Final(position, served[..i])
    {
      assert served[..i + 1] == served[..i] + [served[i]];
      MovementAppend(position, served[..i], [served[i]]);
      total := total + Abs(thisPosition - served[i]);
      thisPosition := served[i];
    }
    assert served[..|served|] == served;
  }
}
