/**
 * The traversal loops of SCAN and C-SCAN. Each walks a cursor over the
 * sorted requests from the start index, one served request per iteration,
 * and writes the request under the cursor into a result array of the same
 * length. `ScanOrder` and `CScanOrder` give the order each walk produces,
 * as a shape over the sorted requests; the lemmas say that order is a
 * permutation of the requests, which way it runs, and what it costs.
 */
module Sweeps {
  import opened Requests

  function Reverse(s: seq<int>): (r: seq<int>)
    ensures |r| == |s|
    ensures forall k :: 0 <= k < |s| ==> r[k] == s[|s| - 1 - k]
  {
    if |s| == 0 then [] else [s[|s| - 1]] + Reverse(s[..|s| - 1])
  }

  /** Reversing keeps every request, each as often as before. */
  lemma {:induction false} ReverseMultiset(s: seq<int>)
    ensures multiset(Reverse(s)) == multiset(s)
    decreases |s|
  {
    if |s| > 0 {
      assert s == s[..|s| - 1] + [s[|s| - 1]];
      ReverseMultiset(s[..|s| - 1]);
    }
  }

  /**
   * SCAN from start index s over the sorted requests t: moving RIGHT, t[s]
   * up to the last request and then t[s-1] down to t[0]; moving LEFT, t[s]
   * down to t[0] and then t[s+1] up to the last request.
   */
  function ScanOrder(t: seq<int>, s: nat, direction: Direction): seq<int>
    requires s < |t|
  {
    match direction
    case Right => t[s..] + Reverse(t[..s])
    case Left => Reverse(t[..s + 1]) + t[s + 1..]
  }

  /**
   * C-SCAN from start index s over the sorted requests t: moving RIGHT, t[s]
   * up to the last request and then, after wrapping, t[0] up to t[s-1];
   * moving LEFT, t[s] down to t[0] and then, after wrapping, the last
   * request down to t[s+1].
   */
  function CScanOrder(t: seq<int>, s: nat, direction: Direction): seq<int>
    requires s < |t|
  {
    match direction
    case Right => t[s..] + t[..s]
    case Left => Reverse(t[..s + 1]) + Reverse(t[s + 1..])
  }

  /** Cursor of the SCAN walk over n requests before its iteration i: the direction and the index read. */
  function ScanCursor(n: nat, s: nat, direction: Direction, i: nat): (Direction, int) {
    match direction
    case Right => if i < n - s then (Right, s + i) else (Left, n - 1 - i)
    case Left => if i <= s then (Left, s - i) else (Right, i)
  }

  /** Index the C-SCAN walk over n requests reads in its iteration i. */
  function CScanCursor(n: nat, s: nat, direction: Direction, i: nat): int {
    match direction
    case Right => if i < n - s then s + i else i - (n - s)
    case Left => if i <= s then s - i else n + s - i
  }

  /** Step i of the SCAN order serves the request under the cursor, and the cursor stays inside the array. */
  lemma ScanOrderAt(t: seq<int>, s: nat, direction: Direction, i: nat)
    requires s < |t| && i < |t|
    ensures |ScanOrder(t, s, direction)| == |t|
    ensures 0 <= ScanCursor(|t|, s, direction, i).1 < |t|
    ensures ScanOrder(t, s, direction)[i] == t[ScanCursor(|t|, s, direction, i).1]
  {
  }

  /** Step i of the C-SCAN order serves the request under the cursor, and the cursor stays inside the array. */
  lemma CScanOrderAt(t: seq<int>, s: nat, direction: Direction, i: nat)
    requires s < |t| && i < |t|
    ensures |CScanOrder(t, s, direction)| == |t|
    ensures 0 <= CScanCursor(|t|, s, direction, i) < |t|
    ensures CScanOrder(t, s, direction)[i] == t[CScanCursor(|t|, s, direction, i)]
  {
  }

  /**
   * The SCAN traversal loop. At the last index moving RIGHT (index 0 moving
   * LEFT) it serves that request, turns round and jumps to the other side of
   * the start index; that jump may leave the array on the final iteration,
   * where the cursor is never read again.
   */
  method ScanWalk(a: array<int>, start: nat, direction: Direction) returns (order: seq<int>)
    requires start < a.Length
    ensures order == ScanOrder(a[..], start, direction)
  {
    var n := a.Length;
    var served := new int[n];
    var current: int := start;
    var thisDirection := direction;
    ghost var o := ScanOrder(a[..], start, direction);
    for i := 0 to n
      invariant served[..i] == o[..i]
      invariant i < n ==> (thisDirection, current) == ScanCursor(n, start, direction, i)
    {
      ScanOrderAt(a[..], start, direction, i);
      if thisDirection == Left {
        if current == 0 {
          thisDirection := Right;
          served[i] := a[current];
          current := start + 1;
        } else {
          served[i] := a[current];
          current := current - 1;
        }
      } else {
        if current == n - 1 {
          thisDirection := Left;
          served[i] := a[current];
          current := start - 1;
        } else {
          served[i] := a[current];
          current := current + 1;
        }
      }
      assert served[..i + 1] == served[..i] + [served[i]];
      assert o[..i + 1] == o[..i] + [o[i]];
    }
    order := served[..];
    assert served[..] == served[..n] && o == o[..n];
  }

  /**
   * The C-SCAN traversal loop: the direction is never changed; at the last
   * index moving RIGHT the cursor wraps to index 0, at index 0 moving LEFT
   * to the last index.
   */
  method CScanWalk(a: array<int>, start: nat, direction: Direction) returns (order: seq<int>)
    requires start < a.Length
    ensures order == CScanOrder(a[..], start, direction)
  {
    var n := a.Length;
    var served := new int[n];
    var current: int := start;
    var thisDirection := direction;
    ghost var o := CScanOrder(a[..], start, direction);
    for i := 0 to n
      invariant served[..i] == o[..i]
      invariant thisDirection == direction
      invariant i < n ==> current == CScanCursor(n, start, direction, i)
    {
      CScanOrderAt(a[..], start, direction, i);
      if thisDirection == Left {
        if current == 0 {
          served[i] := a[current];
          current := n - 1;
        } else {
          served[i] := a[current];
          current := current - 1;
        }
      } else {
        if current == n - 1 {
          served[i] := a[current];
          current := 0;
        } else {
          served[i] := a[current];
          current := current + 1;
        }
      }
      assert served[..i + 1] == served[..i] + [served[i]];
      assert o[..i + 1] == o[..i] + [o[i]];
    }
    order := served[..];
    assert served[..] == served[..n] && o == o[..n];
  }

  /** Each walk reads every index of the sorted array exactly once. */
  lemma CursorsVisitEachIndexOnce(n: nat, s: nat, direction: Direction)
    requires s < n
    ensures forall i, j :: 0 <= i < j < n ==> ScanCursor(n, s, direction, i).1 != ScanCursor(n, s, direction, j).1
    ensures forall i, j :: 0 <= i < j < n ==> CScanCursor(n, s, direction, i) != CScanCursor(n, s, direction, j)
  {
  }

  /** The SCAN order serves every request exactly once: it is a permutation of the sorted requests. */
  lemma ScanOrderPermutation(t: seq<int>, s: nat, direction: Direction)
    requires s < |t|
    ensures |ScanOrder(t, s, direction)| == |t|
    ensures multiset(ScanOrder(t, s, direction)) == multiset(t)
  {
    match direction
    case Right =>
      assert t == t[..s] + t[s..];
      ReverseMultiset(t[..s]);
    case Left =>
      assert t == t[..s + 1] + t[s + 1..];
      ReverseMultiset(t[..s + 1]);
  }

  /** The C-SCAN order serves every request exactly once: it is a permutation of the sorted requests. */
  lemma CScanOrderPermutation(t: seq<int>, s: nat, direction: Direction)
    requires s < |t|
    ensures |CScanOrder(t, s, direction)| == |t|
    ensures multiset(CScanOrder(t, s, direction)) == multiset(t)
  {
    match direction
    case Right =>
      assert t == t[..s] + t[s..];
    case Left =>
      assert t == t[..s + 1] + t[s + 1..];
      ReverseMultiset(t[..s + 1]);
      ReverseMultiset(t[s + 1..]);
  }

  /**
   * On sorted requests the SCAN order starts with t[s] whatever the
   * direction, and is ascending then descending (RIGHT) or descending then
   * ascending (LEFT), turning round at an end of the sorted requests.
   */
  lemma ScanOrderShape(t: seq<int>, s: nat, direction: Direction)
    requires Sorted(t) && s < |t|
    ensures ScanOrder(t, s, direction)[0] == t[s]
    ensures direction == Right ==>
              var o := ScanOrder(t, s, direction);
              Sorted(o[..|t| - s]) && NonIncreasing(o[|t| - s..]) && o[|t| - s - 1] == t[|t| - 1]
    ensures direction == Left ==>
              var o := ScanOrder(t, s, direction);
              NonIncreasing(o[..s + 1]) && Sorted(o[s + 1..]) && o[s] == t[0]
  {
    var o := ScanOrder(t, s, direction);
    match direction
    case Right =>
      var up, down := t[s..], Reverse(t[..s]);
      SplitAt(up, down);
      SortedSlices(t, s);
      ReverseOfSorted(t[..s]);
    case Left =>
      var down, up := Reverse(t[..s + 1]), t[s + 1..];
      SplitAt(down, up);
      SortedSlices(t, s + 1);
      ReverseOfSorted(t[..s + 1]);
  }

  /**
   * On sorted requests the C-SCAN order starts with t[s] whatever the
   * direction, never turns round, and runs in two monotone pieces in the
   * same direction; between them it jumps from one end of the sorted
   * requests to the other.
   */
  lemma CScanOrderShape(t: seq<int>, s: nat, direction: Direction)
    requires Sorted(t) && s < |t|
    ensures CScanOrder(t, s, direction)[0] == t[s]
    ensures direction == Right ==>
              var o := CScanOrder(t, s, direction);
              Sorted(o[..|t| - s]) && Sorted(o[|t| - s..]) &&
              o[|t| - s - 1] == t[|t| - 1] && (s > 0 ==> o[|t| - s] == t[0])
    ensures direction == Left ==>
              var o := CScanOrder(t, s, direction);
              NonIncreasing(o[..s + 1]) && NonIncreasing(o[s + 1..]) &&
              o[s] == t[0] && (s + 1 < |t| ==> o[s + 1] == t[|t| - 1])
  {
    var o := CScanOrder(t, s, direction);
    match direction
    case Right =>
      var first, second := t[s..], t[..s];
      SplitAt(first, second);
      SortedSlices(t, s);
    case Left =>
      var first, second := Reverse(t[..s + 1]), Reverse(t[s + 1..]);
      SplitAt(first, second);
      SortedSlices(t, s + 1);
      ReverseOfSorted(t[..s + 1]);
      ReverseOfSorted(t[s + 1..]);
  }

  lemma SplitAt(x: seq<int>, y: seq<int>)
    ensures (x + y)[..|x|] == x && (x + y)[|x|..] == y
  {
  }

  lemma SortedSlices(t: seq<int>, k: nat)
    requires Sorted(t) && k <= |t|
    ensures Sorted(t[..k]) && Sorted(t[k..])
  {
    assert forall i :: 0 <= i < k ==> t[..k][i] == t[i];
    assert forall i :: 0 <= i < |t| - k ==> t[k..][i] == t[k + i];
  }

  lemma ReverseOfSorted(t: seq<int>)
    requires Sorted(t)
    ensures NonIncreasing(Reverse(t))
  {
  }

  /**
   * Head movement of SCAN on sorted requests t from start index s: the
   * approach to t[s], the sweep to the end in the starting direction and, if
   * requests remain on the other side, the full span back to the other end.
   */
  lemma ScanMovement(t: seq<int>, s: nat, direction: Direction, position: int)
    requires Sorted(t) && s < |t|
    ensures var n := |t|;
            Movement(position, ScanOrder(t, s, direction)) ==
              if direction == Right then
                Abs(position - t[s]) + (t[n - 1] - t[s]) + (if s > 0 then t[n - 1] - t[0] else 0)
              else
                Abs(position - t[s]) + (t[s] - t[0]) + (if s < n - 1 then t[n - 1] - t[0] else 0)
  {
    if direction == Right {
      ScanMovementRight(t, s, position);
    } else {
      ScanMovementLeft(t, s, position);
    }
  }

  lemma ScanMovementRight(t: seq<int>, s: nat, position: int)
    requires Sorted(t) && s < |t|
    ensures Movement(position, t[s..] + Reverse(t[..s])) ==
              Abs(position - t[s]) + (t[|t| - 1] - t[s]) + (if s > 0 then t[|t| - 1] - t[0] else 0)
  {
    var up, down := t[s..], Reverse(t[..s]);
    SortedSlices(t, s);
    MovementAppend(position, up, down);
    MovementAscending(position, up);
    assert Final(position, up) == t[|t| - 1];
    if s > 0 {
      ReturnSweep(t, s);
    } else {
      assert down == [];
    }
  }

  lemma ScanMovementLeft(t: seq<int>, s: nat, position: int)
    requires Sorted(t) && s < |t|
    ensures Movement(position, Reverse(t[..s + 1]) + t[s + 1..]) ==
              Abs(position - t[s]) + (t[s] - t[0]) + (if s < |t| - 1 then t[|t| - 1] - t[0] else 0)
  {
    var down, up := Reverse(t[..s + 1]), t[s + 1..];
    SortedSlices(t, s + 1);
    MovementAppend(position, down, up);
    OutwardSweep(t, s, position);
    if s < |t| - 1 {
      MovementAscending(t[0], up);
      assert t[0] <= t[s + 1];
    } else {
      assert up == [];
    }
  }

  /** Moving LEFT from the start, serving t[s] down to t[0] costs the approach to t[s] plus the span below it. */
  lemma OutwardSweep(t: seq<int>, s: nat, position: int)
    requires Sorted(t) && s < |t|
    ensures Movement(position, Reverse(t[..s + 1])) == Abs(position - t[s]) + t[s] - t[0]
    ensures Final(position, Reverse(t[..s + 1])) == t[0]
  {
    var down := Reverse(t[..s + 1]);
    SortedSlices(t, s + 1);
    ReverseOfSorted(t[..s + 1]);
    MovementDescending(position, down);
    assert down[0] == t[s] && down[|down| - 1] == t[0];
  }

  /** After SCAN turns round at the top, serving t[s-1] down to t[0] costs the span of the requests below the turn. */
  lemma ReturnSweep(t: seq<int>, s: nat)
    requires Sorted(t) && 0 < s < |t|
    ensures Movement(t[|t| - 1], Reverse(t[..s])) == t[|t| - 1] - t[0]
  {
    var down := Reverse(t[..s]);
    SortedSlices(t, s);
    ReverseOfSorted(t[..s]);
    MovementDescending(t[|t| - 1], down);
    assert down[0] == t[s - 1] && down[|down| - 1] == t[0];
    assert t[s - 1] <= t[|t| - 1];
  }

  /**
   * Head movement of C-SCAN on sorted requests t from start index s: the
   * approach to t[s], the sweep to the end, and, if requests remain, the
   * jump between the two extreme requests (their distance, not the disk's
   * width) followed by the sweep over the rest.
   */
  lemma CScanMovement(t: seq<int>, s: nat, direction: Direction, position: int)
    requires Sorted(t) && s < |t|
    ensures var n := |t|;
            Movement(position, CScanOrder(t, s, direction)) ==
              match direction
              case Right =>
                Abs(position - t[s]) + (t[n - 1] - t[s]) +
                (if s > 0 then Abs(t[n - 1] - t[0]) + (t[s - 1] - t[0]) else 0)
              case Left =>
                Abs(position - t[s]) + (t[s] - t[0]) +
                (if s < n - 1 then Abs(t[0] - t[n - 1]) + (t[n - 1] - t[s + 1]) else 0)
  {
    var n := |t|;
    match direction
    case Right =>
      var first, second := t[s..], t[..s];
      SortedSlices(t, s);
      MovementAppend(position, first, second);
      MovementAscending(position, first);
      if s > 0 {
        MovementAscending(t[n - 1], second);
      }
    case Left =>
      var first, second := Reverse(t[..s + 1]), Reverse(t[s + 1..]);
      SortedSlices(t, s + 1);
      MovementAppend(position, first, second);
      ReverseOfSorted(t[..s + 1]);
      MovementDescending(position, first);
      if s < n - 1 {
        ReverseOfSorted(t[s + 1..]);
        MovementDescending(t[0], second);
      }
  }
}
