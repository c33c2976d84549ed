/**
 * The start-index block that SCAN and C-SCAN share (written out twice in the
 * source, once in each scheduler): on the sorted requests, choose the index
 * of the request the sweep serves first.
 *
 *   1. head below every request and moving LEFT: index 0;
 *   2. else head above every request and moving RIGHT: the last index;
 *   3. else the first adjacent pair sorted[i] <= position <= sorted[i+1]
 *      gives i + 1 when the head sits on sorted[i+1], and i otherwise.
 *
 * The pair search reads sorted[i+1] for i up to N-1, so when no pair with
 * i < N-1 brackets the head the source reads past the array or leaves the
 * index unset. `StartIndexDefined` is the condition under which neither
 * happens, and every member here requires it.
 */
module StartSearch {
  import opened Requests

  predicate LeftEdge(t: seq<int>, position: int, direction: Direction)
    requires |t| > 0
  {
    position < t[0] && direction == Left
  }

  predicate RightEdge(t: seq<int>, position: int, direction: Direction)
    requires |t| > 0
  {
    position > t[|t| - 1] && direction == Right
  }

  /** The pair (t[i], t[i+1]) brackets the head position. */
  predicate Brackets(t: seq<int>, i: int, position: int)
    requires 0 <= i < |t| - 1
  {
    t[i] <= position <= t[i + 1]
  }

  predicate StartIndexDefined(t: seq<int>, position: int, direction: Direction) {
    |t| > 0 &&
    (LeftEdge(t, position, direction) || RightEdge(t, position, direction) ||
     exists i :: 0 <= i < |t| - 1 && Brackets(t, i, position))
  }

  /** The first bracketing pair at or after `from`. */
  function FirstBracket(t: seq<int>, position: int, from: nat): (i: nat)
    requires exists k :: from <= k < |t| - 1 && Brackets(t, k, position)
    ensures from <= i < |t| - 1 && Brackets(t, i, position)
    ensures forall k :: from <= k < i ==> !Brackets(t, k, position)
    decreases |t| - from
  {
    if Brackets(t, from, position) then from else FirstBracket(t, position, from + 1)
  }

  /**
   * The start index. The in-range bound holds on any input the search is
   * defined for; without an edge rule, the head sits on the request at the
   * start index or strictly between it and the next one.
   */
  function StartIndex(t: seq<int>, position: int, direction: Direction): (r: nat)
    requires StartIndexDefined(t, position, direction)
    ensures r < |t|
    ensures !LeftEdge(t, position, direction) && !RightEdge(t, position, direction) ==>
              t[r] == position || (r + 1 < |t| && t[r] < position < t[r + 1])
  {
    if LeftEdge(t, position, direction) then 0
    else if RightEdge(t, position, direction) then |t| - 1
    else
      var i := FirstBracket(t, position, 0);
      if position == t[i + 1] then i + 1 else i
  }

  /** The source's search, edge rules first, then the loop over pairs that stops at the first bracket. */
  method FindStartIndex(a: array<int>, position: int, direction: Direction) returns (start: nat)
    requires StartIndexDefined(a[..], position, direction)
    ensures start == StartIndex(a[..], position, direction)
  {
    var n := a.Length;
    if position < a[0] && direction == Left {
      start := 0;
    } else if position > a[n - 1] && direction == Right {
      start := n - 1;
    } else {
      start := 0;
      var i := 0;
      while i < n
        invariant 0 <= i < n - 1
        invariant exists k :: i <= k < n - 1 && Brackets(a[..], k, position)
        invariant forall k :: 0 <= k < i ==> !Brackets(a[..], k, position)
        invariant FirstBracket(a[..], position, 0) == FirstBracket(a[..], position, i)
        decreases n - i
      {
        if a[i] <= position && a[i + 1] >= position {
          assert Brackets(a[..], i, position);
          if position == a[i + 1] {
            start := i + 1;
            break;
          } else {
            start := i;
            break;
          }
        }
        i := i + 1;
      }
    }
  }

  /** On sorted requests the search is defined exactly when an edge rule fires or the head lies within the requests' span. */
  lemma StartIndexDefinedSorted(t: seq<int>, position: int, direction: Direction)
    requires |t| > 0 && Sorted(t)
    ensures StartIndexDefined(t, position, direction) <==>
              LeftEdge(t, position, direction) || RightEdge(t, position, direction) ||
              (|t| >= 2 && t[0] <= position <= t[|t| - 1])
  {
    if |t| >= 2 && t[0] <= position <= t[|t| - 1] {
      BracketExists(t, position, 0);
    }
  }

  lemma {:induction false} BracketExists(t: seq<int>, position: int, lo: nat)
    requires Sorted(t) && lo < |t| - 1
    requires t[lo] <= position <= t[|t| - 1]
    ensures exists k :: lo <= k < |t| - 1 && Brackets(t, k, position)
    decreases |t| - lo
  {
    if position <= t[lo + 1] {
      assert Brackets(t, lo, position);
    } else {
      BracketExists(t, position, lo + 1);
    }
  }

  /**
   * On sorted requests, when no edge rule fires: if the head lies above the
   * smallest request, every request before the start index lies strictly
   * below the head, so the start is the first request at the head or, if
   * none is there, the last one below it. If the head sits exactly on the
   * smallest request, the start is index 1 when that value is repeated and
   * index 0 otherwise.
   */
  lemma StartIndexSorted(t: seq<int>, position: int, direction: Direction)
    requires Sorted(t) && StartIndexDefined(t, position, direction)
    requires !LeftEdge(t, position, direction) && !RightEdge(t, position, direction)
    ensures |t| >= 2 && t[0] <= position
    ensures t[0] < position ==>
              var r := StartIndex(t, position, direction);
              (forall k :: 0 <= k < r ==> t[k] < position) &&
              (t[r] == position || (r + 1 < |t| && t[r] < position < t[r + 1]))
    ensures t[0] == position ==>
              StartIndex(t, position, direction) == if t[1] == position then 1 else 0
  {
    var i := FirstBracket(t, position, 0);
    if t[0] < position {
      BelowUntilBracket(t, position, i);
    }
  }

  /** Before the first bracketing pair, a sorted sequence that starts below the head stays below it. */
  lemma {:induction false} BelowUntilBracket(t: seq<int>, position: int, i: nat)
    requires Sorted(t) && i < |t| - 1 && t[0] < position
    requires forall k :: 0 <= k < i ==> !Brackets(t, k, position)
    ensures forall k :: 0 <= k <= i ==> t[k] < position
    decreases i
  {
    if i > 0 {
      BelowUntilBracket(t, position, i - 1);
      assert !Brackets(t, i - 1, position);
    }
  }

  /**
   * The same condition stated on the requests in any order, so that a caller
   * can check it before the sort: the head is below every request and moving
   * LEFT, above every request and moving RIGHT, or there are two requests or
   * more and some lie at or below the head and some at or above it.
   */
  predicate HasStart(requests: seq<int>, position: int, direction: Direction) {
    |requests| > 0 &&
    ((direction == Left && forall x :: x in requests ==> position < x) ||
     (direction == Right && forall x :: x in requests ==> x < position) ||
     (|requests| >= 2 &&
      (exists x :: x in requests && x <= position) &&
      (exists y :: y in requests && position <= y)))
  }

  /** On any ascending arrangement of the requests, the search is defined exactly when `HasStart` holds. */
  lemma HasStartIffDefined(requests: seq<int>, t: seq<int>, position: int, direction: Direction)
    requires Sorted(t) && multiset(t) == multiset(requests)
    ensures HasStart(requests, position, direction) <==> StartIndexDefined(t, position, direction)
  {
    assert |t| == |multiset(t)| == |multiset(requests)| == |requests|;
    assert forall x :: x in t <==> x in requests by {
      forall x ensures x in t <==> x in requests {
        assert x in t <==> x in multiset(t);
        assert x in requests <==> x in multiset(requests);
      }
    }
    if |t| > 0 {
      StartIndexDefinedSorted(t, position, direction);
      assert t[0] in t && t[|t| - 1] in t;
      forall x | x in t ensures t[0] <= x <= t[|t| - 1] {
        var k :| 0 <= k < |t| && t[k] == x;
      }
    }
  }
}
