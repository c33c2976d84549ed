/**
 * Worked examples proved about the model on small request lists: the
 * textbook list 98, 183, 37, 122, 14, 124, 65, 67 with the head at 53, the
 * quirks of the start index, and inputs on which the source's start-index
 * search is undefined.
 */
module Traces {
  import opened Requests
  import opened Sorting
  import opened StartSearch
  import opened Sweeps

  /** Requests 98, 183, 37, 122, 14, 124, 65, 67 with the head at 53: FCFS moves the head 640 cylinders. */
  lemma TextbookFcfs()
    ensures Movement(53, [98, 183, 37, 122, 14, 124, 65, 67]) == 640
  {
    var r := [98, 183, 37, 122, 14, 124, 65, 67];
    assert Movement(65, r[7..]) == 2;
    assert Movement(124, r[6..]) == 61;
    assert Movement(14, r[5..]) == 171;
    assert Movement(122, r[4..]) == 279;
    assert Movement(37, r[3..]) == 364;
    assert Movement(183, r[2..]) == 510;
    assert Movement(98, r[1..]) == 595;
  }

  /** Sorted, the textbook requests read 14, 37, 65, 67, 98, 122, 124, 183. */
  lemma TextbookSorted()
    ensures Sorted([14, 37, 65, 67, 98, 122, 124, 183])
  {
  }

  /** The sorted list holds the same requests as the arrival order. */
  lemma TextbookSamePermutation()
    ensures multiset([14, 37, 65, 67, 98, 122, 124, 183]) == multiset([98, 183, 37, 122, 14, 124, 65, 67])
  {
  }

  /**
   * The head at 53 lies between 37 and 65, so the start index is 1 in either
   * direction: the first request served is 37, below the head, even when
   * moving RIGHT.
   */
  lemma TextbookStart()
    ensures StartIndexDefined([14, 37, 65, 67, 98, 122, 124, 183], 53, Right)
    ensures StartIndex([14, 37, 65, 67, 98, 122, 124, 183], 53, Right) == 1
    ensures StartIndexDefined([14, 37, 65, 67, 98, 122, 124, 183], 53, Left)
    ensures StartIndex([14, 37, 65, 67, 98, 122, 124, 183], 53, Left) == 1
  {
    var t := [14, 37, 65, 67, 98, 122, 124, 183];
    assert !Brackets(t, 0, 53);
    assert Brackets(t, 1, 53);
    assert FirstBracket(t, 53, 1) == 1;
    assert FirstBracket(t, 53, 0) == 1;
  }

  /** SCAN moving RIGHT: up from 37 to 183, then back down to 14; 331 cylinders. */
  lemma TextbookScanRight()
    ensures ScanOrder([14, 37, 65, 67, 98, 122, 124, 183], 1, Right) == [37, 65, 67, 98, 122, 124, 183, 14]
    ensures Movement(53, ScanOrder([14, 37, 65, 67, 98, 122, 124, 183], 1, Right)) == 331
  {
    var t := [14, 37, 65, 67, 98, 122, 124, 183];
    TextbookSorted();
    assert t[..1] == [14];
    assert Reverse([14]) == [14];
    assert t[1..] == [37, 65, 67, 98, 122, 124, 183];
    ScanMovement(t, 1, Right, 53);
  }

  /** SCAN moving LEFT: 37 down to 14, then up from 65 to 183; 208 cylinders. */
  lemma TextbookScanLeft()
    ensures ScanOrder([14, 37, 65, 67, 98, 122, 124, 183], 1, Left) == [37, 14, 65, 67, 98, 122, 124, 183]
    ensures Movement(53, ScanOrder([14, 37, 65, 67, 98, 122, 124, 183], 1, Left)) == 208
  {
    var t := [14, 37, 65, 67, 98, 122, 124, 183];
    TextbookSorted();
    assert t[..2] == [14, 37];
    assert Reverse([14, 37]) == [37, 14];
    assert t[2..] == [65, 67, 98, 122, 124, 183];
    ScanMovement(t, 1, Left, 53);
  }

  /** C-SCAN moving RIGHT serves the same order as SCAN here, since nothing lies below 37 but 14. */
  lemma TextbookCScanRight()
    ensures CScanOrder([14, 37, 65, 67, 98, 122, 124, 183], 1, Right) == [37, 65, 67, 98, 122, 124, 183, 14]
    ensures Movement(53, CScanOrder([14, 37, 65, 67, 98, 122, 124, 183], 1, Right)) == 331
  {
    var t := [14, 37, 65, 67, 98, 122, 124, 183];
    TextbookSorted();
    assert t[..1] == [14];
    assert t[1..] == [37, 65, 67, 98, 122, 124, 183];
    CScanMovement(t, 1, Right, 53);
  }

  /** C-SCAN moving LEFT: 37 down to 14, a jump to 183, then down to 65; 326 cylinders. */
  lemma TextbookCScanLeft()
    ensures CScanOrder([14, 37, 65, 67, 98, 122, 124, 183], 1, Left) == [37, 14, 183, 124, 122, 98, 67, 65]
    ensures Movement(53, CScanOrder([14, 37, 65, 67, 98, 122, 124, 183], 1, Left)) == 326
  {
    var t := [14, 37, 65, 67, 98, 122, 124, 183];
    TextbookSorted();
    assert t[..2] == [14, 37];
    assert Reverse([14, 37]) == [37, 14];
    assert t[2..] == [65, 67, 98, 122, 124, 183];
    assert Reverse(t[2..]) == [183, 124, 122, 98, 67, 65];
    CScanMovement(t, 1, Left, 53);
  }

  /**
   * What `ScheduleAll` leaves behind on the textbook requests with the head
   * at 53 moving RIGHT: any ascending arrangement of them is the sorted list,
   * so SCAN and C-SCAN both serve 37 up to 183 and then 14, for 331 cylinders.
   */
  lemma TextbookScheduleRight(t: seq<int>)
    requires Sorted(t) && multiset(t) == multiset([98, 183, 37, 122, 14, 124, 65, 67])
    ensures StartIndexDefined(t, 53, Right)
    ensures ScanOrder(t, StartIndex(t, 53, Right), Right) == [37, 65, 67, 98, 122, 124, 183, 14]
    ensures Movement(53, ScanOrder(t, StartIndex(t, 53, Right), Right)) == 331
    ensures CScanOrder(t, StartIndex(t, 53, Right), Right) == [37, 65, 67, 98, 122, 124, 183, 14]
    ensures Movement(53, CScanOrder(t, StartIndex(t, 53, Right), Right)) == 331
  {
    TextbookSorted();
    TextbookSamePermutation();
    SortedPermutationUnique(t, [14, 37, 65, 67, 98, 122, 124, 183]);
    TextbookStart();
    TextbookScanRight();
    TextbookCScanRight();
  }

  /** The same on the textbook requests moving LEFT: SCAN costs 208 and C-SCAN 326. */
  lemma TextbookScheduleLeft(t: seq<int>)
    requires Sorted(t) && multiset(t) == multiset([98, 183, 37, 122, 14, 124, 65, 67])
    ensures StartIndexDefined(t, 53, Left)
    ensures ScanOrder(t, StartIndex(t, 53, Left), Left) == [37, 14, 65, 67, 98, 122, 124, 183]
    ensures Movement(53, ScanOrder(t, StartIndex(t, 53, Left), Left)) == 208
    ensures CScanOrder(t, StartIndex(t, 53, Left), Left) == [37, 14, 183, 124, 122, 98, 67, 65]
    ensures Movement(53, CScanOrder(t, StartIndex(t, 53, Left), Left)) == 326
  {
    TextbookSorted();
    TextbookSamePermutation();
    SortedPermutationUnique(t, [14, 37, 65, 67, 98, 122, 124, 183]);
    TextbookStart();
    TextbookScanLeft();
    TextbookCScanLeft();
  }

  /** With the head on a repeated smallest request, the start is the second copy. */
  lemma RepeatedSmallestRequest()
    ensures StartIndexDefined([5, 5, 7], 5, Left) && StartIndex([5, 5, 7], 5, Left) == 1
    ensures StartIndexDefined([5, 7], 5, Left) && StartIndex([5, 7], 5, Left) == 0
  {
    assert Brackets([5, 5, 7], 0, 5);
    assert Brackets([5, 7], 0, 5);
  }

  /**
   * Inputs the source does not handle: a single request under the head
   * (the pair search reads past the array); the head below every request
   * while moving RIGHT (no pair brackets it and no rule assigns the start
   * index); and the head above every request while moving LEFT (the last
   * step of the pair search reads past the array).
   */
  lemma UndefinedStarts()
    ensures !StartIndexDefined([50], 50, Left)
    ensures !StartIndexDefined([10, 20], 5, Right)
    ensures !StartIndexDefined([10, 20], 25, Left)
  {
  }
}
