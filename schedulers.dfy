/**
 * The three schedulers and the order in which the program runs them. All
 * three receive the same request array: FCFS reads it as it arrived, SCAN
 * sorts it in place, and C-SCAN therefore receives the array already sorted
 * (and sorts it again). Each returns the order in which it serves the
 * requests and the total head movement; the console output is not modelled.
 */
module Schedulers {
  import opened Requests
  import opened Sorting
  import opened StartSearch
  import opened Sweeps

  /** First-come-first-served: the arrival order, costed from the initial position; the array is only read. */
  method Fcfs(requests: array<int>, position: int) returns (order: seq<int>, total: int)
    ensures order == requests[..]
    ensures total == Movement(position, requests[..])
  {
    order := requests[..];
    total := TotalMovement(position, requests[..]);
  }

  /**
   * SCAN: sort the caller's array in place, find the start index, sweep in
   * the initial direction to one end of the sorted requests, then serve the
   * rest on the way back.
   */
  method Scan(requests: array<int>, position: int, direction: Direction) returns (order: seq<int>, total: int)
    requires HasStart(requests[..], position, direction)
    modifies requests
    ensures Sorted(requests[..]) && multiset(requests[..]) == multiset(old(requests[..]))
    ensures StartIndexDefined(requests[..], position, direction)
    ensures order == ScanOrder(requests[..], StartIndex(requests[..], position, direction), direction)
    ensures multiset(order) == multiset(old(requests[..]))
    ensures total == Movement(position, order)
  {
    Sort(requests);
    HasStartIffDefined(old(requests[..]), requests[..], position, direction);
    var start := FindStartIndex(requests, position, direction);
    order := ScanWalk(requests, start, direction);
    ScanOrderPermutation(requests[..], start, direction);
    total := TotalMovement(position, order);
  }

  /**
   * C-SCAN: sort the caller's array in place, find the start index, sweep in
   * the initial direction to one end, wrap to the other end and carry on in
   * the same direction.
   */
  method CScan(requests: array<int>, position: int, direction: Direction) returns (order: seq<int>, total: int)
    requires HasStart(requests[..], position, direction)
    modifies requests
    ensures Sorted(requests[..]) && multiset(requests[..]) == multiset(old(requests[..]))
    ensures StartIndexDefined(requests[..], position, direction)
    ensures order == CScanOrder(requests[..], StartIndex(requests[..], position, direction), direction)
    ensures multiset(order) == multiset(old(requests[..]))
    ensures total == Movement(position, order)
  {
    Sort(requests);
    HasStartIffDefined(old(requests[..]), requests[..], position, direction);
    var start := FindStartIndex(requests, position, direction);
    order := CScanWalk(requests, start, direction);
    CScanOrderPermutation(requests[..], start, direction);
    total := TotalMovement(position, order);
  }

  /**
   * The program after its argument checks: FCFS, then SCAN, then C-SCAN, on
   * one shared array. FCFS sees the arrival order; SCAN leaves the array
   * sorted; C-SCAN's own sort then changes nothing, so both sweeps start
   * from the same index of the same sorted array.
   */
  method ScheduleAll(requests: array<int>, position: int, direction: Direction)
    returns (fcfsOrder: seq<int>, fcfsTotal: int,
             scanOrder: seq<int>, scanTotal: int,
             cscanOrder: seq<int>, cscanTotal: int)
    requires IsCylinder(position)
    requires HasStart(requests[..], position, direction)
    modifies requests
    ensures fcfsOrder == old(requests[..]) && fcfsTotal == Movement(position, old(requests[..]))
    ensures Sorted(requests[..]) && multiset(requests[..]) == multiset(old(requests[..]))
    ensures StartIndexDefined(requests[..], position, direction)
    ensures var start := StartIndex(requests[..], position, direction);
            scanOrder == ScanOrder(requests[..], start, direction) &&
            cscanOrder == CScanOrder(requests[..], start, direction)
    ensures scanTotal == Movement(position, scanOrder) && cscanTotal == Movement(position, cscanOrder)
  {
    fcfsOrder, fcfsTotal := Fcfs(requests, position);
    scanOrder, scanTotal := Scan(requests, position, direction);
    ghost var sortedOnce := requests[..];
    HasStartIffDefined(old(requests[..]), sortedOnce, position, direction);
    HasStartIffDefined(sortedOnce, sortedOnce, position, direction);
    cscanOrder, cscanTotal := CScan(requests, position, direction);
    SortedPermutationUnique(requests[..], sortedOnce);
  }
}
