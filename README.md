# Disk-head scheduling: FCFS, SCAN and C-SCAN

A Dafny model of `Assignment3.c`, a program that simulates three disk-head
scheduling algorithms over one list of cylinder requests. It takes an
initial head position (0 to 299) and an initial direction (LEFT or RIGHT).
For each algorithm it computes the order in which the requests are served
and the total head movement.

- **FCFS** serves the requests in arrival order.
- **SCAN** sorts the caller's request array in place and finds a start
  index. It then sweeps in the initial direction to one end of the sorted
  requests, turns round, and serves the rest on the way back.
- **C-SCAN** sorts the array again, which SCAN has already sorted, and
  finds the start index the same way. It sweeps to one end, wraps to the
  other end and carries on in the same direction.
- The **start-index search** is written out twice in the source, once in
  SCAN and once in C-SCAN. It is modelled once here.
- The **head movement** is the sum of `|previous - next|` over the served
  order, starting from the initial position. It is computed by the same
  loop in all three schedulers.

Modules, one per component of the program:

| file | module | what it holds |
|---|---|---|
| requests.dfy | `Requests` | `Direction`, the comparator `Compare` (`cmpfunc`), `Movement` and the shared movement loop `TotalMovement` |
| sorting.dfy | `Sorting` | the in-place ascending sort standing in for `qsort`, and the uniqueness of a sorted arrangement |
| start_index.dfy | `StartSearch` | the start-index rules as a function (`StartIndex`), the source's loop (`FindStartIndex`), and when the search is defined |
| sweeps.dfy | `Sweeps` | the SCAN and C-SCAN traversal loops over arrays (`ScanWalk`, `CScanWalk`), the orders they produce (`ScanOrder`, `CScanOrder`), and lemmas on permutation, shape and cost |
| schedulers.dfy | `Schedulers` | `Fcfs`, `Scan`, `CScan`, and `ScheduleAll`, which runs them in `main`'s order on one shared array |
| traces.dfy | `Traces` | worked examples: the textbook request list, the start-index quirks, and inputs the source does not handle |

The traversal loops are modelled as the source writes them. A cursor
`current` moves up or down; SCAN flips a direction variable and resets the
cursor to `start ± 1`. A result array is filled one slot per iteration.
Two quirks are kept:

- The first request served is always `sorted[start]`, whatever the
  direction. Moving RIGHT with `sorted[start] < position`, the head's
  first move is to the left (`Traces.TextbookStart`).
- When the head sits on the smallest request and that value appears twice,
  the start index is 1, not 0 (`Traces.RepeatedSmallestRequest`).

The head-movement sum uses mathematical integers. The C-SCAN wrap adds
the distance between the two extreme requests, not a fixed disk width.

Two facts about the code are worth stating:

- The pair loop runs `i` up to N-1 (Assignment3.c:198). So when no pair
  below N-1 brackets the head, the loop reaches `i = N-1`; there, if
  `requests[N-1] <= position`, it reads `requests[N]`, one past the array.
- With repeated requests the SCAN/C-SCAN movement can be 0 for N > 1.
  `Requests.MovementZero` shows the movement is 0 iff every served request
  equals the initial position.

## Model

| member | source | states |
|---|---|---|
| Requests.Compare | Assignment3.c:395-397 | the comparator's result is negative, zero or positive exactly when the first request is below, equal to or above the second |
| Requests.Movement | Assignment3.c:147-156 | the head movement of any served order from any start position is non-negative |
| Requests.MovementAppend | Assignment3.c:153-156 | the movement of serving two runs one after the other is the first run's movement plus the second's, measured from where the first run left the head |
| Requests.MovementZero | Assignment3.c:266-273 | the head moves 0 cylinders iff every served request equals the initial position |
| Requests.MovementAscending | Assignment3.c:270-273 | serving an ascending run costs the approach to its first request plus the run's span |
| Requests.MovementDescending | Assignment3.c:270-273 | serving a descending run costs the approach to its first request plus the run's span |
| Requests.TotalMovement | Assignment3.c:153-156 | the movement loop (the same loop at lines 270-273 and 383-386) returns exactly `Movement` of the served order from the initial position |
| Sorting.Sort | Assignment3.c:179 | the in-place sort of the caller's array leaves it ascending and a permutation of its old contents |
| Sorting.SortedPermutationUnique | Assignment3.c:298 | two ascending arrangements of the same requests are equal, so C-SCAN's second sort leaves SCAN's sorted array unchanged |
| StartSearch.FirstBracket | Assignment3.c:198-214 | returns a pair index i < N-1 with `t[i] <= position <= t[i+1]`, and no earlier pair from the starting point brackets the head |
| StartSearch.StartIndex | Assignment3.c:182-215 | when the search is defined, the start index is in range; outside the two edge rules, the head sits on the request at the start index or strictly between it and the next request |
| StartSearch.FindStartIndex | Assignment3.c:182-215 | the source's edge rules and pair loop with `break` return exactly `StartIndex`; every read `requests[i+1]` is in bounds |
| StartSearch.StartIndexDefinedSorted | Assignment3.c:186-215 | on sorted requests the search is defined iff an edge rule fires, or N >= 2 and `sorted[0] <= position <= sorted[N-1]` |
| StartSearch.StartIndexSorted | Assignment3.c:196-210 | on sorted requests with no edge rule: if the head is above `sorted[0]`, every request before the start is below the head and the start holds the head's cylinder or lies just below it; if the head is on `sorted[0]`, the start is 1 when `sorted[1]` equals it and 0 otherwise |
| StartSearch.HasStartIffDefined | Assignment3.c:184-215 | a condition checked on the arrival order holds iff the search is defined on any sorted arrangement of the same requests |
| Sweeps.ScanOrderAt | Assignment3.c:222-254 | step i of the SCAN order serves the request under the source's cursor at iteration i, and that cursor is in bounds |
| Sweeps.CScanOrderAt | Assignment3.c:338-368 | step i of the C-SCAN order serves the request under the source's cursor at iteration i, and that cursor is in bounds |
| Sweeps.ScanWalk | Assignment3.c:222-254 | the SCAN loop with its turn-round and `start ± 1` reset fills the result array with exactly `ScanOrder`: RIGHT gives `sorted[s..N-1]` then `sorted[s-1]` down to `sorted[0]`; LEFT gives `sorted[s]` down to `sorted[0]` then `sorted[s+1..N-1]` |
| Sweeps.CScanWalk | Assignment3.c:338-368 | the C-SCAN loop never changes direction and fills the result array with exactly `CScanOrder`: RIGHT gives `sorted[s..N-1]` then `sorted[0..s-1]`; LEFT gives `sorted[s]` down to `sorted[0]` then `sorted[N-1]` down to `sorted[s+1]` |
| Sweeps.CursorsVisitEachIndexOnce | Assignment3.c:222-254 | in both walks, no two of the N iterations read the same index of the sorted array |
| Sweeps.ScanOrderPermutation | Assignment3.c:222-254 | the SCAN order has N entries and is a permutation of the sorted requests |
| Sweeps.CScanOrderPermutation | Assignment3.c:338-368 | the C-SCAN order has N entries and is a permutation of the sorted requests |
| Sweeps.ScanOrderShape | Assignment3.c:222-254 | on sorted requests the SCAN order starts at `sorted[s]`. RIGHT: it ascends to `sorted[N-1]` then does not increase. LEFT: it descends to `sorted[0]` then does not decrease |
| Sweeps.CScanOrderShape | Assignment3.c:338-368 | on sorted requests the C-SCAN order starts at `sorted[s]` and forms two monotone runs in the same direction, joined by the jump between `sorted[N-1]` and `sorted[0]` |
| Sweeps.ScanMovement | Assignment3.c:266-273 | SCAN's movement is `|position - sorted[s]|` plus the sweep to the end, plus the full span `sorted[N-1] - sorted[0]` when requests remain on the other side |
| Sweeps.CScanMovement | Assignment3.c:379-386 | C-SCAN's movement is `|position - sorted[s]|` plus the sweep to the end, then `|sorted[N-1] - sorted[0]|` for the wrap and the sweep over the rest when requests remain |
| Schedulers.Fcfs | Assignment3.c:131-161 | FCFS serves the array in arrival order, does not modify it, and reports `Movement` of that order from the initial position |
| Schedulers.Scan | Assignment3.c:164-279 | SCAN leaves the caller's array sorted and a permutation of the input. It serves `ScanOrder` from `StartIndex`, a permutation of the requests, and reports its movement |
| Schedulers.CScan | Assignment3.c:282-391 | C-SCAN leaves the caller's array sorted and a permutation of the input. It serves `CScanOrder` from `StartIndex`, a permutation of the requests, and reports its movement |
| Schedulers.ScheduleAll | Assignment3.c:119-126 | FCFS sees the original order; SCAN and C-SCAN both work from one sorted array and the same start index, because C-SCAN's sort changes nothing |
| Traces.TextbookFcfs | Assignment3.c:146-156 | requests 98, 183, 37, 122, 14, 124, 65, 67 from head 53 cost 640 cylinders under FCFS |
| Traces.TextbookStart | Assignment3.c:182-215 | on the sorted textbook requests, head 53 gives start index 1 (cylinder 37) in both directions |
| Traces.TextbookScanRight | Assignment3.c:222-273 | SCAN moving RIGHT serves 37, 65, 67, 98, 122, 124, 183, 14 and costs 331 |
| Traces.TextbookScanLeft | Assignment3.c:222-273 | SCAN moving LEFT serves 37, 14, 65, 67, 98, 122, 124, 183 and costs 208 |
| Traces.TextbookCScanRight | Assignment3.c:338-386 | C-SCAN moving RIGHT serves 37, 65, 67, 98, 122, 124, 183, 14 and costs 331 |
| Traces.TextbookCScanLeft | Assignment3.c:338-386 | C-SCAN moving LEFT serves 37, 14, 183, 124, 122, 98, 67, 65 and costs 326 |
| Traces.TextbookScheduleRight | Assignment3.c:119-126 | on any ascending arrangement of the textbook requests, which is what `ScheduleAll` leaves, head 53 moving RIGHT makes SCAN and C-SCAN both serve 37, 65, 67, 98, 122, 124, 183, 14 at a cost of 331 |
| Traces.TextbookScheduleLeft | Assignment3.c:119-126 | the same moving LEFT: SCAN serves 37, 14, 65, …, 183 for 208 and C-SCAN serves 37, 14, 183, …, 65 for 326 |
| Traces.RepeatedSmallestRequest | Assignment3.c:201-209 | with the head on a repeated smallest request the start index is 1; without the repeat it is 0 |
| Traces.UndefinedStarts | Assignment3.c:196-215 | the search is undefined for a single request under the head, for the head below every request moving RIGHT, and for the head above every request moving LEFT |

## Left out

- Argument parsing and validation (Assignment3.c:55-81) are command-line plumbing. `ScheduleAll` requires `0 <= position <= 299`, as `main` checks. The direction is the `Direction` enumeration, so the case-insensitive string comparison and upper-casing are not modelled.
- Reading `data/request.bin` (Assignment3.c:85-109) is file I/O. The requests arrive as an `array<int>` of any length. Request values are not limited to 0..299, because the source does not check them.
- All console output (headers, served orders, totals) is left out.
- The C library's `qsort` is a foreign call. `Sorting.Sort` is an insertion sort driven by `Compare`, specified by qsort's promise: ascending and a permutation. Equal requests are equal integers, so which permutation qsort picks does not matter.
- Requests.Compare: does not model the C `int` overflow of `a - b`. `abs`, the running total and every other integer are mathematical integers too, so 32-bit wrap-around is not modelled.
- The start-index search is undefined when no edge rule fires and no pair `i < N-1` brackets the head. Then the source either reads `requests[N]` or leaves `start_index` unassigned. That case is excluded by the precondition `StartIndexDefined` (on the sorted array) or `HasStart` (on the arrival order). `Traces.UndefinedStarts` shows such inputs. No fallback index is invented.
- The source's scratch arrays (`sortedArray`) live on the stack. Here they are fresh local arrays, and each walk returns their contents as a sequence.
