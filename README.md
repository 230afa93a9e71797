# Seat allocation engine

A Dafny model of the seating engine of the puppet-show seating puzzle. It covers the classes `Seating` and `Seat` in `src/com/showclix/seating/`.

A venue is a `rowCount` by `seatCount` chart of seats. Each seat carries its Manhattan distance from the best seat: row 0, column `seatCount / 2`. At construction the engine builds the chart row by row and puts every seat in a priority list. It then sorts the list stably by distance.

- `preReserveSeat` flags one seat, given in 1-based coordinates.
- `requestSeats(total)` asks `findSeats` for a block of `total` adjacent seats in one row:
  - `findSeats` walks the priority list. For each anchor it checks the window of `total` seats starting `total / 2` columns to its left.
  - At the first window that lies on the chart and holds no reserved or pre-reserved seat, it removes that anchor from the list and returns the window's leftmost seat.
  - `requestSeats` then reserves the window.

Modules, one per concern of the source:

- `Wrappers`: `Result` and `Outcome`.
- `SeatModel` (`seat.dfy`): the class `Seat`, with its two flags, its status symbol, `compareTo`, and its label `R<row+1>C<column+1>`. Labels use Java's decimal rendering of an `int`.
- `PriorityOrder` (`priority.dfy`):
  - `calculateDistance` and `isValidSeat`;
  - the row-major order in which the nested loops create seats;
  - the result of `Collections.sort`, a stable insertion sort by distance (`PrioritySort`);
  - the strict priority order `Ordered`: by distance, then row, then column.
- `Allocation` (`allocation.dfy`): the engine's state as a value, `ChartState`:
  - the dimensions, the priority list (as coordinates), and the sets of reserved and pre-reserved seats;
  - the functions `Initial`, `AfterPreReserve` and `AfterRequest`, which say what construction and the two operations do;
  - the invariant `Consistent`, and the lemmas about all of these.
- `SeatingEngine` (`seating.dfy`): the class `Seating`, with its `array2` chart of `Seat` objects and its priority list:
  - each method is proved to turn `State()` into the value the `Allocation` function gives;
  - `Valid()` ties every chart cell to its coordinates, its distance and the flags recorded in `State()`.
- `RequestScenario` (`scenario.dfy`): the three-request sequence of `SeatingTest.testRequestSeats`, proved for every chart with at least 3 rows and 4 columns.

The repository's description of the engine differs from the code in several ways. The model follows the code:

- The code has no available-seat counter and no maximum group size.
- The code's search checks one fixed window per anchor; it does not expand left and right.
- `requestSeats` returns nothing, not a label or a label range.
- When no anchor fits, `findSeats` calls `priorityList.remove(index)` with `index == size`. That throws `IndexOutOfBoundsException`, so the `"Not Available"` branch is never reached. The model returns that exception as `Failure(IndexOutOfBounds(size, size))` and leaves the state unchanged.

Requests with `total <= 0` are modelled as the code runs them:

- With `total == 0`, the first anchor "fits" (an empty window). Its entry leaves the list and nothing is reserved.
- With a negative total, no anchor fits, so the exception above is thrown.

Lemmas that need a real request require `total >= 1`.

## Model

| member | source | states |
|---|---|---|
| PriorityOrder.CalculateDistance | src/com/showclix/seating/Seating.java:178-180 | the distance is never negative, is at least the row and at least the column offset from `seatCount / 2`, and is 0 exactly at the best seat (0, seatCount / 2) |
| PriorityOrder.IsValidSeat | src/com/showclix/seating/Seating.java:165-167 | defines a seat of the chart: 0 <= row < rowCount and 0 <= column < seatCount; `RowMajorMembers` proves the chart's seats are exactly these |
| PriorityOrder.ValidSeatExamples | test/com/showclix/seating/SeatingTest.java:94-100 | on a 10 by 10 chart, (11,10) and (10,10) are not seats; (0,0) and (5,8) are |
| PriorityOrder.RowSeatsAt | src/com/showclix/seating/Seating.java:54-58 | the inner loop appends the seats (row, 0) .. (row, n-1) in that order |
| PriorityOrder.RowMajorLength | src/com/showclix/seating/Seating.java:53-59 | the nested loops create rows * cols seats |
| PriorityOrder.RowMajorMembers | src/com/showclix/seating/Seating.java:53-59 | a coordinate is created by the nested loops exactly when it is a seat of the chart |
| PriorityOrder.RowMajorIncreasing | src/com/showclix/seating/Seating.java:53-59 | the loops create seats in strictly increasing row-major order, hence each seat once |
| PriorityOrder.RowMajorContents | src/com/showclix/seating/Seating.java:53-59 | length, membership and row-major increase of the created list together |
| PriorityOrder.InsertPermutes | src/com/showclix/seating/Seating.java:61 | inserting into the sorted list adds exactly the new seat |
| PriorityOrder.PrioritySortPermutes | src/com/showclix/seating/Seating.java:61 | the sort is a permutation of its input |
| PriorityOrder.InsertSorted | src/com/showclix/seating/Seating.java:61 | insertion keeps a list ascending by distance |
| PriorityOrder.PrioritySortSorted | src/com/showclix/seating/Seating.java:61 | the sorted list is ascending by distance (the order `Seat.compareTo` defines) |
| PriorityOrder.InsertOrdered | src/com/showclix/seating/Seating.java:61 | inserting a seat that comes after every seat of the list in row-major order keeps the strict priority order |
| PriorityOrder.PrioritySortOrdered | src/com/showclix/seating/Seating.java:61 | stability: on a row-major increasing input, seats of equal distance stay in row-major order, so the result is in the strict priority order |
| PriorityOrder.OrderedUnique | src/com/showclix/seating/Seating.java:61 | two lists in the strict priority order with the same elements are equal: any list of the chart's seats in that order (which a stable sort by distance of the row-major list is) equals `PrioritySort`'s list |
| PriorityOrder.RemoveOrdered | src/com/showclix/seating/Seating.java:150 | removing one entry keeps the priority order |
| SeatModel.SeatLabel | src/com/showclix/seating/Seat.java:82-84 | defines the label: "R", Java's rendering of row + 1, "C", Java's rendering of column + 1; `LabelIdentifiesSeat` and `LabelExamples` state its properties |
| SeatModel.DecimalRoundTrip | src/com/showclix/seating/Seat.java:82-84 | reading back the decimal digits of a number gives the number |
| SeatModel.IntRoundTrip | src/com/showclix/seating/Seat.java:82-84 | reading back Java's rendering of an int, minus sign included, gives the int |
| SeatModel.IntToDecimalInjective | src/com/showclix/seating/Seat.java:82-84 | distinct ints are rendered as distinct strings |
| SeatModel.LabelIdentifiesSeat | src/com/showclix/seating/Seat.java:82-84 | two seats with the same label have the same row and column |
| SeatModel.LabelExamples | test/com/showclix/seating/SeatTest.java:31-34 | the labels of (2,2), (1,9), (8,7) and (30,1001) are R3C3, R2C10, R9C8 and R31C1002 |
| SeatModel.Seat.constructor | src/com/showclix/seating/Seat.java:25-46 | a new seat keeps the row, column and distance it was given, has neither flag set, is not reserved and shows '-' |
| SeatModel.Seat.Label | src/com/showclix/seating/Seat.java:82-84 | getSeatLabel: the label of the seat's own row and column |
| SeatModel.Seat.ToString | src/com/showclix/seating/Seat.java:149-152 | toString: the same string as the label |
| SeatModel.Seat.IsReserved | src/com/showclix/seating/Seat.java:124-126 | defines a taken seat: reserved or pre-reserved; the setters and removers state how each changes it |
| SeatModel.Seat.SetReserved | src/com/showclix/seating/Seat.java:89-91 | sets the reserved flag and leaves the pre-reservation flag; the seat is then taken |
| SeatModel.Seat.RemoveReservation | src/com/showclix/seating/Seat.java:96-98 | clears the reserved flag only; the seat stays taken exactly when it is pre-reserved |
| SeatModel.Seat.SetPreReservation | src/com/showclix/seating/Seat.java:105-107 | sets the pre-reservation flag and leaves the reserved flag; the seat is then taken |
| SeatModel.Seat.RemovePreReservation | src/com/showclix/seating/Seat.java:112-114 | clears the pre-reservation flag only; the seat stays taken exactly when it is reserved |
| SeatModel.Seat.StatusSymbol | src/com/showclix/seating/Seat.java:135-143 | 'X' exactly when pre-reserved, 'O' exactly when reserved and not pre-reserved, '-' exactly when free |
| SeatModel.Seat.CompareTo | src/com/showclix/seating/Seat.java:158-161 | negative, zero or positive exactly as this seat is closer to, as close as, or farther from the best seat than the other |
| Allocation.Initial | src/com/showclix/seating/Seating.java:30-63 | defines the state after construction: the given dimensions, the sorted row-major list, no flag set; `InitialState` states its properties |
| Allocation.AfterPreReserve | src/com/showclix/seating/Seating.java:73-83 | pre-reserving changes only the pre-reserved seats and adds at most (row-1, column-1); that seat is pre-reserved afterwards exactly when it is a chart seat or was pre-reserved before |
| Allocation.Fits | src/com/showclix/seating/Seating.java:134-143 | defines when the inner loop's count reaches `total`: total >= 0 and every seat of the anchor's window lies on the chart and is neither reserved nor pre-reserved |
| Allocation.AfterRequest | src/com/showclix/seating/Seating.java:94-152 | defines a request on the state: remove's exception when the walk runs off the list, else the anchor found leaves the list and its window is reserved; `RequestOutcome` states its properties |
| Allocation.Window | src/com/showclix/seating/Seating.java:136 | the window holds exactly the seats of its row from its start column, `total` of them |
| Allocation.FirstFit | src/com/showclix/seating/Seating.java:131-149 | the index where the walk stops: no earlier anchor fits, and the anchor there fits unless the walk ran off the end |
| Allocation.FirstFitUnique | src/com/showclix/seating/Seating.java:131-149 | any index with those two properties is the one the walk stops at |
| Allocation.InitialState | src/com/showclix/seating/Seating.java:30-63 | after construction the list holds each of the rows * cols seats exactly once, ascending by distance, in the strict priority order; nothing is taken; the invariant holds |
| Allocation.AnchorInWindow | src/com/showclix/seating/Seating.java:136 | for total >= 1 the anchor lies in its own window |
| Allocation.WindowSize | src/com/showclix/seating/Seating.java:103-106 | a window holds exactly `total` seats |
| Allocation.RequestOutcome | src/com/showclix/seating/Seating.java:94-152 | a request fails, with remove's exception at index size, exactly when no anchor of the list fits, and then changes nothing. On success the first fitting anchor is removed from the list and its window is reserved. The window holds `total` free chart seats of one row, the anchor among them. The reserved set grows by exactly `total` and nothing else changes |
| Allocation.PreReservePreserves | src/com/showclix/seating/Seating.java:73-83 | pre-reserving keeps the invariant |
| Allocation.PreReserveIdempotent | src/com/showclix/seating/Seating.java:73-83 | pre-reserving the same seat twice equals doing it once |
| Allocation.RequestPreserves | src/com/showclix/seating/Seating.java:94-152 | a successful request keeps the invariant; in particular the removed anchor is now reserved |
| Allocation.FirstFitIsBest | src/com/showclix/seating/Seating.java:131-147 | the anchor chosen is the best fitting one: a fitting anchor that every anchor before it in priority order fails is the one found |
| Allocation.RequestTakesBest | src/com/showclix/seating/Seating.java:94-152 | given the best fitting anchor, a request succeeds, reserves exactly that anchor's window, leaves pre-reservations alone and keeps the invariant |
| SeatingEngine.Seating.constructor | src/com/showclix/seating/Seating.java:30-38 | the new engine has the given dimensions, a valid chart of newly created seats, and the initial state: nothing taken, every seat in the sorted list; the invariant holds |
| SeatingEngine.Seating.InitializeSeatingChart | src/com/showclix/seating/Seating.java:47-63 | fills a fresh chart so that every cell holds a newly created free seat with its own coordinates and distance, and leaves the priority list sorted: the state is `Initial` |
| SeatingEngine.Seating.InitializeRow | src/com/showclix/seating/Seating.java:54-58 | the inner loop fills one row with new free seats, all newly created, and appends them to the list in column order |
| SeatingEngine.Seating.BuiltChartValid | src/com/showclix/seating/Seating.java:47-63 | a fully built chart with no flag set, whose list is the sorted row-major list, is valid: every cell holds its own seat and every listed entry is a chart seat |
| SeatingEngine.Seating.CompareToFollowsKey | src/com/showclix/seating/Seat.java:158-161 | on chart cells compareTo is negative exactly when the first seat's distance key is smaller, and zero exactly when the keys are equal: the order the priority list is sorted by |
| SeatingEngine.Seating.PreReserveSeat | src/com/showclix/seating/Seating.java:73-83 | with 1-based coordinates of a chart seat, flags that seat pre-reserved; otherwise changes nothing; no other seat changes |
| SeatingEngine.Seating.FindSeats | src/com/showclix/seating/Seating.java:128-152 | returns the leftmost seat of the window of the first fitting anchor and removes that anchor's entry from the list; if none fits, returns remove's exception and leaves the list as it was; no seat changes |
| SeatingEngine.Seating.CountFree | src/com/showclix/seating/Seating.java:134-143 | the inner loop's count reaches `total` exactly when the anchor's window lies on the chart and every seat in it is free |
| SeatingEngine.Seating.ReserveWindow | src/com/showclix/seating/Seating.java:103-106 | reserves exactly the `total` seats from the returned seat rightwards |
| SeatingEngine.Seating.ReserveSeat | src/com/showclix/seating/Seating.java:105 | `setReserved` on one chart cell adds just that seat to the reserved ones |
| SeatingEngine.Seating.RequestSeats | src/com/showclix/seating/Seating.java:94-112 | the state changes as `AfterRequest` says: on success, anchor removed and window reserved; on failure, the exception is returned and nothing changes |
| RequestScenario.FirstRequest | test/com/showclix/seating/SeatingTest.java:40-45 | on a fresh chart a request for 4 takes row 1, 1-based columns cols/2-1 .. cols/2+2 |
| RequestScenario.SecondRequest | test/com/showclix/seating/SeatingTest.java:47-49 | a second request for 4 takes the same columns of row 2 |
| RequestScenario.ThirdRequest | test/com/showclix/seating/SeatingTest.java:51-60 | then a request for 1 takes R1C(cols/2+3) when cols > 4, else R3C(cols/2+1); the invariant holds, nothing is pre-reserved and the dimensions are kept |
| RequestScenario.FreshChartScenario | test/com/showclix/seating/SeatingTest.java:33-62 | the three requests in sequence on a fresh chart, each succeeding with the seats above |
| RequestScenario.FreshChartRequests | test/com/showclix/seating/SeatingTest.java:38-60 | the same sequence on the engine itself: a new `Seating`, then `RequestSeats(4)`, `RequestSeats(4)`, `RequestSeats(1)`; each returns `Pass` and exactly the scenario's seats end up reserved, none pre-reserved |

## Left out

- Console output is left out: the debug print of each anchor in `findSeats`, the `"Not Available"` print (unreachable, see above) and `print()`. `StatusSymbol` covers the only logic `print()` uses.
- `SeatingDriver`, `Settings`, `Output`, the two exception classes that the engine never throws, and `TestSuite` are not part of this model. They hold input parsing, configuration, console wrappers and test wiring.
- The tests' calls to APIs the engine lacks (`getSeat`, `isSeatReserved`, string results of `requestSeats`) are not modelled. Their expected outcomes are stated on `State()` instead.
- `Collections.sort` is modelled by its result, a stable ascending sort written as insertion sort. `OrderedUnique` shows that any list holding the same seats in the strict priority order equals `PrioritySort`'s list. A stable sort by distance of the row-major list is in that order. TimSort's internals and the in-place rearrangement of the Java list are not modelled.
- The priority list holds coordinates, not the `Seat` objects it shares with the chart. The engine only reads a list entry's row and column, so the aliasing is not modelled.
- The getters `getRow`, `getColumn` and `getDistance` are the immutable fields `row`, `column` and `distance` of `Seat`. No setter exists, so they keep the constructor's arguments.
- Java `int` overflow is not modelled:
  - in `calculateDistance`, in the window arithmetic and in `compareTo`'s subtraction;
  - in the `+ 1` of `getSeatLabel`.
  Integers are unbounded.
- The `NegativeArraySizeException` that `new Seat[rowCount][seatCount]` throws for a negative dimension (`Seating.java:49`) is not modelled, because the constructor takes `nat` dimensions.
- `WindowStart` uses Dafny's division for `total / 2`. It differs from Java's truncating division only for negative totals, which fail before any window is used.
- SeatingEngine.Seating.FindSeats: states the returned seat's row and column, not that it is the very object stored in the chart cell.
- SeatingEngine.Seating.InitializeRow, SeatingEngine.Seating.CountFree, SeatingEngine.Seating.ReserveWindow and SeatingEngine.Seating.ReserveSeat: these are the inner loops and loop bodies of the Java methods, written as separate methods.
- RequestScenario.FreshChartScenario: proved for at least 3 rows, which covers the tests' charts of at least 4 rows. The tests' random dimensions are replaced by all dimensions.
