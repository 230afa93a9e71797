/**
 * What Seating.java does to the chart, stated on values: the flags of every
 * seat and the priority list, and how preReserveSeat and requestSeats change
 * them. The class in SeatingEngine is proved to follow these functions.
 */
module Allocation {
  import opened Wrappers
  import opened PriorityOrder

  /** The exception ArrayList.remove throws for an index at or past the end. */
  datatype JavaException = IndexOutOfBounds(index: int, size: int)

  /**
   * The engine's state: the chart's dimensions, the priority list, and the
   * seats whose `reserved` and `preReservation` flags are set.
   */
  datatype ChartState = ChartState(
    rowCount: nat,
    seatCount: nat,
    queue: seq<Coord>,
    reserved: set<Coord>,
    preReserved: set<Coord>)

  /** The seats for which Seat.isReserved() holds. */
  function Occupied(st: ChartState): set<Coord> {
    st.reserved + st.preReserved
  }

  /** The state after construction: no flag set, every seat in the sorted priority list. */
  function Initial(rows: nat, cols: nat): ChartState {
    ChartState(rows, cols, PrioritySort(cols, RowMajor(rows, cols)), {}, {})
  }

  /** preReserveSeat with 1-based coordinates: flags that seat if it exists, else does nothing. */
  function AfterPreReserve(st: ChartState, row: int, column: int): (st': ChartState)
    ensures st'.queue == st.queue && st'.reserved == st.reserved
    ensures st'.rowCount == st.rowCount && st'.seatCount == st.seatCount
    ensures st.preReserved <= st'.preReserved <= st.preReserved + {(row - 1, column - 1)}
    ensures (row - 1, column - 1) in st'.preReserved <==>
      IsValidSeat(st.rowCount, st.seatCount, row - 1, column - 1) || (row - 1, column - 1) in st.preReserved
  {
    if IsValidSeat(st.rowCount, st.seatCount, row - 1, column - 1)
    then st.(preReserved := st.preReserved + {(row - 1, column - 1)})
    else st
  }

  /** The first column of the window findSeats checks around an anchor column. */
  function WindowStart(col: int, total: int): int {
    col - total / 2
  }

  /** The `total` seats of `row` from column `start` on. */
  function Window(row: int, start: int, total: nat): (w: set<Coord>)
    ensures forall p: Coord :: p in w <==> p.0 == row && start <= p.1 < start + total
  {
    set i | start <= i < start + total :: (row, i)
  }

  /**
   * The inner loop of findSeats counts `total` seats: every seat of the
   * window around the anchor exists and is neither reserved nor pre-reserved.
   * A negative total is never reached by the counter.
   */
  predicate Fits(st: ChartState, anchor: Coord, total: int) {
    total >= 0 &&
    forall i :: WindowStart(anchor.1, total) <= i < WindowStart(anchor.1, total) + total ==>
      IsValidSeat(st.rowCount, st.seatCount, anchor.0, i) && (anchor.0, i) !in Occupied(st)
  }

  /** The index at which findSeats stops: the first anchor of q that fits, or |q| if none does. */
  function FirstFit(q: seq<Coord>, st: ChartState, total: int): (k: nat)
    ensures k <= |q|
    ensures forall j :: 0 <= j < k ==> !Fits(st, q[j], total)
    ensures k < |q| ==> Fits(st, q[k], total)
  {
    if q == [] then 0
    else if Fits(st, q[0], total) then 0
    else 1 + FirstFit(q[1..], st, total)
  }

  /** FirstFit is the only index with its two properties. */
  lemma FirstFitUnique(q: seq<Coord>, st: ChartState, total: int, k: int)
    requires 0 <= k <= |q|
    requires forall j :: 0 <= j < k ==> !Fits(st, q[j], total)
    requires k < |q| ==> Fits(st, q[k], total)
    ensures FirstFit(q, st, total) == k
  {
  }

  /**
   * requestSeats: findSeats removes entry k of the priority list, then the
   * window of the anchor found there is reserved; if no anchor fits, remove
   * is called with k == size and throws, and nothing changes.
   */
  function AfterRequest(st: ChartState, total: int): Result<ChartState, JavaException> {
    var k := FirstFit(st.queue, st, total);
    if k == |st.queue| then Failure(IndexOutOfBounds(k, |st.queue|))
    else
      var anchor := st.queue[k];
      Success(st.(queue := st.queue[..k] + st.queue[k + 1..],
                  reserved := st.reserved + Window(anchor.0, WindowStart(anchor.1, total), total)))
  }

  /**
   * The invariant the engine keeps: the priority list holds chart seats in
   * the strict priority order, flags are set only on chart seats, and every
   * seat that has left the list is reserved.
   */
  ghost predicate Consistent(st: ChartState) {
    && (forall p :: p in st.queue ==> IsValidSeat(st.rowCount, st.seatCount, p.0, p.1))
    && Ordered(st.seatCount, st.queue)
    && (forall p :: p in Occupied(st) ==> IsValidSeat(st.rowCount, st.seatCount, p.0, p.1))
    && (forall p: Coord :: IsValidSeat(st.rowCount, st.seatCount, p.0, p.1) && p !in st.queue ==> p in st.reserved)
  }

  /**
   * After construction the priority list holds each of the rowCount * seatCount
   * seats exactly once, ascending by distance, equal distances in row-major
   * order; no seat is taken.
   */
  lemma InitialState(rows: nat, cols: nat)
    ensures Consistent(Initial(rows, cols))
    ensures |Initial(rows, cols).queue| == rows * cols
    ensures forall p: Coord :: p in Initial(rows, cols).queue <==> IsValidSeat(rows, cols, p.0, p.1)
    ensures forall i, j :: 0 <= i < j < |Initial(rows, cols).queue| ==>
      Initial(rows, cols).queue[i] != Initial(rows, cols).queue[j]
    ensures SortedByKey(cols, Initial(rows, cols).queue)
    ensures Occupied(Initial(rows, cols)) == {}
  {
    var xs := RowMajor(rows, cols);
    var q := PrioritySort(cols, xs);
    RowMajorContents(rows, cols);
    PrioritySortOrdered(cols, xs);
    PrioritySortPermutes(cols, xs);
    forall p: Coord ensures p in q <==> p in xs {
      assert p in q <==> p in multiset(q);
    }
    assert |q| == |multiset(q)| == |xs|;
  }

  /** An anchor's window contains the anchor itself when at least one seat is requested. */
  lemma AnchorInWindow(anchor: Coord, total: int)
    requires total >= 1
    ensures anchor in Window(anchor.0, WindowStart(anchor.1, total), total)
  {
  }

  /** Widening a window by one seat adds the seat to its right. */
  lemma WindowGrows(row: int, start: int, total: nat)
    ensures Window(row, start, total + 1) == Window(row, start, total) + {(row, start + total)}
  {
  }

  lemma {:induction false} WindowSize(row: int, start: int, total: nat)
    ensures |Window(row, start, total)| == total
  {
    if total > 0 {
      WindowSize(row, start, total - 1);
      WindowGrows(row, start, total - 1);
      var w, w' := Window(row, start, total), Window(row, start, total - 1);
      var last := (row, start + total - 1);
      assert last !in w';
      assert |w' + {last}| == |w'| + 1;
    }
  }

  lemma RemoveKeeps(q: seq<Coord>, k: int, p: Coord)
    requires 0 <= k < |q|
    ensures p in q[..k] + q[k + 1..] <==> exists i :: 0 <= i < |q| && i != k && q[i] == p
  {
    var r := q[..k] + q[k + 1..];
    if p in r {
      var j :| 0 <= j < |r| && r[j] == p;
      var i := if j < k then j else j + 1;
      assert q[i] == p;
    }
    if i :| 0 <= i < |q| && i != k && q[i] == p {
      var j := if i < k then i else i - 1;
      assert r[j] == p;
    }
  }

  /**
   * What one request does. It fails, with remove's exception at index
   * |queue|, exactly when no anchor fits; the state is then unchanged. On
   * success the anchor is the first fitting entry of the list; it is removed,
   * and the `total` seats of its window, all in one row, on the chart and
   * previously free, become reserved, the anchor among them. Nothing else
   * changes.
   */
  lemma RequestOutcome(st: ChartState, total: int)
    requires total >= 1
    ensures AfterRequest(st, total).Failure? <==> (forall p :: p in st.queue ==> !Fits(st, p, total))
    ensures AfterRequest(st, total).Failure? ==>
      AfterRequest(st, total).error == IndexOutOfBounds(|st.queue|, |st.queue|)
    ensures AfterRequest(st, total).Success? ==>
      var k := FirstFit(st.queue, st, total);
      var anchor := st.queue[k];
      var w := Window(anchor.0, WindowStart(anchor.1, total), total);
      var st' := AfterRequest(st, total).value;
      && k < |st.queue|
      && anchor in w
      && |w| == total
      && (forall p :: p in w ==> IsValidSeat(st.rowCount, st.seatCount, p.0, p.1) && p !in Occupied(st))
      && st'.reserved == st.reserved + w
      && |st'.reserved| == |st.reserved| + total
      && st'.preReserved == st.preReserved
      && st'.queue == st.queue[..k] + st.queue[k + 1..]
      && st'.rowCount == st.rowCount && st'.seatCount == st.seatCount
  {
    var k := FirstFit(st.queue, st, total);
    if k < |st.queue| {
      var anchor := st.queue[k];
      var w := Window(anchor.0, WindowStart(anchor.1, total), total);
      WindowSize(anchor.0, WindowStart(anchor.1, total), total);
      assert w !! st.reserved;
      assert |st.reserved + w| == |st.reserved| + |w|;
    } else {
      forall p | p in st.queue ensures !Fits(st, p, total) {
        var i :| 0 <= i < |st.queue| && st.queue[i] == p;
      }
    }
  }

  /** preReserveSeat keeps the invariant. */
  lemma PreReservePreserves(st: ChartState, row: int, column: int)
    requires Consistent(st)
    ensures Consistent(AfterPreReserve(st, row, column))
  {
  }

  /** Pre-reserving the same seat twice is the same as pre-reserving it once. */
  lemma PreReserveIdempotent(st: ChartState, row: int, column: int)
    ensures AfterPreReserve(AfterPreReserve(st, row, column), row, column) == AfterPreReserve(st, row, column)
  {
  }

  /** A successful request of at least one seat keeps the invariant: the removed anchor is now reserved. */
  lemma RequestPreserves(st: ChartState, total: int)
    requires Consistent(st) && total >= 1
    requires AfterRequest(st, total).Success?
    ensures Consistent(AfterRequest(st, total).value)
  {
    RequestOutcome(st, total);
    var k := FirstFit(st.queue, st, total);
    var st' := AfterRequest(st, total).value;
    var anchor := st.queue[k];
    RemoveOrdered(st.seatCount, st.queue, k);
    forall p | p in st'.queue ensures IsValidSeat(st.rowCount, st.seatCount, p.0, p.1) {
      RemoveKeeps(st.queue, k, p);
    }
    forall p: Coord | IsValidSeat(st.rowCount, st.seatCount, p.0, p.1) && p !in st'.queue
      ensures p in st'.reserved
    {
      RemoveKeeps(st.queue, k, p);
    }
  }

  /**
   * findSeats picks the best fitting anchor: on a list in the strict priority
   * order, an anchor that fits while every anchor before it in that order does
   * not is the one found.
   */
  lemma FirstFitIsBest(st: ChartState, total: int, x: Coord)
    requires Ordered(st.seatCount, st.queue)
    requires x in st.queue && Fits(st, x, total)
    requires forall y :: y in st.queue && Before(st.seatCount, y, x) ==> !Fits(st, y, total)
    ensures FirstFit(st.queue, st, total) < |st.queue|
    ensures st.queue[FirstFit(st.queue, st, total)] == x
  {
    var q := st.queue;
    var k := FirstFit(q, st, total);
    var m :| 0 <= m < |q| && q[m] == x;
    assert k <= m;
  }

  /**
   * One request on a consistent state, told by its best fitting anchor x: it
   * succeeds, reserves exactly x's window, and the state stays consistent.
   */
  lemma RequestTakesBest(st: ChartState, total: int, x: Coord)
    requires Consistent(st) && total >= 1
    requires x in st.queue && Fits(st, x, total)
    requires forall y :: y in st.queue && Before(st.seatCount, y, x) ==> !Fits(st, y, total)
    ensures AfterRequest(st, total).Success?
    ensures var st' := AfterRequest(st, total).value;
      && Consistent(st')
      && st'.reserved == st.reserved + Window(x.0, WindowStart(x.1, total), total)
      && st'.preReserved == st.preReserved
      && st'.rowCount == st.rowCount && st'.seatCount == st.seatCount
  {
    FirstFitIsBest(st, total, x);
    RequestPreserves(st, total);
  }
}
