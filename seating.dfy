/**
 * Seating.java: the engine object. It owns the chart, a rowCount-by-seatCount
 * array of Seat objects built once, and the priority list, which it sorts once
 * and from which each successful request removes its anchor. Every method is
 * proved to change the engine as the functions of module Allocation say.
 */
module SeatingEngine {
  import opened Wrappers
  import opened SeatModel
  import opened PriorityOrder
  import opened Allocation

  class Seating {
    const rowCount: nat
    const seatCount: nat
    var seatingChart: array2?<Seat?>
    /**
     * The priority list. The Java list holds the Seat objects of the chart;
     * it is only ever read for a seat's row and column, so it is kept here
     * as those coordinates.
     */
    var priorityList: seq<Coord>

    // ghost view of the chart:
    /** The Seat objects of the chart. */
    ghost var Seats: set<Seat>
    /** The coordinates of the seats whose reserved flag is set. */
    ghost var ReservedSeats: set<Coord>
    /** The coordinates of the seats whose pre-reservation flag is set. */
    ghost var PreReservedSeats: set<Coord>

    /** The chart has the declared shape and holds, at (r, c), a seat that knows it is at (r, c). */
    ghost predicate ChartValid()
      reads this`seatingChart, this`Seats, seatingChart
    {
      && seatingChart != null
      && seatingChart.Length0 == rowCount && seatingChart.Length1 == seatCount
      && (forall r, c :: 0 <= r < rowCount && 0 <= c < seatCount ==>
            seatingChart[r, c] != null && seatingChart[r, c] in Seats &&
            seatingChart[r, c].row == r && seatingChart[r, c].column == c &&
            seatingChart[r, c].distance == CalculateDistance(seatCount, r, c))
    }

    /** The seats' flags are those the ghost view records. */
    ghost predicate FlagsAgree()
      reads this`seatingChart, this`Seats, this`ReservedSeats, this`PreReservedSeats, seatingChart, Seats
      requires ChartValid()
    {
      && (forall p :: p in ReservedSeats + PreReservedSeats ==> IsValidSeat(rowCount, seatCount, p.0, p.1))
      && (forall r, c :: 0 <= r < rowCount && 0 <= c < seatCount ==>
            (seatingChart[r, c].reserved <==> (r, c) in ReservedSeats) &&
            (seatingChart[r, c].preReservation <==> (r, c) in PreReservedSeats))
    }

    /** The object invariant: a well-formed chart, its flags recorded, and a priority list of its seats. */
    ghost predicate Valid()
      reads this, seatingChart, Seats
    {
      && ChartValid()
      && FlagsAgree()
      && (forall p :: p in priorityList ==> IsValidSeat(rowCount, seatCount, p.0, p.1))
    }

    /** The engine as a value: dimensions, priority list, and which flags are set where. */
    ghost function State(): ChartState
      reads this
    {
      ChartState(rowCount, seatCount, priorityList, ReservedSeats, PreReservedSeats)
    }

    /** The state the constructor leaves: every seat free, the whole chart in the sorted list. */
    constructor (rowCount: nat, seatCount: nat)
      ensures this.rowCount == rowCount && this.seatCount == seatCount
      ensures Valid() && fresh(seatingChart) && fresh(Seats)
      ensures State() == Initial(rowCount, seatCount)
      ensures Consistent(State())
    {
      this.rowCount := rowCount;
      this.seatCount := seatCount;
      seatingChart := null;
      priorityList := [];
      Seats := {};
      ReservedSeats := {};
      PreReservedSeats := {};
      new;
      InitializeSeatingChart();
      InitialState(rowCount, seatCount);
    }

    /** A seat as the constructor of Seat leaves it, at (r, c) of this chart. */
    ghost predicate NewSeat(s: Seat?, r: int, c: int)
      reads s
    {
      s != null && s.row == r && s.column == c &&
      s.distance == CalculateDistance(seatCount, r, c) &&
      !s.reserved && !s.preReservation
    }

    /** The first `rows` rows of the chart hold freshly built seats. */
    ghost predicate Built(chart: array2<Seat?>, rows: nat)
      reads this`Seats, chart, Seats
      requires rows <= chart.Length0 && seatCount <= chart.Length1
    {
      forall r, c :: 0 <= r < rows && 0 <= c < seatCount ==>
        chart[r, c] in Seats && NewSeat(chart[r, c], r, c)
    }

    /**
     * initializeSeatingChart: creates each seat with its distance, row by row,
     * appends it to the priority list, then sorts the list by distance.
     */
    method InitializeSeatingChart()
      requires priorityList == [] && ReservedSeats == {} && PreReservedSeats == {}
      modifies this
      ensures Valid() && fresh(seatingChart) && fresh(Seats)
      ensures State() == Initial(rowCount, seatCount)
    {
      seatingChart := new Seat?[rowCount, seatCount];
      Seats := {};
      var row := 0;
      while row < rowCount
        invariant 0 <= row <= rowCount
        invariant seatingChart != null && fresh(seatingChart) && fresh(Seats)
        invariant seatingChart.Length0 == rowCount && seatingChart.Length1 == seatCount
        invariant priorityList == RowMajor(row, seatCount)
        invariant ReservedSeats == {} && PreReservedSeats == {}
        invariant Built(seatingChart, row)
      {
        InitializeRow(row);
        row := row + 1;
      }
      assert row == rowCount;
      // Collections.sort: a stable sort by compareTo, that is, by distance.
      priorityList := PrioritySort(seatCount, priorityList);
      BuiltChartValid();
    }

    /** The inner loop of initializeSeatingChart: creates and lists the seats of one row, left to right. */
    method InitializeRow(row: nat)
      requires seatingChart != null && row < rowCount
      requires seatingChart.Length0 == rowCount && seatingChart.Length1 == seatCount
      requires priorityList == RowMajor(row, seatCount)
      requires Built(seatingChart, row)
      modifies this`priorityList, this`Seats, seatingChart
      ensures priorityList == RowMajor(row + 1, seatCount)
      ensures Built(seatingChart, row + 1)
      ensures fresh(Seats - old(Seats))
    {
      var column := 0;
      while column < seatCount
        invariant 0 <= column <= seatCount
        invariant priorityList == RowMajor(row, seatCount) + RowSeats(row, column)
        invariant Built(seatingChart, row)
        invariant fresh(Seats - old(Seats))
        invariant forall c :: 0 <= c < column ==>
          seatingChart[row, c] in Seats && NewSeat(seatingChart[row, c], row, c)
      {
        var seat := new Seat(row, column, CalculateDistance(seatCount, row, column));
        seatingChart[row, column] := seat;
        priorityList := priorityList + [(row, column)];
        Seats := Seats + {seat};
        column := column + 1;
      }
    }

    /**
     * A chart of freshly built seats with no flag recorded is a valid chart,
     * and the whole chart, sorted, is a list of its seats.
     */
    lemma BuiltChartValid()
      requires seatingChart != null
      requires seatingChart.Length0 == rowCount && seatingChart.Length1 == seatCount
      requires Built(seatingChart, rowCount)
      requires ReservedSeats == {} && PreReservedSeats == {}
      requires priorityList == PrioritySort(seatCount, RowMajor(rowCount, seatCount))
      ensures Valid()
    {
      RowMajorContents(rowCount, seatCount);
      PrioritySortPermutes(seatCount, RowMajor(rowCount, seatCount));
      forall p | p in priorityList ensures IsValidSeat(rowCount, seatCount, p.0, p.1) {
        assert p in multiset(priorityList);
      }
    }

    /**
     * On the chart, Seat.compareTo orders two seats as their distances, the
     * key the priority list is sorted by.
     */
    lemma CompareToFollowsKey(r1: int, c1: int, r2: int, c2: int)
      requires ChartValid()
      requires IsValidSeat(rowCount, seatCount, r1, c1) && IsValidSeat(rowCount, seatCount, r2, c2)
      ensures seatingChart[r1, c1].CompareTo(seatingChart[r2, c2]) < 0 <==> Key(seatCount, (r1, c1)) < Key(seatCount, (r2, c2))
      ensures seatingChart[r1, c1].CompareTo(seatingChart[r2, c2]) == 0 <==> Key(seatCount, (r1, c1)) == Key(seatCount, (r2, c2))
    {
    }

    /**
     * preReserveSeat takes 1-based coordinates: it flags seat (row - 1, column - 1)
     * as pre-reserved if that seat exists, and otherwise does nothing.
     */
    method PreReserveSeat(row: int, column: int)
      requires Valid()
      modifies this`PreReservedSeats, Seats
      ensures Valid()
      ensures State() == AfterPreReserve(old(State()), row, column)
    {
      var r := row - 1;
      var c := column - 1;
      if IsValidSeat(rowCount, seatCount, r, c) {
        seatingChart[r, c].SetPreReservation();
        PreReservedSeats := PreReservedSeats + {(r, c)};
        FlagsAfterSet(r, c);
      }
    }

    /**
     * The loop of requestSeats: reserves the `total` seats of the chart from
     * `seat` rightwards.
     */
    method ReserveWindow(seat: Seat, total: nat)
      requires Valid()
      requires forall j :: seat.column <= j < seat.column + total ==> IsValidSeat(rowCount, seatCount, seat.row, j)
      modifies this`ReservedSeats, Seats
      ensures Valid()
      ensures ReservedSeats == old(ReservedSeats) + Window(seat.row, seat.column, total)
    {
      var i := 0;
      while i < total
        invariant 0 <= i <= total
        invariant Valid()
        invariant ReservedSeats == old(ReservedSeats) + Window(seat.row, seat.column, i)
      {
        assert IsValidSeat(rowCount, seatCount, seat.row, seat.column + i);
        ReserveSeat(seat.row, seat.column + i);
        WindowGrows(seat.row, seat.column, i);
        i := i + 1;
      }
    }

    /** The body of requestSeats' loop: seatingChart[r][c].setReserved() on a chart seat. */
    method ReserveSeat(r: int, c: int)
      requires Valid() && IsValidSeat(rowCount, seatCount, r, c)
      modifies this`ReservedSeats, Seats
      ensures Valid()
      ensures ReservedSeats == old(ReservedSeats) + {(r, c)}
    {
      seatingChart[r, c].SetReserved();
      ReservedSeats := ReservedSeats + {(r, c)};
      FlagsAfterSet(r, c);
    }

    /**
     * After one seat's flag was set, the flags of every other seat are as they
     * were: a seat is found at its own coordinates only.
     */
    lemma FlagsAfterSet(r: int, c: int)
      requires ChartValid() && IsValidSeat(rowCount, seatCount, r, c)
      ensures forall r', c' :: 0 <= r' < rowCount && 0 <= c' < seatCount && (r', c') != (r, c) ==>
        seatingChart[r', c'] != seatingChart[r, c]
    {
    }

    /**
     * findSeats walks the priority list; for each anchor it counts the free
     * seats of the anchor's row from column col - total/2 on. At the first
     * anchor whose count reaches total it returns the window's leftmost seat
     * and removes that anchor from the list; if there is none, remove is
     * called with index == size and throws. No seat changes.
     */
    method FindSeats(total: int) returns (result: Result<Seat, JavaException>)
      requires Valid()
      modifies this`priorityList
      ensures Valid()
      ensures var q := old(priorityList);
        var k := FirstFit(q, old(State()), total);
        if k < |q| then
          && result.Success?
          && result.value.row == q[k].0 && result.value.column == WindowStart(q[k].1, total)
          && priorityList == q[..k] + q[k + 1..]
        else
          result == Failure(IndexOutOfBounds(|q|, |q|)) && priorityList == q
    {
      ghost var st := State();
      var seat: Seat? := null;
      var index := 0;
      while index < |priorityList|
        invariant 0 <= index <= |priorityList|
        invariant priorityList == st.queue
        invariant forall j :: 0 <= j < index ==> !Fits(st, priorityList[j], total)
        decreases |priorityList| - index
      {
        var (row, col) := priorityList[index];
        var seated := CountFree(row, col - total / 2, total);
        if seated == total {
          assert IsValidSeat(rowCount, seatCount, row, col - total / 2) by {
            if total == 0 {
              assert (row, col) in priorityList;
            }
          }
          seat := seatingChart[row, col - total / 2];
          break;
        }
        index := index + 1;
      }
      FirstFitUnique(priorityList, st, total, index);
      if index >= |priorityList| {
        // ArrayList.remove(index) with index == size
        return Failure(IndexOutOfBounds(index, |priorityList|));
      }
      priorityList := priorityList[..index] + priorityList[index + 1..];
      forall p | p in priorityList ensures IsValidSeat(rowCount, seatCount, p.0, p.1) {
        RemoveKeeps(st.queue, index, p);
      }
      return Success(seat);
    }

    /**
     * The inner loop of findSeats: counts the free seats of `row` from column
     * `start` on, and stops at `total`, at the first column off the chart, or
     * at the first seat that is reserved or pre-reserved. The count reaches
     * `total` exactly when the window fits.
     */
    method CountFree(row: int, start: int, total: int) returns (seated: int)
      requires Valid()
      ensures 0 <= seated && (seated <= total || seated == 0)
      ensures seated == total <==> Fits(State(), (row, start + total / 2), total)
    {
      seated := 0;
      var i := start;
      while seated < total
        invariant 0 <= seated && (seated <= total || seated == 0)
        invariant i == start + seated
        invariant forall m :: start <= m < i ==>
          IsValidSeat(rowCount, seatCount, row, m) && (row, m) !in Occupied(State())
      {
        if IsValidSeat(rowCount, seatCount, row, i) && !seatingChart[row, i].IsReserved() {
          seated := seated + 1;
        } else {
          break;
        }
        i := i + 1;
      }
      assert WindowStart(start + total / 2, total) == start;
    }

    /**
     * requestSeats: reserves the `total` seats from the seat findSeats returns
     * on; when findSeats throws, the exception propagates and nothing changes.
     */
    method RequestSeats(total: int) returns (outcome: Outcome<JavaException>)
      requires Valid()
      modifies this`priorityList, this`ReservedSeats, Seats
      ensures Valid()
      ensures var after := AfterRequest(old(State()), total);
        && (after.Success? ==> outcome == Pass && State() == after.value)
        && (after.Failure? ==> outcome == Fail(after.error) && State() == old(State()))
    {
      ghost var st := State();
      ghost var k := FirstFit(st.queue, st, total);
      var best := FindSeats(total);
      if best.Failure? {
        return Fail(best.error);
      }
      var seat := best.value;
      assert Fits(st, st.queue[k], total);
      ReserveWindow(seat, total);
      return Pass;
    }
  }
}
