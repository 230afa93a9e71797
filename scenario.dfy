/**
 * The request sequence that SeatingTest.testRequestSeats checks on a fresh
 * chart, proved for every chart of at least 3 rows and 4 columns.
 */
module RequestScenario {
  import opened Wrappers
  import opened PriorityOrder
  import opened Allocation
  import opened SeatingEngine

  /** The chart shape of the scenario, with exactly the given seats reserved and none pre-reserved. */
  ghost predicate Taken(st: ChartState, rows: nat, cols: nat, reserved: set<Coord>) {
    && Consistent(st)
    && st.rowCount == rows && st.seatCount == cols
    && st.reserved == reserved && st.preReserved == {}
  }

  lemma FirstRequest(rows: nat, cols: nat)
    requires rows >= 3 && cols >= 4
    ensures AfterRequest(Initial(rows, cols), 4).Success?
    ensures Taken(AfterRequest(Initial(rows, cols), 4).value, rows, cols, Window(0, cols / 2 - 2, 4))
  {
    InitialState(rows, cols);
    FirstRequestOnFreeChart(Initial(rows, cols), rows, cols);
  }

  /** On a chart with nothing taken, a request for 4 seats takes the middle of row 0. */
  lemma FirstRequestOnFreeChart(st: ChartState, rows: nat, cols: nat)
    requires rows >= 3 && cols >= 4
    requires Taken(st, rows, cols, {})
    ensures AfterRequest(st, 4).Success?
    ensures Taken(AfterRequest(st, 4).value, rows, cols, Window(0, cols / 2 - 2, 4))
  {
    var a1 := (0, cols / 2);
    FreeSeatQueued(st, a1);
    assert Fits(st, a1, 4);
    assert forall y :: y in st.queue ==> !Before(cols, y, a1);
    RequestTakesBest(st, 4, a1);
  }

  /** A chart seat that is not reserved has not left the priority list. */
  lemma FreeSeatQueued(st: ChartState, p: Coord)
    requires Consistent(st)
    requires IsValidSeat(st.rowCount, st.seatCount, p.0, p.1) && p !in st.reserved
    ensures p in st.queue
  {
  }

  /** Every anchor before (1, cols/2) is a seat of row 0 whose 4-seat window holds (0, cols/2). */
  lemma SecondAnchorFirst(st: ChartState, cols: nat)
    requires cols >= 4 && st.seatCount == cols
    requires forall p :: p in st.queue ==> IsValidSeat(st.rowCount, cols, p.0, p.1)
    requires (0, cols / 2) in Occupied(st)
    ensures forall y :: y in st.queue && Before(cols, y, (1, cols / 2)) ==> !Fits(st, y, 4)
  {
    var h := cols / 2;
    forall y | y in st.queue && Before(cols, y, (1, h)) ensures !Fits(st, y, 4) {
      assert y.0 == 0 && h - 1 <= y.1 <= h + 1;
      assert WindowStart(y.1, 4) <= h < WindowStart(y.1, 4) + 4;
    }
  }

  lemma SecondRequest(st: ChartState, rows: nat, cols: nat)
    requires rows >= 3 && cols >= 4
    requires Taken(st, rows, cols, Window(0, cols / 2 - 2, 4))
    ensures AfterRequest(st, 4).Success?
    ensures Taken(AfterRequest(st, 4).value, rows, cols, Window(0, cols / 2 - 2, 4) + Window(1, cols / 2 - 2, 4))
  {
    var h := cols / 2;
    var a2 := (1, h);
    FreeSeatQueued(st, a2);
    assert Fits(st, a2, 4);
    SecondAnchorFirst(st, cols);
    RequestTakesBest(st, 4, a2);
  }

  /** Every seat before the third anchor lies in one of the two windows already taken. */
  lemma ThirdAnchorFirst(st: ChartState, cols: nat)
    requires cols >= 4 && st.seatCount == cols
    requires forall p :: p in st.queue ==> IsValidSeat(st.rowCount, cols, p.0, p.1)
    requires Window(0, cols / 2 - 2, 4) + Window(1, cols / 2 - 2, 4) <= Occupied(st)
    ensures var a3 := if cols > 4 then (0, cols / 2 + 2) else (2, cols / 2);
      forall y :: y in st.queue && Before(cols, y, a3) ==> !Fits(st, y, 1)
  {
    var h := cols / 2;
    var a3 := if cols > 4 then (0, h + 2) else (2, h);
    forall y | y in st.queue && Before(cols, y, a3) ensures !Fits(st, y, 1) {
      assert 0 <= y.0 <= 1 && h - 2 <= y.1 <= h + 1;
      assert y in Occupied(st);
    }
  }

  lemma ThirdRequest(st: ChartState, rows: nat, cols: nat)
    requires rows >= 3 && cols >= 4
    requires Taken(st, rows, cols, Window(0, cols / 2 - 2, 4) + Window(1, cols / 2 - 2, 4))
    ensures AfterRequest(st, 1).Success?
    ensures AfterRequest(st, 1).value.reserved ==
      st.reserved + {if cols > 4 then (0, cols / 2 + 2) else (2, cols / 2)}
    ensures Taken(AfterRequest(st, 1).value, rows, cols,
      st.reserved + {if cols > 4 then (0, cols / 2 + 2) else (2, cols / 2)})
  {
    var h := cols / 2;
    var a3 := if cols > 4 then (0, h + 2) else (2, h);
    assert IsValidSeat(rows, cols, a3.0, a3.1) && a3 !in st.reserved;
    FreeSeatQueued(st, a3);
    assert Fits(st, a3, 1) by {
      assert WindowStart(a3.1, 1) == a3.1;
    }
    ThirdAnchorFirst(st, cols);
    RequestTakesBest(st, 1, a3);
    SingleSeatWindow(a3);
  }

  /** A request for one seat reserves just its anchor. */
  lemma SingleSeatWindow(p: Coord)
    ensures Window(p.0, WindowStart(p.1, 1), 1) == {p}
  {
  }

  /**
   * On a fresh chart: a first request for 4 takes the 4 seats of row 0 around
   * the centre, columns cols/2 - 2 .. cols/2 + 1 (1-based R1C(cols/2 - 1) to
   * R1C(cols/2 + 2)); a second request for 4 takes the same columns of row 1;
   * then a request for 1 takes (0, cols/2 + 2), that is R1C(cols/2 + 3), when
   * there are more than 4 columns, and otherwise (2, cols/2), that is
   * R3C(cols/2 + 1).
   */
  lemma FreshChartScenario(rows: nat, cols: nat)
    requires rows >= 3 && cols >= 4
    ensures var h := cols / 2;
      var r1 := AfterRequest(Initial(rows, cols), 4);
      && r1.Success?
      && r1.value.reserved == Window(0, h - 2, 4)
      && var r2 := AfterRequest(r1.value, 4);
      && r2.Success?
      && r2.value.reserved == Window(0, h - 2, 4) + Window(1, h - 2, 4)
      && var r3 := AfterRequest(r2.value, 1);
      && r3.Success?
      && r3.value.reserved == r2.value.reserved + {if cols > 4 then (0, h + 2) else (2, h)}
  {
    FirstRequest(rows, cols);
    var s1 := AfterRequest(Initial(rows, cols), 4).value;
    SecondRequest(s1, rows, cols);
    var s2 := AfterRequest(s1, 4).value;
    ThirdRequest(s2, rows, cols);
  }

  /**
   * testRequestSeats run against the engine itself: a new Seating, then
   * requests for 4, 4 and 1 seats; every request succeeds and exactly the
   * seats of the scenario end up reserved.
   */
  method FreshChartRequests(rows: nat, cols: nat) returns (seating: Seating, o1: Outcome<JavaException>, o2: Outcome<JavaException>, o3: Outcome<JavaException>)
    requires rows >= 3 && cols >= 4
    ensures o1 == Pass && o2 == Pass && o3 == Pass
    ensures seating.Valid() && seating.PreReservedSeats == {}
    ensures seating.ReservedSeats ==
      Window(0, cols / 2 - 2, 4) + Window(1, cols / 2 - 2, 4) + {if cols > 4 then (0, cols / 2 + 2) else (2, cols / 2)}
  {
    FreshChartScenario(rows, cols);
    seating := new Seating(rows, cols);
    o1 := seating.RequestSeats(4);
    o2 := seating.RequestSeats(4);
    o3 := seating.RequestSeats(1);
  }
}
