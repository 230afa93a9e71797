/**
 * The desirability order of Seating.java: every seat's Manhattan distance from
 * the front-row centre seat, the row-major order in which the chart is built,
 * and the list `Collections.sort` makes of it. Seats are named by their
 * 0-based (row, column) coordinates.
 */
module PriorityOrder {

  type Coord = (int, int)

  function Abs(x: int): nat {
    if x < 0 then -x else x
  }

  /** calculateDistance: |r - 0| + |seatCount / 2 - c|, the distance from the best seat (0, seatCount / 2). */
  function CalculateDistance(seatCount: nat, r: int, c: int): (d: nat)
    ensures d == 0 <==> r == 0 && c == seatCount / 2
    ensures d >= Abs(r) && d >= Abs(seatCount / 2 - c)
  {
    Abs(r - 0) + Abs(seatCount / 2 - c)
  }

  /** isValidSeat: the coordinates name a seat of a rowCount-by-seatCount chart. */
  predicate IsValidSeat(rowCount: int, seatCount: int, row: int, column: int) {
    0 <= row < rowCount && 0 <= column < seatCount
  }

  /** The seats a 10-by-10 chart accepts and rejects in the seating tests. */
  lemma ValidSeatExamples()
    ensures !IsValidSeat(10, 10, 11, 10) && !IsValidSeat(10, 10, 10, 10)
    ensures IsValidSeat(10, 10, 0, 0) && IsValidSeat(10, 10, 5, 8)
  {
  }

  /** The distance of a seat of a chart with `seatCount` columns: the key the list is sorted by. */
  function Key(seatCount: nat, p: Coord): nat {
    CalculateDistance(seatCount, p.0, p.1)
  }

  /** The seats of one row, left to right, in the order the inner loop creates them. */
  function RowSeats(row: int, n: nat): seq<Coord> {
    if n == 0 then [] else RowSeats(row, n - 1) + [(row, n - 1)]
  }

  /** The seats of the first `rows` rows in the order the nested loops create them. */
  function RowMajor(rows: nat, cols: nat): seq<Coord> {
    if rows == 0 then [] else RowMajor(rows - 1, cols) + RowSeats(rows - 1, cols)
  }

  /** a comes before b in row-major order. */
  predicate LexLess(a: Coord, b: Coord) {
    a.0 < b.0 || (a.0 == b.0 && a.1 < b.1)
  }

  predicate LexIncreasing(s: seq<Coord>) {
    forall i, j :: 0 <= i < j < |s| ==> LexLess(s[i], s[j])
  }

  lemma {:induction false} RowSeatsAt(row: int, n: nat)
    ensures |RowSeats(row, n)| == n
    ensures forall i :: 0 <= i < n ==> RowSeats(row, n)[i] == (row, i)
  {
    if n > 0 {
      RowSeatsAt(row, n - 1);
    }
  }

  lemma {:induction false} RowMajorLength(rows: nat, cols: nat)
    ensures |RowMajor(rows, cols)| == rows * cols
  {
    if rows > 0 {
      RowMajorLength(rows - 1, cols);
      RowSeatsAt(rows - 1, cols);
      assert (rows - 1) * cols + cols == rows * cols;
    }
  }

  lemma {:induction false} RowMajorMembers(rows: nat, cols: nat)
    ensures forall p: Coord :: p in RowMajor(rows, cols) <==> IsValidSeat(rows, cols, p.0, p.1)
  {
    if rows > 0 {
      RowMajorMembers(rows - 1, cols);
      RowSeatsAt(rows - 1, cols);
      var a, b := RowMajor(rows - 1, cols), RowSeats(rows - 1, cols);
      assert RowMajor(rows, cols) == a + b;
      forall p: Coord | IsValidSeat(rows, cols, p.0, p.1)
        ensures p in a + b
      {
        if p.0 < rows - 1 {
          assert p in a;
        } else {
          assert b[p.1] == p;
        }
      }
    }
  }

  lemma {:induction false} RowMajorIncreasing(rows: nat, cols: nat)
    ensures LexIncreasing(RowMajor(rows, cols))
  {
    if rows > 0 {
      RowMajorIncreasing(rows - 1, cols);
      RowMajorMembers(rows - 1, cols);
      RowSeatsAt(rows - 1, cols);
      var a, b := RowMajor(rows - 1, cols), RowSeats(rows - 1, cols);
      forall i, j | 0 <= i < j < |a + b|
        ensures LexLess((a + b)[i], (a + b)[j])
      {
        if j < |a| {
          assert (a + b)[i] == a[i] && (a + b)[j] == a[j];
        } else if i < |a| {
          assert a[i] in a;
          assert (a + b)[i] == a[i] && (a + b)[j] == b[j - |a|];
        } else {
          assert (a + b)[i] == b[i - |a|] && (a + b)[j] == b[j - |a|];
        }
      }
    }
  }

  /** The nested loops visit every seat of the chart exactly once, in row-major order. */
  lemma RowMajorContents(rows: nat, cols: nat)
    ensures |RowMajor(rows, cols)| == rows * cols
    ensures forall p: Coord :: p in RowMajor(rows, cols) <==> IsValidSeat(rows, cols, p.0, p.1)
    ensures LexIncreasing(RowMajor(rows, cols))
  {
    RowMajorLength(rows, cols);
    RowMajorMembers(rows, cols);
    RowMajorIncreasing(rows, cols);
  }

  /** Insertion of x into a list sorted by distance: after every seat at most as far, before every farther seat. */
  function Insert(cols: nat, q: seq<Coord>, x: Coord): seq<Coord> {
    if q == [] then [x]
    else if Key(cols, x) < Key(cols, q[0]) then [x] + q
    else [q[0]] + Insert(cols, q[1..], x)
  }

  /**
   * The priority list after Collections.sort: a stable sort by distance,
   * written as insertion sort (each seat enters after every earlier seat of
   * equal distance).
   */
  function PrioritySort(cols: nat, xs: seq<Coord>): seq<Coord> {
    if xs == [] then []
    else Insert(cols, PrioritySort(cols, xs[..|xs| - 1]), xs[|xs| - 1])
  }

  /** Insertion adds x and loses nothing. */
  lemma {:induction false} InsertPermutes(cols: nat, q: seq<Coord>, x: Coord)
    ensures multiset(Insert(cols, q, x)) == multiset(q) + multiset{x}
  {
    if q != [] && Key(cols, x) >= Key(cols, q[0]) {
      assert q == [q[0]] + q[1..];
      InsertPermutes(cols, q[1..], x);
    }
  }

  /** Sorting neither adds, drops nor duplicates a seat: the result is a permutation of its input. */
  lemma {:induction false} PrioritySortPermutes(cols: nat, xs: seq<Coord>)
    ensures multiset(PrioritySort(cols, xs)) == multiset(xs)
  {
    if xs != [] {
      var init, last := xs[..|xs| - 1], xs[|xs| - 1];
      assert xs == init + [last];
      PrioritySortPermutes(cols, init);
      InsertPermutes(cols, PrioritySort(cols, init), last);
    }
  }

  predicate SortedByKey(cols: nat, q: seq<Coord>) {
    forall i, j :: 0 <= i < j < |q| ==> Key(cols, q[i]) <= Key(cols, q[j])
  }

  /** The strict priority order: closer first, and at equal distance, earlier in row-major order first. */
  predicate Before(cols: nat, a: Coord, b: Coord) {
    Key(cols, a) < Key(cols, b) || (Key(cols, a) == Key(cols, b) && LexLess(a, b))
  }

  predicate Ordered(cols: nat, q: seq<Coord>) {
    forall i, j :: 0 <= i < j < |q| ==> Before(cols, q[i], q[j])
  }

  lemma {:induction false} InsertSorted(cols: nat, q: seq<Coord>, x: Coord)
    requires SortedByKey(cols, q)
    ensures SortedByKey(cols, Insert(cols, q, x))
  {
    if q != [] && Key(cols, x) >= Key(cols, q[0]) {
      InsertSorted(cols, q[1..], x);
      InsertPermutes(cols, q[1..], x);
      var r := Insert(cols, q[1..], x);
      forall i | 0 <= i < |r| ensures Key(cols, q[0]) <= Key(cols, r[i]) {
        assert r[i] in multiset(r);
      }
    }
  }

  /** Collections.sort leaves the list in ascending order of distance, whatever order it started in. */
  lemma {:induction false} PrioritySortSorted(cols: nat, xs: seq<Coord>)
    ensures SortedByKey(cols, PrioritySort(cols, xs))
  {
    if xs != [] {
      PrioritySortSorted(cols, xs[..|xs| - 1]);
      InsertSorted(cols, PrioritySort(cols, xs[..|xs| - 1]), xs[|xs| - 1]);
    }
  }

  lemma {:induction false} InsertOrdered(cols: nat, q: seq<Coord>, x: Coord)
    requires Ordered(cols, q)
    requires forall y :: y in q ==> LexLess(y, x)
    ensures Ordered(cols, Insert(cols, q, x))
  {
    if q == [] {
    } else if Key(cols, x) < Key(cols, q[0]) {
      var r := [x] + q;
      forall i, j | 0 <= i < j < |r| ensures Before(cols, r[i], r[j]) {
        if i == 0 {
          assert Before(cols, q[0], q[j - 1]) || j == 1;
        }
      }
    } else {
      InsertOrdered(cols, q[1..], x);
      InsertPermutes(cols, q[1..], x);
      var t := Insert(cols, q[1..], x);
      forall j | 0 <= j < |t| ensures Before(cols, q[0], t[j]) {
        assert t[j] in multiset(t);
        if t[j] != x {
          assert t[j] in q[1..];
        }
      }
    }
  }

  /** Sorting the row-major list stably puts the seats in the strict priority order. */
  lemma {:induction false} PrioritySortOrdered(cols: nat, xs: seq<Coord>)
    requires LexIncreasing(xs)
    ensures Ordered(cols, PrioritySort(cols, xs))
  {
    if xs != [] {
      var init, last := xs[..|xs| - 1], xs[|xs| - 1];
      PrioritySortOrdered(cols, init);
      PrioritySortPermutes(cols, init);
      forall y | y in PrioritySort(cols, init) ensures LexLess(y, last) {
        assert y in multiset(PrioritySort(cols, init));
      }
      InsertOrdered(cols, PrioritySort(cols, init), last);
    }
  }

  lemma TailOrdered(cols: nat, a: seq<Coord>)
    requires a != [] && Ordered(cols, a)
    ensures Ordered(cols, a[1..])
  {
    forall i, j | 0 <= i < j < |a| - 1 ensures Before(cols, a[1..][i], a[1..][j]) {
      assert a[1..][i] == a[i + 1] && a[1..][j] == a[j + 1];
    }
  }

  lemma TailMultiset(a: seq<Coord>)
    requires a != []
    ensures multiset(a[1..]) == multiset(a) - multiset{a[0]}
  {
    assert a == [a[0]] + a[1..];
  }

  lemma HeadsAgree(cols: nat, a: seq<Coord>, b: seq<Coord>)
    requires Ordered(cols, a) && Ordered(cols, b)
    requires a != [] && multiset(a) == multiset(b)
    ensures b != [] && a[0] == b[0]
  {
    assert a[0] in multiset(b);
    assert b[0] in multiset(a);
    var i :| 0 <= i < |a| && a[i] == b[0];
    var j :| 0 <= j < |b| && b[j] == a[0];
    assert i == 0 || Before(cols, a[0], b[0]);
    assert j == 0 || Before(cols, b[0], a[0]);
  }

  /**
   * A list in the strict priority order is determined by its elements: any
   * stable ascending sort of the row-major list yields PrioritySort's list.
   */
  lemma {:induction false} OrderedUnique(cols: nat, a: seq<Coord>, b: seq<Coord>)
    requires Ordered(cols, a) && Ordered(cols, b)
    requires multiset(a) == multiset(b)
    ensures a == b
  {
    if a == [] {
      assert |b| == |multiset(b)| == 0;
    } else {
      HeadsAgree(cols, a, b);
      TailOrdered(cols, a);
      TailOrdered(cols, b);
      TailMultiset(a);
      TailMultiset(b);
      OrderedUnique(cols, a[1..], b[1..]);
      ConsTail(a);
      ConsTail(b);
    }
  }

  lemma ConsTail(a: seq<Coord>)
    requires a != []
    ensures a == [a[0]] + a[1..]
  {
  }

  /** Removing one entry keeps the strict priority order. */
  lemma RemoveOrdered(cols: nat, q: seq<Coord>, k: int)
    requires 0 <= k < |q| && Ordered(cols, q)
    ensures Ordered(cols, q[..k] + q[k + 1..])
  {
    var r := q[..k] + q[k + 1..];
    forall i, j | 0 <= i < j < |r| ensures Before(cols, r[i], r[j]) {
      var i', j' := if i < k then i else i + 1, if j < k then j else j + 1;
      assert r[i] == q[i'] && r[j] == q[j'];
    }
  }
}
