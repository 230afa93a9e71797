/**
 * Seat.java: one seat of the chart. Its coordinates and distance are fixed at
 * construction (the Java fields have getters and no setters), and two flags,
 * `reserved` and `preReservation`, are set and cleared in place.
 */
module SeatModel {

  predicate IsDigit(ch: char) {
    '0' <= ch <= '9'
  }

  function DigitChar(d: int): (ch: char)
    requires 0 <= d < 10
    ensures IsDigit(ch) && ch as int - '0' as int == d
  {
    ('0' as int + d) as char
  }

  /** The decimal digits of a non-negative number, most significant first, no leading zeros. */
  function NatToDecimal(n: nat): (s: string)
    ensures 1 <= |s|
    ensures forall i :: 0 <= i < |s| ==> IsDigit(s[i])
    ensures |s| > 1 ==> s[0] != '0'
  {
    if n < 10 then [DigitChar(n)] else NatToDecimal(n / 10) + [DigitChar(n % 10)]
  }

  /** How Java's string concatenation renders an int: a minus sign, then the digits of its magnitude. */
  function IntToDecimal(n: int): (s: string)
    ensures 1 <= |s|
    ensures forall i :: 0 < i < |s| ==> IsDigit(s[i])
    ensures IsDigit(s[0]) <==> n >= 0
    ensures n < 0 ==> s[0] == '-'
  {
    if n < 0 then "-" + NatToDecimal(-n) else NatToDecimal(n)
  }

  function DigitValue(ch: char): nat
    requires IsDigit(ch)
  {
    ch as int - '0' as int
  }

  /** The number a string of decimal digits denotes. */
  function DecimalValue(s: string): nat
    requires forall i :: 0 <= i < |s| ==> IsDigit(s[i])
  {
    if s == [] then 0 else 10 * DecimalValue(s[..|s| - 1]) + DigitValue(s[|s| - 1])
  }

  /** Reading the digits back gives the number that was rendered. */
  lemma {:induction false} DecimalRoundTrip(n: nat)
    ensures DecimalValue(NatToDecimal(n)) == n
  {
    if n >= 10 {
      var s := NatToDecimal(n);
      assert s[..|s| - 1] == NatToDecimal(n / 10);
      DecimalRoundTrip(n / 10);
    }
  }

  /** The int a rendering denotes: an optional minus sign, then decimal digits. */
  function ParseInt(s: string): int
    requires 1 <= |s|
    requires forall i :: 0 < i < |s| ==> IsDigit(s[i])
  {
    if IsDigit(s[0]) then DecimalValue(s) else -(DecimalValue(s[1..]) as int)
  }

  /** Reading a rendered int back gives the int. */
  lemma IntRoundTrip(n: int)
    ensures ParseInt(IntToDecimal(n)) == n
  {
    var s := IntToDecimal(n);
    if n < 0 {
      assert s[1..] == NatToDecimal(-n);
      DecimalRoundTrip(-n);
    } else {
      DecimalRoundTrip(n);
    }
  }

  /** Distinct ints are rendered as distinct strings. */
  lemma IntToDecimalInjective(a: int, b: int)
    requires IntToDecimal(a) == IntToDecimal(b)
    ensures a == b
  {
    IntRoundTrip(a);
    IntRoundTrip(b);
  }

  /** getSeatLabel: "R", the 1-based row, "C", the 1-based column. */
  function SeatLabel(row: int, column: int): string {
    "R" + IntToDecimal(row + 1) + "C" + IntToDecimal(column + 1)
  }

  lemma ConcatAt(a: string, sep: char, b: string)
    ensures (a + [sep] + b)[|a|] == sep
    ensures forall i :: 0 <= i < |a| ==> (a + [sep] + b)[i] == a[i]
  {
  }

  /** A separator that occurs in neither prefix splits a string in one way only. */
  lemma SplitAtSeparator(a: string, b: string, x: string, y: string, sep: char)
    requires forall i :: 0 <= i < |a| ==> a[i] != sep
    requires forall i :: 0 <= i < |x| ==> x[i] != sep
    requires a + [sep] + b == x + [sep] + y
    ensures a == x && b == y
  {
    var s := a + [sep] + b;
    if |a| != |x| {
      // the separator after the shorter prefix faces a character of the longer one
      ConcatAt(a, sep, b);
      ConcatAt(x, sep, y);
      assert false;
    }
    assert a == s[..|a|] == x;
    assert b == s[|a| + 1..] == y;
  }

  /** No two seats share a label: the label determines row and column. */
  lemma LabelIdentifiesSeat(r1: int, c1: int, r2: int, c2: int)
    requires SeatLabel(r1, c1) == SeatLabel(r2, c2)
    ensures r1 == r2 && c1 == c2
  {
    var a, b := IntToDecimal(r1 + 1), IntToDecimal(c1 + 1);
    var x, y := IntToDecimal(r2 + 1), IntToDecimal(c2 + 1);
    var l := SeatLabel(r1, c1);
    assert l == "R" + a + "C" + b == "R" + x + "C" + y;
    assert l[1..] == a + "C" + b == x + "C" + y;
    SplitAtSeparator(a, b, x, y, 'C');
    IntToDecimalInjective(r1 + 1, r2 + 1);
    IntToDecimalInjective(c1 + 1, c2 + 1);
  }

  /** The labels the seat tests expect. */
  lemma LabelExamples()
    ensures SeatLabel(2, 2) == "R3C3"
    ensures SeatLabel(1, 9) == "R2C10"
    ensures SeatLabel(8, 7) == "R9C8"
    ensures SeatLabel(30, 1001) == "R31C1002"
  {
    assert NatToDecimal(10) == "10";
    assert NatToDecimal(31) == "31";
    assert NatToDecimal(100) == "100";
    assert NatToDecimal(1002) == "1002";
  }

  class Seat {
    const row: int
    const column: int
    const distance: int
    var reserved: bool
    var preReservation: bool

    /** A new seat has the given coordinates and distance and neither flag set. */
    constructor (row: int, column: int, distance: int)
      ensures this.row == row && this.column == column && this.distance == distance
      ensures !reserved && !preReservation
      ensures !IsReserved() && StatusSymbol() == '-'
    {
      this.row := row;
      this.column := column;
      this.distance := distance;
      reserved := false;
      preReservation := false;
    }

    function Label(): string {
      SeatLabel(row, column)
    }

    /** toString is the label. */
    function ToString(): string {
      Label()
    }

    method SetReserved()
      modifies this
      ensures reserved && preReservation == old(preReservation)
      ensures IsReserved()
    {
      reserved := true;
    }

    method RemoveReservation()
      modifies this
      ensures !reserved && preReservation == old(preReservation)
      ensures IsReserved() == preReservation
    {
      reserved := false;
    }

    method SetPreReservation()
      modifies this
      ensures preReservation && reserved == old(reserved)
      ensures IsReserved()
    {
      preReservation := true;
    }

    method RemovePreReservation()
      modifies this
      ensures !preReservation && reserved == old(reserved)
      ensures IsReserved() == reserved
    {
      preReservation := false;
    }

    /** Taken, either by a reservation or by a pre-reservation. */
    predicate IsReserved()
      reads this
    {
      reserved || preReservation
    }

    /** 'X' for a pre-reserved seat (even if also reserved), 'O' for a reserved one, '-' for a free one. */
    function StatusSymbol(): (symbol: char)
      reads this
      ensures symbol == 'X' <==> preReservation
      ensures symbol == 'O' <==> reserved && !preReservation
      ensures symbol == '-' <==> !IsReserved()
    {
      if preReservation then 'X' else if reserved then 'O' else '-'
    }

    /** compareTo: negative, zero or positive as this seat is closer to, as close as, or farther from the best seat. */
    function CompareTo(s: Seat): (r: int)
      ensures r < 0 <==> distance < s.distance
      ensures r == 0 <==> distance == s.distance
      ensures r > 0 <==> distance > s.distance
    {
      distance - s.distance
    }
  }
}
