/** The date picker: its display format, the day strings of the calendar grid, the min/max test
    and the select and clear handlers. Calendar arithmetic (which day each cell is) belongs to
    the date library and is passed in. */
module DatePicker {
  import opened Remote
  import Text
  import Dashboard

  /** `formatDateForDisplay`: text of exactly three '-'-parts becomes `dd/mm/y` with day and
      month padded (empty parts included); any other non-empty text is handed to the locale's
      date formatting, given here as `localeDate`. */
  function FormatDateForDisplay(date: string, localeDate: string -> string): (r: string)
    ensures date == "" ==> r == ""
  {
    if date == "" then ""
    else
      var parts := Text.Split(date, '-');
      if |parts| == 3 then Text.PadStart2(parts[2]) + "/" + Text.PadStart2(parts[1]) + "/" + parts[0]
      else localeDate(date)
  }

  /** Three dash-free parts are shown day first, and this agrees with the dashboard's format
      whenever all three are non-empty. */
  lemma DisplayThreeParts(y: string, m: string, d: string, localeDate: string -> string)
    requires '-' !in y && '-' !in m && '-' !in d
    ensures FormatDateForDisplay(y + "-" + m + "-" + d, localeDate)
         == Text.PadStart2(d) + "/" + Text.PadStart2(m) + "/" + y
    ensures y != "" && m != "" && d != "" ==>
      FormatDateForDisplay(y + "-" + m + "-" + d, localeDate) == Dashboard.FormatDateBR(y + "-" + m + "-" + d)
  {
    SplitThreeParts(y, m, d);
    if y != "" && m != "" && d != "" {
      Dashboard.FormatDateBRIso(y, m, d);
    }
  }

  /** A date written with two dashes splits into its three parts. */
  lemma SplitThreeParts(y: string, m: string, d: string)
    requires '-' !in y && '-' !in m && '-' !in d
    ensures Text.Split(y + "-" + m + "-" + d, '-') == [y, m, d]
  {
    Text.SplitNoSeparator(d, '-');
    Text.SplitFirstPart(m, '-', d);
    assert m + ['-'] + d == m + "-" + d;
    Text.SplitFirstPart(y, '-', m + "-" + d);
    assert y + ['-'] + (m + "-" + d) == y + "-" + m + "-" + d;
  }

  /** The two formats differ on empty parts: "--" is "00/00/" here and "--" on the dashboard. */
  lemma EmptyPartsDiffer(localeDate: string -> string)
    ensures FormatDateForDisplay("--", localeDate) == "00/00/"
    ensures Dashboard.FormatDateBR("--") == "--"
  {
    DisplayThreeParts("", "", "", localeDate);
    Dashboard.FormatDateBRMalformed("", "");
    assert "" + "--" + "" == "--";
  }

  /** A day or month number padded to two digits. */
  function Pad2(n: nat): string
  {
    Text.PadStart2(Text.NatToString(n))
  }

  /** Below 100, the padded number is its tens digit and its units digit. */
  lemma Pad2Digits(n: nat)
    requires n < 100
    ensures Pad2(n) == [Text.Digit(n / 10), Text.Digit(n % 10)]
  {
    var q, r := n / 10, n % 10;
    assert n == q * 10 + r && r < 10;
    assert q < 10;
    if n < 10 {
      assert q == 0 && r == n;
      assert Text.NatToString(n) == [Text.Digit(n)];
      assert Text.Digit(0) == '0';
    } else {
      assert Text.NatToString(q) == [Text.Digit(q)];
      assert Text.NatToString(n) == [Text.Digit(q)] + [Text.Digit(r)];
    }
  }

  /** The `yyyy-mm-dd` text of a grid cell. */
  function DayString(year: nat, month: nat, day: nat): (r: string)
    ensures Text.NatToString(year) <= r
  {
    Text.NatToString(year) + "-" + Pad2(month) + "-" + Pad2(day)
  }

  /** Padded numbers below 100 compare as text as they do as numbers. */
  lemma Pad2Order(a: nat, b: nat)
    requires a < 100 && b < 100
    ensures |Pad2(a)| == 2 && |Pad2(b)| == 2
    ensures Text.LexLess(Pad2(a), Pad2(b)) <==> a < b
    ensures Pad2(a) == Pad2(b) <==> a == b
  {
    Pad2Digits(a);
    Pad2Digits(b);
    DigitPairOrder(a, b);
  }

  /** The same on the digit pairs themselves. */
  lemma DigitPairOrder(a: nat, b: nat)
    requires a < 100 && b < 100
    ensures Text.LexLess([Text.Digit(a / 10), Text.Digit(a % 10)], [Text.Digit(b / 10), Text.Digit(b % 10)]) <==> a < b
    ensures [Text.Digit(a / 10), Text.Digit(a % 10)] == [Text.Digit(b / 10), Text.Digit(b % 10)] <==> a == b
  {
    var qa, ra, qb, rb := a / 10, a % 10, b / 10, b % 10;
    TensUnits(a, b);
    assert qa < 10 && qb < 10;
    DigitOrder(qa, qb);
    DigitOrder(ra, rb);
    LexLessTwo(Text.Digit(qa), Text.Digit(ra), Text.Digit(qb), Text.Digit(rb));
  }

  lemma DigitOrder(x: nat, y: nat)
    requires x < 10 && y < 10
    ensures Text.Digit(x) < Text.Digit(y) <==> x < y
    ensures Text.Digit(x) == Text.Digit(y) <==> x == y
  {
  }

  lemma LexLessTwo(c0: char, c1: char, e0: char, e1: char)
    ensures Text.LexLess([c0, c1], [e0, e1]) <==> c0 < e0 || (c0 == e0 && c1 < e1)
    ensures [c0, c1] == [e0, e1] <==> c0 == e0 && c1 == e1
  {
    var s, t := [c0, c1], [e0, e1];
    assert s[0] == c0 && t[0] == e0 && s[1..] == [c1] && t[1..] == [e1];
    assert [c1][0] == c1 && [e1][0] == e1 && [c1][1..] == [] && [e1][1..] == [];
    assert !Text.LexLess([], []);
    assert Text.LexLess([c1], [e1]) <==> c1 < e1;
    assert s == t ==> s[0] == t[0] && s[1] == t[1];
  }

  lemma TensUnits(a: nat, b: nat)
    ensures a < b <==> a / 10 < b / 10 || (a / 10 == b / 10 && a % 10 < b % 10)
    ensures a == b <==> a / 10 == b / 10 && a % 10 == b % 10
  {
    var qa, ra, qb, rb := a / 10, a % 10, b / 10, b % 10;
    assert a == qa * 10 + ra && b == qb * 10 + rb;
    if qa < qb {
      assert qa * 10 + 10 <= qb * 10;
    } else if qb < qa {
      assert qb * 10 + 10 <= qa * 10;
    }
  }

  /** Behind a separator, the order of the padded number decides. */
  lemma DashPad2Order(a: nat, b: nat, x: string, y: string)
    requires a < 100 && b < 100
    ensures Text.LexLess("-" + Pad2(a) + x, "-" + Pad2(b) + y) <==> a < b || (a == b && Text.LexLess(x, y))
    ensures "-" + Pad2(a) == "-" + Pad2(b) <==> a == b
  {
    Pad2Order(a, b);
    Text.LexLessAfterPrefix("-" + Pad2(a), x, "-" + Pad2(b), y);
    Text.LexLessAfterPrefix("-", Pad2(a), "-", Pad2(b));
    if "-" + Pad2(a) == "-" + Pad2(b) {
      assert Pad2(a) == ("-" + Pad2(a))[1..];
    }
  }

  /** The month and day part of a day string, `-mm-dd`. */
  function MonthDay(month: nat, day: nat): string
  {
    "-" + Pad2(month) + "-" + Pad2(day)
  }

  lemma MonthDayOrder(m1: nat, d1: nat, m2: nat, d2: nat)
    requires m1 < 100 && d1 < 100 && m2 < 100 && d2 < 100
    ensures Text.LexLess(MonthDay(m1, d1), MonthDay(m2, d2)) <==> m1 < m2 || (m1 == m2 && d1 < d2)
  {
    var D1, D2 := "-" + Pad2(d1), "-" + Pad2(d2);
    assert Text.LexLess(D1, D2) <==> d1 < d2 by {
      DashPad2Order(d1, d2, "", "");
      assert D1 + "" == D1 && D2 + "" == D2;
    }
    assert (Text.LexLess(MonthDay(m1, d1), MonthDay(m2, d2))
            <==> m1 < m2 || (m1 == m2 && Text.LexLess(D1, D2))) by {
      DashPad2Order(m1, m2, D1, D2);
      DashAssoc2(Pad2(m1), Pad2(d1));
      DashAssoc2(Pad2(m2), Pad2(d2));
    }
  }

  lemma DayStringSplit(y: nat, m: nat, d: nat)
    ensures DayString(y, m, d) == Text.NatToString(y) + MonthDay(m, d)
  {
    DashAssoc(Text.NatToString(y), Pad2(m), Pad2(d));
  }

  lemma DashAssoc2(p: string, q: string)
    ensures "-" + p + "-" + q == "-" + p + ("-" + q)
  {
  }

  lemma DashAssoc(a: string, p: string, q: string)
    ensures a + "-" + p + "-" + q == a + ("-" + p + "-" + q)
  {
  }

  /** The grid's day strings of years with the same number of digits compare as text exactly
      as the dates compare, which is what the min/max test relies on. */
  lemma DayStringOrder(y1: nat, m1: nat, d1: nat, y2: nat, m2: nat, d2: nat)
    requires m1 < 100 && d1 < 100 && m2 < 100 && d2 < 100
    requires |Text.NatToString(y1)| == |Text.NatToString(y2)|
    ensures Text.LexLess(DayString(y1, m1, d1), DayString(y2, m2, d2))
        <==> (y1 < y2 || (y1 == y2 && (m1 < m2 || (m1 == m2 && d1 < d2))))
  {
    var Y1, Y2 := Text.NatToString(y1), Text.NatToString(y2);
    var R1, R2 := MonthDay(m1, d1), MonthDay(m2, d2);
    assert Text.LexLess(R1, R2) <==> m1 < m2 || (m1 == m2 && d1 < d2) by {
      MonthDayOrder(m1, d1, m2, d2);
    }
    assert (Text.LexLess(Y1, Y2) <==> y1 < y2) && (Y1 == Y2 <==> y1 == y2) by {
      Text.NatToStringOrder(y1, y2);
    }
    assert (Text.LexLess(DayString(y1, m1, d1), DayString(y2, m2, d2))
            <==> Text.LexLess(Y1, Y2) || (Y1 == Y2 && Text.LexLess(R1, R2))) by {
      Text.LexLessAfterPrefix(Y1, R1, Y2, R2);
      DayStringSplit(y1, m1, d1);
      DayStringSplit(y2, m2, d2);
    }
  }

  /** `isDisabled`: before a set minimum or after a set maximum, by text comparison; an empty
      bound is no bound. */
  predicate IsDisabled(date: string, min: string, max: string)
  {
    (min != "" && Text.LexLess(date, min)) || (max != "" && Text.LexLess(max, date))
  }

  /** For grid days and bounds of four-digit years, a day is disabled exactly when its date is
      before the minimum's or after the maximum's. */
  lemma DisabledByDate(y: nat, m: nat, d: nat, ly: nat, lm: nat, ld: nat, hy: nat, hm: nat, hd: nat)
    requires 1000 <= y < 10000 && 1000 <= ly < 10000 && 1000 <= hy < 10000
    requires m < 100 && d < 100 && lm < 100 && ld < 100 && hm < 100 && hd < 100
    ensures IsDisabled(DayString(y, m, d), DayString(ly, lm, ld), DayString(hy, hm, hd))
        <==> ((y < ly || (y == ly && (m < lm || (m == lm && d < ld))))
              || (hy < y || (hy == y && (hm < m || (hm == m && hd < d)))))
  {
    FourDigits(y);
    FourDigits(ly);
    FourDigits(hy);
    DayStringOrder(y, m, d, ly, lm, ld);
    DayStringOrder(hy, hm, hd, y, m, d);
  }

  lemma FourDigits(y: nat)
    requires 1000 <= y < 10000
    ensures |Text.NatToString(y)| == 4
  {
    assert |Text.NatToString(y / 1000)| == 1;
    assert |Text.NatToString(y / 100)| == 2;
    assert |Text.NatToString(y / 10)| == 3;
  }

  /** A grid cell, as the loop computes it. */
  datatype Cell = Cell(date: string, inMonth: bool, isToday: bool, isSelected: bool, isDisabled: bool)

  /** A calendar day: year, month (1 to 12) and day of the month. */
  datatype Day = Day(year: nat, month: nat, day: nat)

  function DayText(d: Day): string
  {
    DayString(d.year, d.month, d.day)
  }

  /** The cell of a day: its text, whether it is in the month shown, today, the selected day,
      or outside the bounds. */
  function CellOf(d: Day, shownMonth: nat, today: Day, selectedDate: string, min: string, max: string): (c: Cell)
    ensures c.date == DayText(d) && c.inMonth == (d.month == shownMonth) && c.isToday == (d == today)
    ensures c.isSelected <==> c.date == selectedDate
    ensures c.isDisabled <==> IsDisabled(c.date, min, max)
  {
    var date := DayText(d);
    Cell(date, d.month == shownMonth, d == today, date == selectedDate, IsDisabled(date, min, max))
  }

  /** The number of cells in the grid: six weeks. */
  const GridSize: nat := 42

  /** `generateCalendarDays`: 42 cells from the grid's first day; `dayAt(i)` is the day `i`
      days after it, as the date library computes it. */
  method GenerateCalendarDays(dayAt: nat -> Day, shownMonth: nat, today: Day,
                              selectedDate: string, min: string, max: string)
    returns (days: seq<Cell>)
    ensures |days| == GridSize
    ensures forall i :: 0 <= i < GridSize ==> days[i] == CellOf(dayAt(i), shownMonth, today, selectedDate, min, max)
  {
    days := [];
    var i := 0;
    while i < GridSize
      invariant 0 <= i <= GridSize && |days| == i
      invariant forall k :: 0 <= k < i ==> days[k] == CellOf(dayAt(k), shownMonth, today, selectedDate, min, max)
    {
      var current := dayAt(i);
      var date := DayText(current);
      days := days + [Cell(date, current.month == shownMonth, current == today,
                           date == selectedDate, IsDisabled(date, min, max))];
      i := i + 1;
    }
  }

  class Picker {
    var isOpen: bool
    var selectedDate: string
    var displayValue: string

    constructor (value: string, localeDate: string -> string)
      ensures !isOpen && selectedDate == value && displayValue == FormatDateForDisplay(value, localeDate)
    {
      isOpen := false;
      selectedDate := value;
      displayValue := FormatDateForDisplay(value, localeDate);
    }

    /** The effect on a new `value` from the owner. */
    method SyncValue(value: string, localeDate: string -> string)
      modifies this
      ensures selectedDate == value && displayValue == FormatDateForDisplay(value, localeDate)
      ensures isOpen == old(isOpen)
    {
      selectedDate := value;
      displayValue := FormatDateForDisplay(value, localeDate);
    }

    /** `handleDateSelect`: selects the day, shows it formatted, emits the same text and
        closes. */
    method HandleDateSelect(date: string, localeDate: string -> string) returns (emitted: string)
      modifies this
      ensures selectedDate == date && emitted == date
      ensures displayValue == FormatDateForDisplay(date, localeDate)
      ensures !isOpen
    {
      selectedDate := date;
      displayValue := FormatDateForDisplay(date, localeDate);
      emitted := date;
      isOpen := false;
    }

    /** A click on a grid cell selects it unless it is disabled. */
    method ClickDay(cell: Cell, localeDate: string -> string) returns (emitted: Option<string>)
      modifies this
      ensures cell.isDisabled ==>
        emitted.None? && selectedDate == old(selectedDate) && displayValue == old(displayValue) && isOpen == old(isOpen)
      ensures !cell.isDisabled ==> emitted == Some(cell.date) && selectedDate == cell.date && !isOpen
    {
      if cell.isDisabled {
        emitted := None;
      } else {
        var e := HandleDateSelect(cell.date, localeDate);
        emitted := Some(e);
      }
    }

    /** `handleClear`: empties the selection and the display and emits the empty text; the
        list stays as it is. */
    method HandleClear() returns (emitted: string)
      modifies this
      ensures selectedDate == "" && displayValue == "" && emitted == ""
      ensures isOpen == old(isOpen)
    {
      selectedDate := "";
      displayValue := "";
      emitted := "";
    }

    /** A click outside the picker closes it. */
    method ClickOutside()
      modifies this
      ensures !isOpen && selectedDate == old(selectedDate) && displayValue == old(displayValue)
    {
      isOpen := false;
    }
  }
}
