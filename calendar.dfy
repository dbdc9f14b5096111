/**
 * Local calendar dates and clock times as the scheduler's browser code handles them
 * through JavaScript `Date`: proleptic Gregorian dates, a day number counted from
 * 1970-01-01 (a Thursday) for ordering and for `getDay()`, "next day" as
 * `setDate(getDate() + 1)`, and the zero-padded `HH:mm` labels of the booking grid.
 */
module Calendar {
  import opened Text

  datatype Date = Date(year: int, month: int, day: int)

  predicate IsLeap(y: int) {
    y % 4 == 0 && (y % 100 != 0 || y % 400 == 0)
  }

  function DaysInMonth(y: int, m: int): (n: int)
    requires 1 <= m <= 12
    ensures 28 <= n <= 31
  {
    if m == 2 then (if IsLeap(y) then 29 else 28)
    else if m == 4 || m == 6 || m == 9 || m == 11 then 30
    else 31
  }

  function DaysInYear(y: int): int {
    if IsLeap(y) then 366 else 365
  }

  /** A date that exists on the calendar. */
  predicate ValidDate(d: Date) {
    1 <= d.month <= 12 && 1 <= d.day <= DaysInMonth(d.year, d.month)
  }

  /** Days of year `y` before the first of month `m`. */
  function DaysBeforeMonth(y: int, m: int): (n: int)
    requires 1 <= m <= 12
    ensures 0 <= n <= 335
  {
    var common :=
      if m == 1 then 0 else if m == 2 then 31 else if m == 3 then 59
      else if m == 4 then 90 else if m == 5 then 120 else if m == 6 then 151
      else if m == 7 then 181 else if m == 8 then 212 else if m == 9 then 243
      else if m == 10 then 273 else if m == 11 then 304 else 334;
    if m > 2 && IsLeap(y) then common + 1 else common
  }

  /** Leap years counted up to (not including) year `y`, up to a constant. */
  function LeapsBefore(y: int): int {
    (y - 1) / 4 - (y - 1) / 100 + (y - 1) / 400
  }

  /** Days from 1970-01-01 to the first of January of year `y`. */
  function DaysBeforeYear(y: int): int {
    365 * (y - 1970) + LeapsBefore(y) - LeapsBefore(1970)
  }

  /** Days from 1970-01-01 to `d` (negative before 1970). */
  function DayNumber(d: Date): int
    requires ValidDate(d)
  {
    DaysBeforeYear(d.year) + DaysBeforeMonth(d.year, d.month) + d.day - 1
  }

  /** The weekday of the day numbered `n`, 0 = Sunday, ..., 6 = Saturday (day 0,
      1 January 1970, was a Thursday). */
  function WeekdayOf(n: int): (w: int)
    ensures 0 <= w < 7
  {
    (n + 4) % 7
  }

  /** `getDay()`: 0 = Sunday, ..., 6 = Saturday. */
  function Weekday(d: Date): (w: int)
    requires ValidDate(d)
    ensures 0 <= w < 7
  {
    WeekdayOf(DayNumber(d))
  }

  /** `setDate(getDate() + 1)` on a date at local midnight. */
  function NextDay(d: Date): (r: Date)
    requires ValidDate(d)
    ensures ValidDate(r)
  {
    if d.day < DaysInMonth(d.year, d.month) then Date(d.year, d.month, d.day + 1)
    else if d.month < 12 then Date(d.year, d.month + 1, 1)
    else Date(d.year + 1, 1, 1)
  }

  /** Each of `y / 4`, `y / 100` and `y / 400` goes up by one from `y - 1` exactly when
      the divisor divides `y`. */
  lemma QuarterStep(y: int)
    ensures y / 4 - (y - 1) / 4 == (if y % 4 == 0 then 1 else 0)
  {
  }

  lemma CenturyStep(y: int)
    ensures y / 100 - (y - 1) / 100 == (if y % 100 == 0 then 1 else 0)
  {
  }

  lemma QuadCenturyStep(y: int)
    ensures y / 400 - (y - 1) / 400 == (if y % 400 == 0 then 1 else 0)
  {
  }

  lemma LeapsStep(y: int)
    ensures LeapsBefore(y + 1) == LeapsBefore(y) + (if IsLeap(y) then 1 else 0)
  {
    QuarterStep(y);
    CenturyStep(y);
    QuadCenturyStep(y);
  }

  /** A year contributes 365 or 366 days. */
  lemma YearStep(y: int)
    ensures DaysBeforeYear(y + 1) == DaysBeforeYear(y) + DaysInYear(y)
  {
    LeapsStep(y);
  }

  /** Month `m` ends where month `m + 1` begins. */
  lemma MonthStep(y: int, m: int)
    requires 1 <= m < 12
    ensures DaysBeforeMonth(y, m + 1) == DaysBeforeMonth(y, m) + DaysInMonth(y, m)
  {
  }

  /** December ends where the next year begins. */
  lemma YearEnd(y: int)
    ensures DaysBeforeMonth(y, 12) + 31 == DaysInYear(y)
  {
  }

  /** The next day is one day number later. */
  lemma NextDayNumber(d: Date)
    requires ValidDate(d)
    ensures DayNumber(NextDay(d)) == DayNumber(d) + 1
  {
    if d.day == DaysInMonth(d.year, d.month) {
      if d.month < 12 {
        MonthStep(d.year, d.month);
      } else {
        YearStep(d.year);
        YearEnd(d.year);
      }
    }
  }

  /** The weekday advances by one, Saturday wrapping to Sunday. */
  lemma NextDayWeekday(d: Date)
    requires ValidDate(d)
    ensures Weekday(NextDay(d)) == (Weekday(d) + 1) % 7
  {
    NextDayNumber(d);
    ModSevenSucc(DayNumber(d) + 4);
  }

  lemma ModSevenSucc(k: int)
    ensures (k + 1) % 7 == (k % 7 + 1) % 7
  {
  }

  /** Every date of year `y` has a day number in [DaysBeforeYear(y), DaysBeforeYear(y + 1)). */
  lemma DayNumberWithinYear(d: Date)
    requires ValidDate(d)
    ensures DaysBeforeYear(d.year) <= DayNumber(d) < DaysBeforeYear(d.year + 1)
  {
    YearStep(d.year);
    MonthBound(d.year, d.month);
  }

  lemma {:induction false} MonthBound(y: int, m: int)
    requires 1 <= m <= 12
    ensures DaysBeforeMonth(y, m) + DaysInMonth(y, m) <= DaysInYear(y)
  {
  }

  lemma {:induction false} YearsOrdered(y1: int, y2: int)
    requires y1 < y2
    ensures DaysBeforeYear(y1 + 1) <= DaysBeforeYear(y2)
    decreases y2 - y1
  {
    if y1 + 1 < y2 {
      YearsOrdered(y1 + 1, y2);
      YearStep(y1 + 1);
    }
  }

  lemma {:induction false} MonthsOrdered(y: int, m1: int, m2: int)
    requires 1 <= m1 < m2 <= 12
    ensures DaysBeforeMonth(y, m1) + DaysInMonth(y, m1) <= DaysBeforeMonth(y, m2)
  {
  }

  /** Calendar order: an earlier (year, month, day) has a smaller day number. */
  predicate DateBefore(a: Date, b: Date) {
    a.year < b.year
    || (a.year == b.year && a.month < b.month)
    || (a.year == b.year && a.month == b.month && a.day < b.day)
  }

  /** Day numbers order valid dates exactly as the calendar does. */
  lemma DayNumberOrder(a: Date, b: Date)
    requires ValidDate(a) && ValidDate(b)
    ensures DateBefore(a, b) <==> DayNumber(a) < DayNumber(b)
    ensures a == b <==> DayNumber(a) == DayNumber(b)
  {
    DayNumberWithinYear(a);
    DayNumberWithinYear(b);
    if a.year < b.year {
      YearsOrdered(a.year, b.year);
    } else if b.year < a.year {
      YearsOrdered(b.year, a.year);
    } else if a.month < b.month {
      MonthsOrdered(a.year, a.month, b.month);
    } else if b.month < a.month {
      MonthsOrdered(a.year, b.month, a.month);
    }
  }

  /** Two valid dates with the same day number are the same date. */
  lemma DayNumberInjective(a: Date, b: Date)
    requires ValidDate(a) && ValidDate(b)
    requires DayNumber(a) == DayNumber(b)
    ensures a == b
  {
    DayNumberOrder(a, b);
  }

  /** `${year}-${month}-${day}` with month and day padded to two digits. */
  function DateLabel(d: Date): (r: string)
    requires ValidDate(d)
  {
    IntToString(d.year) + "-" + PadTwo(d.month) + "-" + PadTwo(d.day)
  }

  /** For four-digit years the label is the ten characters `YYYY-MM-DD`. */
  lemma DateLabelShape(d: Date)
    requires ValidDate(d) && 1000 <= d.year <= 9999
    ensures |DateLabel(d)| == 10
    ensures DateLabel(d)[4] == '-' && DateLabel(d)[7] == '-'
    ensures TwoDigitValue(DateLabel(d)[5..7]) == d.month
    ensures TwoDigitValue(DateLabel(d)[8..10]) == d.day
  {
    NatToStringLength(d.year);
    var r := DateLabel(d);
    assert r[5..7] == PadTwo(d.month);
    assert r[8..10] == PadTwo(d.day);
  }

  /** Labels of dates with four-digit years differ when the dates do. */
  lemma {:induction false} DateLabelInjective(a: Date, b: Date)
    requires ValidDate(a) && 1000 <= a.year <= 9999
    requires ValidDate(b) && 1000 <= b.year <= 9999
    requires DateLabel(a) == DateLabel(b)
    ensures a == b
  {
    DateLabelShape(a);
    DateLabelShape(b);
    NatToStringLength(a.year);
    NatToStringLength(b.year);
    assert NatToString(a.year) == DateLabel(a)[..4] == NatToString(b.year);
    NatToStringInjective(a.year, b.year);
  }

  lemma {:induction false} NatToStringInjective(a: nat, b: nat)
    requires NatToString(a) == NatToString(b)
    ensures a == b
    decreases a
  {
    var s := NatToString(a);
    if a >= 10 && b >= 10 {
      assert NatToString(a / 10) == s[..|s| - 1] == NatToString(b / 10);
      NatToStringInjective(a / 10, b / 10);
      assert Digit(a % 10) == s[|s| - 1] == Digit(b % 10);
      assert DigitValue(Digit(a % 10)) == a % 10;
      assert DigitValue(Digit(b % 10)) == b % 10;
    } else if a < 10 && b < 10 {
      assert DigitValue(Digit(a)) == a && DigitValue(Digit(b)) == b;
    } else if a < 10 {
      assert false;
    } else {
      assert false;
    }
  }

  // ---------------------------------------------------------------------------
  // Clock labels `HH:mm`.
  // ---------------------------------------------------------------------------

  /** A well-formed `HH:mm` label: two digits, a colon, two digits, hour < 24, minute < 60. */
  predicate IsClock(s: string) {
    |s| == 5 && IsDigit(s[0]) && IsDigit(s[1]) && s[2] == ':' && IsDigit(s[3]) && IsDigit(s[4])
    && TwoDigitValue(s[..2]) < 24 && TwoDigitValue(s[3..]) < 60
  }

  /** Minutes since midnight written by a clock label (`parseInt` of each half). */
  function ClockMinutes(s: string): (n: int)
    requires IsClock(s)
    ensures 0 <= n < 1440
  {
    TwoDigitValue(s[..2]) * 60 + TwoDigitValue(s[3..])
  }

  /** The zero-padded `HH:mm` label of a minute of the day. */
  function ClockLabel(n: int): (s: string)
    requires 0 <= n < 1440
    ensures IsClock(s)
  {
    var s := PadTwo(n / 60) + ":" + PadTwo(n % 60);
    assert s[..2] == PadTwo(n / 60) && s[3..] == PadTwo(n % 60);
    PadTwoRoundTrip(n / 60);
    PadTwoRoundTrip(n % 60);
    s
  }

  /** The label of hour `h` and minute `m` is their two zero-padded halves. */
  lemma ClockLabelParts(h: int, m: int)
    requires 0 <= h < 24 && 0 <= m < 60
    ensures ClockLabel(h * 60 + m) == PadTwo(h) + ":" + PadTwo(m)
  {
    var n := h * 60 + m;
    assert n / 60 == h && n % 60 == m;
  }

  /** Reading a label gives back its minute. */
  lemma ClockRoundTrip(n: int)
    requires 0 <= n < 1440
    ensures ClockMinutes(ClockLabel(n)) == n
  {
    var s := ClockLabel(n);
    assert s[..2] == PadTwo(n / 60) && s[3..] == PadTwo(n % 60);
    PadTwoRoundTrip(n / 60);
    PadTwoRoundTrip(n % 60);
  }

  /** Every well-formed label is the label of its minute. */
  lemma ClockLabelOfMinutes(s: string)
    requires IsClock(s)
    ensures ClockLabel(ClockMinutes(s)) == s
  {
    var h, m := TwoDigitValue(s[..2]), TwoDigitValue(s[3..]);
    var n := ClockMinutes(s);
    assert n / 60 == h && n % 60 == m;
    TwoDigitInjective(s[..2]);
    TwoDigitInjective(s[3..]);
    var r := ClockLabel(n);
    assert r[..2] == s[..2] && r[3..] == s[3..] && r[2] == s[2];
    assert r == r[..2] + [r[2]] + r[3..];
    assert s == s[..2] + [s[2]] + s[3..];
  }

  /** Labels sort by code units exactly as their minutes do. */
  lemma {:induction false} ClockOrder(a: int, b: int)
    requires 0 <= a < b < 1440
    ensures Less(ClockLabel(a), ClockLabel(b))
  {
    var x, y := ClockLabel(a), ClockLabel(b);
    var ha, hb, ma, mb := a / 60, b / 60, a % 60, b % 60;
    assert x == [Digit(ha / 10), Digit(ha % 10), ':', Digit(ma / 10), Digit(ma % 10)];
    assert y == [Digit(hb / 10), Digit(hb % 10), ':', Digit(mb / 10), Digit(mb % 10)];
    if ha / 10 != hb / 10 {
      LessAtFirstDifference(x, y, 0);
    } else if ha != hb {
      LessAtFirstDifference(x, y, 1);
    } else if ma / 10 != mb / 10 {
      LessAtFirstDifference(x, y, 3);
    } else {
      LessAtFirstDifference(x, y, 4);
    }
  }

  /** Strings of equal length compare at their first differing character. */
  lemma {:induction false} LessAtFirstDifference(x: string, y: string, i: nat)
    requires i < |x| == |y|
    requires x[..i] == y[..i] && x[i] < y[i]
    ensures Less(x, y)
  {
    if i > 0 {
      assert x[1..][..i - 1] == x[..i][1..] == y[..i][1..] == y[1..][..i - 1];
      LessAtFirstDifference(x[1..], y[1..], i - 1);
    }
  }
}
