/**
 * src/utils/dateUtils.ts: the hand-written America/Santiago offset rule used when a
 * booking is stored, and the `YYYY-MM-DDTHH:mm:00±hh:mm` timestamps built with it
 * (the `date-time` production of section 5.6 of RFC 3339).
 */
module ChileTime {
  import opened Text
  import opened Calendar
  import opened Wrappers

  const MsPerDay: int := 86400000

  /** A browser-local wall-clock instant: a calendar date and the millisecond of that day. */
  datatype LocalInstant = LocalInstant(date: Date, ms: int)

  predicate ValidInstant(t: LocalInstant) {
    ValidDate(t.date) && 0 <= t.ms < MsPerDay
  }

  /** The instant's position on the local time line (how `Date` values compare). */
  function InstantKey(t: LocalInstant): int
    requires ValidInstant(t)
  {
    DayNumber(t.date) * MsPerDay + t.ms
  }

  /** Day of month of the first Saturday: `1 + (6 - firstOfMonth.getDay() + 7) % 7`.
      The dividend is 7..13, so JavaScript's truncating `%` agrees with Dafny's. */
  function FirstSaturday(year: int, month: int): (d: Date)
    requires 1 <= month <= 12
    ensures ValidDate(d) && d.year == year && d.month == month
  {
    Date(year, month, 1 + (6 - Weekday(Date(year, month, 1)) + 7) % 7)
  }

  /** The first-Saturday day of month lies in 1..7 and falls on a Saturday. */
  lemma FirstSaturdayIsSaturday(year: int, month: int)
    requires 1 <= month <= 12
    ensures 1 <= FirstSaturday(year, month).day <= 7
    ensures Weekday(FirstSaturday(year, month)) == 6
    ensures forall k :: 1 <= k < FirstSaturday(year, month).day ==> Weekday(Date(year, month, k)) != 6
  {
    var first := Date(year, month, 1);
    var w := Weekday(first);
    forall k | 1 <= k <= 7
      ensures Weekday(Date(year, month, k)) == (w + k - 1) % 7
    {
      assert DayNumber(Date(year, month, k)) == DayNumber(first) + k - 1;
      ModSevenShift(DayNumber(first) + 4, k - 1);
    }
  }

  lemma ModSevenShift(a: int, k: int)
    requires 0 <= k
    ensures (a + k) % 7 == (a % 7 + k) % 7
  {
  }

  /** The switch instant of a month: its first Saturday at 23:59:59.000 local time. */
  function SwitchInstant(year: int, month: int): (t: LocalInstant)
    requires 1 <= month <= 12
    ensures ValidInstant(t)
  {
    LocalInstant(FirstSaturday(year, month), 86399000)
  }

  /** The year `new Date(year, month, 1)` builds: ECMAScript's Date constructor reads a
      year argument from 0 to 99 as 1900 + year. */
  function ConstructorYear(y: int): (r: int)
    ensures 0 <= y <= 99 ==> r == 1900 + y
    ensures !(0 <= y <= 99) ==> r == y
  {
    if 0 <= y <= 99 then 1900 + y else y
  }

  /** `getSantiagoOffset`: "-03:00" from the first Saturday of September (23:59:59) to the
      first Saturday of April (23:59:59) of the same calendar year, "-04:00" in between. The
      switch dates are built with `new Date(year, month, 1)`, so for years 0 to 99 they fall
      in 1900 to 1999. */
  function SantiagoOffset(t: LocalInstant): (r: string)
    requires ValidInstant(t)
    ensures r == "-03:00" || r == "-04:00"
  {
    var y := ConstructorYear(t.date.year);
    if InstantKey(t) >= InstantKey(SwitchInstant(y, 9)) || InstantKey(t) < InstantKey(SwitchInstant(y, 4))
    then "-03:00" else "-04:00"
  }

  /** An instant on a later day than `s`'s day comes after `s`; one on an earlier day, before. */
  lemma KeyOrder(t: LocalInstant, s: LocalInstant)
    requires ValidInstant(t) && ValidInstant(s)
    ensures DateBefore(s.date, t.date) ==> InstantKey(s) < InstantKey(t)
    ensures DateBefore(t.date, s.date) ==> InstantKey(t) < InstantKey(s)
  {
    DayNumberOrder(s.date, t.date);
    DayNumberOrder(t.date, s.date);
  }

  /** January to March and October to December always get the summer offset. */
  lemma SummerMonths(t: LocalInstant)
    requires ValidInstant(t)
    requires t.date.month <= 3 || t.date.month >= 10
    ensures SantiagoOffset(t) == "-03:00"
  {
    var y := ConstructorYear(t.date.year);
    FirstSaturdayIsSaturday(y, 4);
    FirstSaturdayIsSaturday(y, 9);
    KeyOrder(t, SwitchInstant(y, 4));
    KeyOrder(t, SwitchInstant(y, 9));
  }

  /** In years 0 to 99 both switch instants lie in the 1900s, after every instant of the
      year itself, so the whole year gets the summer offset. */
  lemma TwoDigitYearsSummer(t: LocalInstant)
    requires ValidInstant(t) && 0 <= t.date.year <= 99
    ensures SantiagoOffset(t) == "-03:00"
  {
    var s := SwitchInstant(ConstructorYear(t.date.year), 4);
    assert DateBefore(t.date, s.date);
    KeyOrder(t, s);
  }

  /** May to August get the winter offset, except in years 0 to 99, which get the summer
      offset all year. */
  lemma WinterMonths(t: LocalInstant)
    requires ValidInstant(t)
    requires 5 <= t.date.month <= 8
    ensures SantiagoOffset(t) == (if 0 <= t.date.year <= 99 then "-03:00" else "-04:00")
  {
    var y := t.date.year;
    if 0 <= y <= 99 {
      TwoDigitYearsSummer(t);
    } else {
      FirstSaturdayIsSaturday(y, 4);
      FirstSaturdayIsSaturday(y, 9);
      KeyOrder(t, SwitchInstant(y, 4));
      KeyOrder(t, SwitchInstant(y, 9));
    }
  }

  /** On a booking-grid time (seconds are 0) the switch Saturday itself still has the
      offset of the day before: a slot can never reach 23:59:59. (Years 0 to 99 keep the
      summer offset throughout.) */
  lemma SwitchSaturdayKeepsOldOffset(year: int, minutes: int)
    requires 0 <= minutes < 1440
    ensures SantiagoOffset(LocalInstant(FirstSaturday(year, 4), minutes * 60000)) == "-03:00"
    ensures SantiagoOffset(LocalInstant(FirstSaturday(year, 9), minutes * 60000))
         == (if 0 <= year <= 99 then "-03:00" else "-04:00")
  {
    var a := LocalInstant(FirstSaturday(year, 4), minutes * 60000);
    var s := LocalInstant(FirstSaturday(year, 9), minutes * 60000);
    if 0 <= year <= 99 {
      TwoDigitYearsSummer(a);
      TwoDigitYearsSummer(s);
    } else {
      FirstSaturdayIsSaturday(year, 4);
      FirstSaturdayIsSaturday(year, 9);
      KeyOrder(a, SwitchInstant(year, 9));
      KeyOrder(s, SwitchInstant(year, 4));
    }
  }

  /** The local instant a slot label denotes on a date (`setHours(h, m, 0, 0)`). */
  function SlotInstant(date: Date, time: string): (t: LocalInstant)
    requires ValidDate(date) && IsClock(time)
    ensures ValidInstant(t)
  {
    LocalInstant(date, ClockMinutes(time) * 60000)
  }

  /** `formatToISOWithOffset(date, time)`. */
  function FormatToIsoWithOffset(date: Date, time: string): (r: string)
    requires ValidDate(date) && IsClock(time)
  {
    DateLabel(date) + "T" + time + ":00" + SantiagoOffset(SlotInstant(date, time))
  }

  /** The timestamp begins with the date's `YYYY-MM-DD` label, the prefix the day view filters on. */
  lemma FormatStartsWithDateLabel(date: Date, time: string)
    requires ValidDate(date) && IsClock(time)
    ensures StartsWith(FormatToIsoWithOffset(date, time), DateLabel(date))
  {
    var r := FormatToIsoWithOffset(date, time);
    assert r[..|DateLabel(date)|] == DateLabel(date);
  }

  /** For four-digit years the timestamp is 25 characters in the RFC 3339 layout, with
      the time argument verbatim at 11..16 and the offset for that date and time at 19..25. */
  lemma FormatLayout(date: Date, time: string)
    requires ValidDate(date) && IsClock(time) && 1000 <= date.year <= 9999
    ensures var r := FormatToIsoWithOffset(date, time);
      && |r| == 25
      && r[..10] == DateLabel(date)
      && r[10] == 'T'
      && r[11..16] == time
      && r[16..19] == ":00"
      && r[19..] == SantiagoOffset(SlotInstant(date, time))
  {
    DateLabelShape(date);
    var r := FormatToIsoWithOffset(date, time);
    assert r == DateLabel(date) + "T" + time + ":00" + SantiagoOffset(SlotInstant(date, time));
  }

  /** Reads a 25-character timestamp back into its date, time label and offset. */
  function ParseTimestamp(s: string): (r: Option<(Date, string, string)>)
  {
    if |s| == 25 && IsDigit(s[0]) && IsDigit(s[1]) && IsDigit(s[2]) && IsDigit(s[3])
       && IsDigit(s[5]) && IsDigit(s[6]) && IsDigit(s[8]) && IsDigit(s[9])
    then
      var year := TwoDigitValue(s[..2]) * 100 + TwoDigitValue(s[2..4]);
      Some((Date(year, TwoDigitValue(s[5..7]), TwoDigitValue(s[8..10])), s[11..16], s[19..]))
    else None
  }

  /** Formatting and reading back recover the date, the time label and the chosen offset. */
  lemma {:induction false} FormatRoundTrip(date: Date, time: string)
    requires ValidDate(date) && IsClock(time) && 1000 <= date.year <= 9999
    ensures ParseTimestamp(FormatToIsoWithOffset(date, time))
         == Some((date, time, SantiagoOffset(SlotInstant(date, time))))
  {
    FormatLayout(date, time);
    DateLabelShape(date);
    var r := FormatToIsoWithOffset(date, time);
    FourDigits(date.year);
    assert r[..4] == NatToString(date.year);
    assert r[..2] == r[..4][..2] && r[2..4] == r[..4][2..];
    assert TwoDigitValue(r[..2]) * 100 + TwoDigitValue(r[2..4]) == date.year;
    assert r[5..7] == DateLabel(date)[5..7] && r[8..10] == DateLabel(date)[8..10];
    assert IsDigit(r[5]) && IsDigit(r[6]) && IsDigit(r[8]) && IsDigit(r[9]);
  }

  /** A four-digit year is written as its two leading and two trailing digit pairs. */
  lemma {:induction false} FourDigits(y: nat)
    requires 1000 <= y <= 9999
    ensures |NatToString(y)| == 4
    ensures IsDigit(NatToString(y)[0]) && IsDigit(NatToString(y)[1])
    ensures IsDigit(NatToString(y)[2]) && IsDigit(NatToString(y)[3])
    ensures TwoDigitValue(NatToString(y)[..2]) * 100 + TwoDigitValue(NatToString(y)[2..]) == y
  {
    var a, b, c := y / 10, y / 100, y / 1000;
    assert a / 10 == b && b / 10 == c;
    assert NatToString(c) == [Digit(c)];
    assert NatToString(b) == [Digit(c), Digit(b % 10)];
    assert NatToString(a) == [Digit(c), Digit(b % 10), Digit(a % 10)];
    assert NatToString(y) == [Digit(c), Digit(b % 10), Digit(a % 10), Digit(y % 10)];
  }

}
