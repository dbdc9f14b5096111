/**
 * src/hooks/useAnalytics.ts: the analytics panel's counters. Reservations are split into
 * active and cancelled ones; the capacity of one box over a date range is counted day by
 * day from the business hours; each box name gets the number of active reservations in
 * it; and the active reservations are bucketed by the day of their start time.
 *
 * The browser's date parsing (`new Date(`${date}T00:00:00`)`) is passed in as its result:
 * a local calendar date, or `None` for an Invalid Date. The browser's time zone is passed
 * in as the length of the gap, if any, that a forward clock change opens at each local
 * midnight, indexed by the day's number counted from 1 January 1970. Opening hours are
 * exact reals.
 */
module Analytics {
  import opened Wrappers
  import opened Text
  import opened Calendar
  import opened Reservations

  // ---------------------------------------------------------------------------
  // Active and cancelled reservations.
  // ---------------------------------------------------------------------------

  /** The reservations whose status is not 'cancelled' (legacy ones without a status
      included), in input order. */
  function ActiveOf(rs: seq<Reservation>): seq<Reservation> {
    if rs == [] then []
    else
      var last := rs[|rs| - 1];
      ActiveOf(rs[..|rs| - 1]) + (if IsCancelled(last) then [] else [last])
  }

  /** The reservations whose status is 'cancelled', in input order. */
  function CancelledOf(rs: seq<Reservation>): seq<Reservation> {
    if rs == [] then []
    else
      var last := rs[|rs| - 1];
      CancelledOf(rs[..|rs| - 1]) + (if IsCancelled(last) then [last] else [])
  }

  /** The `forEach` that pushes each reservation onto one of the two lists. */
  method Partition(raw: seq<Reservation>) returns (active: seq<Reservation>, cancelled: seq<Reservation>)
    ensures active == ActiveOf(raw) && cancelled == CancelledOf(raw)
  {
    active, cancelled := [], [];
    var i := 0;
    while i < |raw|
      invariant 0 <= i <= |raw|
      invariant active == ActiveOf(raw[..i]) && cancelled == CancelledOf(raw[..i])
    {
      assert raw[..i + 1][..i] == raw[..i];
      if raw[i].status == Some(Cancelled) {
        cancelled := cancelled + [raw[i]];
      } else {
        active := active + [raw[i]];
      }
      i := i + 1;
    }
    assert raw[..|raw|] == raw;
  }

  /** Every reservation lands in exactly one list: active exactly when it is not
      cancelled, and the two lists together hold the input once over. */
  lemma {:induction false} PartitionSplits(rs: seq<Reservation>)
    ensures |ActiveOf(rs)| + |CancelledOf(rs)| == |rs|
    ensures multiset(ActiveOf(rs)) + multiset(CancelledOf(rs)) == multiset(rs)
    ensures forall r :: r in ActiveOf(rs) <==> r in rs && !IsCancelled(r)
    ensures forall r :: r in CancelledOf(rs) <==> r in rs && IsCancelled(r)
  {
    if rs != [] {
      var init, last := rs[..|rs| - 1], rs[|rs| - 1];
      PartitionSplits(init);
      assert rs == init + [last];
    }
  }

  /** Both lists keep input order: splitting the input splits each list at the same
      place. */
  lemma {:induction false} PartitionAppend(a: seq<Reservation>, b: seq<Reservation>)
    ensures ActiveOf(a + b) == ActiveOf(a) + ActiveOf(b)
    ensures CancelledOf(a + b) == CancelledOf(a) + CancelledOf(b)
    decreases |b|
  {
    if b == [] {
      assert a + b == a;
    } else {
      var init, last := b[..|b| - 1], b[|b| - 1];
      assert (a + b)[..|a + b| - 1] == a + init && (a + b)[|a + b| - 1] == last;
      PartitionAppend(a, init);
      var x := if IsCancelled(last) then [] else [last];
      var y := if IsCancelled(last) then [last] else [];
      assert ActiveOf(a) + ActiveOf(init) + x == ActiveOf(a) + (ActiveOf(init) + x);
      assert CancelledOf(a) + CancelledOf(init) + y == CancelledOf(a) + (CancelledOf(init) + y);
    }
  }

  // ---------------------------------------------------------------------------
  // Capacity per box.
  // ---------------------------------------------------------------------------

  /** One day's opening hours, as decimal hours of the day. */
  datatype DayConfig = DayConfig(start: real, end: real, isOpen: bool)

  datatype BusinessHours = BusinessHours(weekdays: DayConfig, friday: DayConfig, saturday: DayConfig,
                                         sunday: DayConfig)

  /** The configuration used on a day with `getDay()` value `day`. */
  function ConfigFor(hours: BusinessHours, day: int): (c: DayConfig)
    ensures 1 <= day <= 4 ==> c == hours.weekdays
    ensures day == 5 ==> c == hours.friday
    ensures day == 6 ==> c == hours.saturday
    ensures !(1 <= day <= 6) ==> c == hours.sunday
  {
    if 1 <= day <= 4 then hours.weekdays
    else if day == 5 then hours.friday
    else if day == 6 then hours.saturday
    else hours.sunday
  }

  /** The half-hour blocks a day adds: the whole half hours between opening and closing
      on an open day with positive hours, none otherwise. */
  function DaySlots(c: DayConfig): (n: nat)
    ensures c.isOpen && c.end > c.start ==> n as real <= (c.end - c.start) * 2.0 < n as real + 1.0
    ensures !(c.isOpen && c.end > c.start) ==> n == 0
  {
    if c.isOpen && c.end - c.start > 0.0 then ((c.end - c.start) * 2.0).Floor else 0
  }

  /** The blocks of each weekday, indexed by `getDay()` value. */
  function WeekTable(hours: BusinessHours): (t: seq<nat>)
    ensures |t| == 7
    ensures forall w :: 0 <= w < 7 ==> t[w] == DaySlots(ConfigFor(hours, w))
  {
    seq(7, w requires 0 <= w < 7 => DaySlots(ConfigFor(hours, w)))
  }

  /** The weekday after `w`. */
  function NextWeekday(w: int): (r: int)
    requires 0 <= w < 7
    ensures 0 <= r < 7 && r == (w + 1) % 7
  {
    if w == 6 then 0 else w + 1
  }

  /** The blocks of `count` consecutive days, the first of which falls on weekday `w`. */
  function RangeSlots(t: seq<nat>, w: int, count: nat): nat
    requires |t| == 7 && 0 <= w < 7
    decreases count
  {
    if count == 0 then 0 else t[w] + RangeSlots(t, NextWeekday(w), count - 1)
  }

  /** Minutes into a local day. */
  type DayMinute = m: nat | m < 1440

  /** How many minutes the browser's time zone skips from a local midnight on: 0 where that
      midnight exists, 60 on a Sunday whose clocks jump from 00:00 to 01:00 (Chile's
      September change). */
  type MidnightGap = g: nat | g < 720

  /** The day after day `n` falls on the next weekday. */
  lemma WeekdayOfNext(n: int)
    ensures WeekdayOf(n + 1) == NextWeekday(WeekdayOf(n))
  {
  }

  /** The local time of day a `Date` gets when it is set to time `t` on a day whose first
      `g` minutes do not exist: a skipped time moves on by the length of the gap, the way
      ECMAScript resolves a local time inside a forward change. Any other time is kept. */
  function Resolve(t: DayMinute, g: MidnightGap): (r: DayMinute)
    ensures r >= t && r >= g
    ensures t < g ==> r == t + g
    ensures g <= t ==> r == t
  {
    if t < g then t + g else t
  }

  /** `tempDate <= end`, for the local instant at time `t` of day `n` and the one at time
      `lastTime` of day `last`. */
  predicate NotAfter(n: int, t: DayMinute, last: int, lastTime: DayMinute) {
    n < last || (n == last && t <= lastTime)
  }

  /** The loop as written, over day numbers: from time `t` of day `n`, with the safety
      counter at `safety`, one day at a time while that instant is not after `end` and the
      counter is under 1000. `setDate(getDate() + 1)` moves to the next day and keeps the
      local time of day, resolved against that day's midnight gap `gap(n + 1)`. */
  function CapacityWalk(hours: BusinessHours, gap: int -> MidnightGap, n: int, t: DayMinute,
                        last: int, lastTime: DayMinute, safety: nat): nat
    requires safety <= 1000
    decreases 1000 - safety
  {
    if NotAfter(n, t, last, lastTime) && safety < 1000 then
      DaySlots(ConfigFor(hours, WeekdayOf(n)))
        + CapacityWalk(hours, gap, n + 1, Resolve(t, gap(n + 1)), last, lastTime, safety + 1)
    else 0
  }

  /** The walk from local midnight of day `first` to local midnight of day `last`. */
  function CapacityBetween(hours: BusinessHours, gap: int -> MidnightGap, first: int, last: int): nat {
    CapacityWalk(hours, gap, first, Resolve(0, gap(first)), last, Resolve(0, gap(last)), 0)
  }

  /** `totalCapacityPerBox`: 0 when either bound is an Invalid Date, else the walk from
      local midnight of the first day to local midnight of the last. `gap` gives each day's
      midnight gap by day number. */
  function Capacity(start: Option<Date>, end: Option<Date>, hours: BusinessHours,
                    gap: int -> MidnightGap): (n: nat)
    requires start.Some? ==> ValidDate(start.value)
    requires end.Some? ==> ValidDate(end.value)
    ensures start.None? || end.None? ==> n == 0
  {
    if start.None? || end.None? then 0
    else CapacityBetween(hours, gap, DayNumber(start.value), DayNumber(end.value))
  }

  /** The number of days the loop visits: none when the range is empty, else its length
      capped at `cap`. */
  function Clamp(k: int, cap: nat): (r: nat)
    ensures r <= cap
    ensures k <= 0 ==> r == 0
    ensures 0 < k <= cap ==> r == k
  {
    if k <= 0 then 0 else if k < cap then k else cap
  }

  /** The walk visits day `n` and goes on from the next day, until `end` or the
      thousandth day. */
  lemma WalkStep(hours: BusinessHours, gap: int -> MidnightGap, n: int, t: DayMinute,
                 last: int, lastTime: DayMinute, safety: nat)
    requires safety < 1000 && NotAfter(n, t, last, lastTime)
    ensures CapacityWalk(hours, gap, n, t, last, lastTime, safety)
         == DaySlots(ConfigFor(hours, WeekdayOf(n)))
            + CapacityWalk(hours, gap, n + 1, Resolve(t, gap(n + 1)), last, lastTime, safety + 1)
  {
  }

  /** The capacity loop, with its `safety` counter, walking a local date and its time of
      day. */
  method TotalCapacityPerBox(start: Option<Date>, end: Option<Date>, hours: BusinessHours,
                             gap: int -> MidnightGap) returns (total: nat)
    requires start.Some? ==> ValidDate(start.value)
    requires end.Some? ==> ValidDate(end.value)
    ensures total == Capacity(start, end, hours, gap)
  {
    total := 0;
    if start.None? || end.None? {
      return;
    }
    var temp := start.value;
    ghost var n := DayNumber(temp);
    var last := DayNumber(end.value);
    var time := Resolve(0, gap(DayNumber(temp)));
    var lastTime := Resolve(0, gap(last));
    var safety := 0;
    ghost var goal := CapacityWalk(hours, gap, n, time, last, lastTime, 0);
    assert goal == Capacity(start, end, hours, gap);
    while NotAfter(DayNumber(temp), time, last, lastTime) && safety < 1000
      invariant ValidDate(temp) && n == DayNumber(temp) && 0 <= safety <= 1000
      invariant total + CapacityWalk(hours, gap, n, time, last, lastTime, safety) == goal
      decreases 1000 - safety
    {
      WalkStep(hours, gap, n, time, last, lastTime, safety);
      var config := ConfigFor(hours, Weekday(temp));
      var add := DayBlocks(config);
      total := total + add;
      NextDayNumber(temp);
      temp := NextDay(temp);
      n := n + 1;
      time := Resolve(time, gap(DayNumber(temp)));
      safety := safety + 1;
    }
  }

  /** The loop body's `if (config && config.isOpen)` and `if (hours > 0)`. */
  method DayBlocks(config: DayConfig) returns (add: nat)
    ensures add == DaySlots(config)
  {
    add := 0;
    if config.isOpen {
      var h := config.end - config.start;
      if h > 0.0 {
        add := (h * 2.0).Floor;
      }
    }
  }

  /** The local time of day the walk from time `t` of day `n` has once it reaches day
      `last` (just `t` when `n` is not before it). It never goes back. */
  function TimeOnDay(gap: int -> MidnightGap, n: int, t: DayMinute, last: int): (r: DayMinute)
    ensures r >= t
    decreases last - n
  {
    if n < last then TimeOnDay(gap, n + 1, Resolve(t, gap(n + 1)), last) else t
  }

  /** The walk reaches the last day no earlier than the gap of any day it passes through. */
  lemma {:induction false} TimeOnDayCovers(gap: int -> MidnightGap, n: int, t: DayMinute, last: int, x: int)
    requires n < x <= last
    ensures TimeOnDay(gap, n, t, last) >= gap(x)
    decreases last - n
  {
    if x > n + 1 {
      TimeOnDayCovers(gap, n + 1, Resolve(t, gap(n + 1)), last, x);
    }
  }

  /** Where every midnight exists, the walk stays at midnight. */
  lemma {:induction false} TimeOnDayWithoutGaps(gap: int -> MidnightGap, n: int, last: int)
    requires forall x :: gap(x) == 0
    ensures TimeOnDay(gap, n, 0, last) == 0
    decreases last - n
  {
    if n < last {
      assert gap(n + 1) == 0;
      TimeOnDayWithoutGaps(gap, n + 1, last);
    }
  }

  /** 1 when the walk from time `t` of day `n` reaches day `last` no later than
      `lastTime`, else 0: whether `end`'s own day is counted. */
  function LastDayCounted(gap: int -> MidnightGap, n: int, t: DayMinute, last: int, lastTime: DayMinute): nat {
    if TimeOnDay(gap, n, t, last) <= lastTime then 1 else 0
  }

  /** The walk adds up exactly the days from `n` to the day before the last, and the last
      day too when the walk reaches it no later than `end`'s time of day; at most
      `1000 - safety` days, their weekdays running on from that of `n`. */
  lemma {:induction false} WalkIsRange(hours: BusinessHours, gap: int -> MidnightGap, n: int, t: DayMinute,
                                       last: int, lastTime: DayMinute, safety: nat)
    requires safety <= 1000
    ensures CapacityWalk(hours, gap, n, t, last, lastTime, safety)
         == RangeSlots(WeekTable(hours), WeekdayOf(n),
                       Clamp(last - n + LastDayCounted(gap, n, t, last, lastTime), 1000 - safety))
    decreases 1000 - safety
  {
    var w := WeekTable(hours);
    var k := last - n + LastDayCounted(gap, n, t, last, lastTime);
    if safety < 1000 && n < last {
      var u := Resolve(t, gap(n + 1));
      assert LastDayCounted(gap, n + 1, u, last, lastTime) == LastDayCounted(gap, n, t, last, lastTime);
      WeekdayOfNext(n);
      WalkIsRange(hours, gap, n + 1, u, last, lastTime, safety + 1);
      ClampStep(k, 1000 - safety);
      RangeStep(w, WeekdayOf(n), Clamp(k, 1000 - safety));
    } else if safety < 1000 && n == last && t <= lastTime {
      assert CapacityWalk(hours, gap, n + 1, Resolve(t, gap(n + 1)), last, lastTime, safety + 1) == 0;
      RangeStep(w, WeekdayOf(n), 1);
    }
  }

  /** One more day in range and one more allowed by the counter: one more day visited. */
  lemma ClampStep(k: int, cap: nat)
    requires k > 0 && cap > 0
    ensures Clamp(k, cap) > 0 && Clamp(k - 1, cap - 1) == Clamp(k, cap) - 1
  {
  }

  /** A range is its first day followed by the rest. */
  lemma RangeStep(t: seq<nat>, w: int, count: nat)
    requires |t| == 7 && 0 <= w < 7 && count > 0
    ensures RangeSlots(t, w, count) == t[w] + RangeSlots(t, NextWeekday(w), count - 1)
  {
  }

  /** From day `first` to day `last` the walk counts the days before the last, and the
      last too when it reaches it no later than midnight, never more than 1000. */
  lemma BetweenIsRange(hours: BusinessHours, gap: int -> MidnightGap, first: int, last: int)
    ensures CapacityBetween(hours, gap, first, last)
         == RangeSlots(WeekTable(hours), WeekdayOf(first),
                       Clamp(last - first + LastDayCounted(gap, first, gap(first), last, gap(last)), 1000))
  {
    assert Resolve(0, gap(first)) == gap(first) && Resolve(0, gap(last)) == gap(last);
    WalkIsRange(hours, gap, first, gap(first), last, gap(last), 0);
  }

  /** Between two valid dates the capacity is that of the days from the first to the day
      before the last, plus the last day exactly when the walk reaches it no later than
      `end`, never more than 1000 days, their weekdays running on from the first's. */
  lemma CapacityOfRange(start: Date, end: Date, hours: BusinessHours, gap: int -> MidnightGap)
    requires ValidDate(start) && ValidDate(end)
    ensures var first, last := DayNumber(start), DayNumber(end);
      Capacity(Some(start), Some(end), hours, gap)
        == RangeSlots(WeekTable(hours), Weekday(start),
                      Clamp(last - first + LastDayCounted(gap, first, gap(first), last, gap(last)), 1000))
  {
    BetweenIsRange(hours, gap, DayNumber(start), DayNumber(end));
  }

  /** Where every midnight exists, the walk counts both ends. */
  lemma BetweenWithoutGaps(hours: BusinessHours, gap: int -> MidnightGap, first: int, last: int)
    requires forall x :: gap(x) == 0
    ensures CapacityBetween(hours, gap, first, last)
         == RangeSlots(WeekTable(hours), WeekdayOf(first), Clamp(last - first + 1, 1000))
  {
    assert gap(first) == 0 && gap(last) == 0;
    TimeOnDayWithoutGaps(gap, first, last);
    BetweenIsRange(hours, gap, first, last);
  }

  /** In a time zone where every local midnight exists, the capacity counts every day from
      the first to the last inclusive, never more than 1000 of them. */
  lemma CapacityWithoutGaps(start: Date, end: Date, hours: BusinessHours, gap: int -> MidnightGap)
    requires ValidDate(start) && ValidDate(end)
    requires forall x :: gap(x) == 0
    ensures Capacity(Some(start), Some(end), hours, gap)
         == RangeSlots(WeekTable(hours), Weekday(start), Clamp(DayNumber(end) - DayNumber(start) + 1, 1000))
  {
    BetweenWithoutGaps(hours, gap, DayNumber(start), DayNumber(end));
  }

  /** A day of the range with a longer midnight gap than the last day's drops the last day. */
  lemma BetweenDropsLastDay(hours: BusinessHours, gap: int -> MidnightGap, first: int, last: int, x: int)
    requires first <= x <= last <= first + 1000
    requires gap(x) > gap(last)
    ensures CapacityBetween(hours, gap, first, last)
         == RangeSlots(WeekTable(hours), WeekdayOf(first), last - first)
  {
    if first < x {
      TimeOnDayCovers(gap, first, gap(first), last, x);
    }
    assert LastDayCounted(gap, first, gap(first), last, gap(last)) == 0;
    assert Clamp(last - first + 0, 1000) == last - first;
    BetweenIsRange(hours, gap, first, last);
  }

  /** A day of the range whose midnight gap is longer than the last day's makes the walk
      arrive on the last day after `end`, so the last day is not counted. */
  lemma GapDropsLastDay(start: Date, end: Date, hours: BusinessHours, gap: int -> MidnightGap, x: int)
    requires ValidDate(start) && ValidDate(end)
    requires DayNumber(start) <= x <= DayNumber(end) <= DayNumber(start) + 1000
    requires gap(x) > gap(DayNumber(end))
    ensures Capacity(Some(start), Some(end), hours, gap)
         == RangeSlots(WeekTable(hours), Weekday(start), DayNumber(end) - DayNumber(start))
  {
    BetweenDropsLastDay(hours, gap, DayNumber(start), DayNumber(end), x);
  }

  /** From 1 to 10 September 2025 in America/Santiago, whose local midnight of Sunday the
      7th does not exist (the clocks jump to 01:00), the walk reaches the 10th at 01:00,
      after `end`, and counts nine days. */
  lemma SeptemberGapDropsLastDay(hours: BusinessHours, gap: int -> MidnightGap)
    requires gap(DayNumber(Date(2025, 9, 7))) == 60 && gap(DayNumber(Date(2025, 9, 10))) == 0
    ensures Capacity(Some(Date(2025, 9, 1)), Some(Date(2025, 9, 10)), hours, gap)
         == RangeSlots(WeekTable(hours), Weekday(Date(2025, 9, 1)), 9)
  {
    GapDropsLastDay(Date(2025, 9, 1), Date(2025, 9, 10), hours, gap, DayNumber(Date(2025, 9, 7)));
  }

  /** A week's blocks: four weekdays, a Friday, a Saturday and a Sunday. */
  function WeekSlots(hours: BusinessHours): nat {
    4 * DaySlots(hours.weekdays) + DaySlots(hours.friday) + DaySlots(hours.saturday) + DaySlots(hours.sunday)
  }

  /** Seven more days, starting on any weekday, add one of each weekday's blocks. */
  lemma SevenMore(t: seq<nat>, w: int, m: nat)
    requires |t| == 7 && 0 <= w < 7
    ensures RangeSlots(t, w, 7 + m) == t[0] + t[1] + t[2] + t[3] + t[4] + t[5] + t[6] + RangeSlots(t, w, m)
  {
    var w1 := NextWeekday(w);
    var w2 := NextWeekday(w1);
    var w3 := NextWeekday(w2);
    var w4 := NextWeekday(w3);
    var w5 := NextWeekday(w4);
    var w6 := NextWeekday(w5);
    assert NextWeekday(w6) == w;
    RangeStep(t, w, 7 + m);
    RangeStep(t, w1, 6 + m);
    RangeStep(t, w2, 5 + m);
    RangeStep(t, w3, 4 + m);
    RangeStep(t, w4, 3 + m);
    RangeStep(t, w5, 2 + m);
    RangeStep(t, w6, 1 + m);
    if w == 0 {
    } else if w == 1 {
    } else if w == 2 {
    } else if w == 3 {
    } else if w == 4 {
    } else if w == 5 {
    } else {
    }
  }

  /** A range of whole weeks holds that many weeks' blocks, whatever weekday it starts on. */
  lemma {:induction false} WholeWeeks(hours: BusinessHours, w: int, k: nat)
    requires 0 <= w < 7
    ensures RangeSlots(WeekTable(hours), w, 7 * k) == k * WeekSlots(hours)
    decreases k
  {
    if k > 0 {
      var t := WeekTable(hours);
      SevenMore(t, w, 7 * (k - 1));
      WholeWeeks(hours, w, k - 1);
      assert t[0] + t[1] + t[2] + t[3] + t[4] + t[5] + t[6] == WeekSlots(hours);
      assert k * WeekSlots(hours) == WeekSlots(hours) + (k - 1) * WeekSlots(hours);
    }
  }

  /** The capacity shown and divided by: the total, or 1 when the total is 0. */
  function ReportedCapacity(total: nat): (c: nat)
    ensures c >= 1
    ensures total > 0 ==> c == total
    ensures total == 0 ==> c == 1
  {
    if total > 0 then total else 1
  }

  // ---------------------------------------------------------------------------
  // Counting reservations by a key.
  // ---------------------------------------------------------------------------

  /** The reservations among `rs` whose key is `k`. */
  function CountWith(rs: seq<Reservation>, key: Reservation -> string, k: string): nat {
    if rs == [] then 0
    else CountWith(rs[..|rs| - 1], key, k) + (if key(rs[|rs| - 1]) == k then 1 else 0)
  }

  /** The reservations among `rs` whose key is one of `ks`. */
  function CountIn(rs: seq<Reservation>, key: Reservation -> string, ks: seq<string>): nat {
    if rs == [] then 0
    else CountIn(rs[..|rs| - 1], key, ks) + (if key(rs[|rs| - 1]) in ks then 1 else 0)
  }

  /** The counts for the keys `ks`, added up. */
  function SumCounts(rs: seq<Reservation>, key: Reservation -> string, ks: seq<string>): nat {
    if ks == [] then 0 else CountWith(rs, key, ks[0]) + SumCounts(rs, key, ks[1..])
  }

  /** The keys that occur among `rs`. */
  function KeysOf(rs: seq<Reservation>, key: Reservation -> string): set<string> {
    set r | r in rs :: key(r)
  }

  predicate Distinct(ks: seq<string>) {
    forall i, j :: 0 <= i < j < |ks| ==> ks[i] != ks[j]
  }

  function Sum(xs: seq<nat>): nat {
    if xs == [] then 0 else xs[0] + Sum(xs[1..])
  }

  /** One more reservation: its key occurs, and its key's count grows by one. */
  lemma CountWithSnoc(rs: seq<Reservation>, key: Reservation -> string, r: Reservation)
    ensures KeysOf(rs + [r], key) == KeysOf(rs, key) + {key(r)}
    ensures forall k :: CountWith(rs + [r], key, k) == CountWith(rs, key, k) + (if key(r) == k then 1 else 0)
  {
    assert (rs + [r])[..|rs|] == rs;
  }

  /** A key counts exactly when it occurs. */
  lemma {:induction false} CountWithPositive(rs: seq<Reservation>, key: Reservation -> string, k: string)
    ensures CountWith(rs, key, k) > 0 <==> k in KeysOf(rs, key)
  {
    if rs != [] {
      var init := rs[..|rs| - 1];
      CountWithPositive(init, key, k);
      assert rs == init + [rs[|rs| - 1]];
      assert KeysOf(rs, key) == KeysOf(init, key) + {key(rs[|rs| - 1])};
    }
  }

  /** Counting for a first key apart from the rest. */
  lemma {:induction false} CountInCons(rs: seq<Reservation>, key: Reservation -> string, k: string, ks: seq<string>)
    requires k !in ks
    ensures CountIn(rs, key, [k] + ks) == CountWith(rs, key, k) + CountIn(rs, key, ks)
  {
    if rs != [] {
      CountInCons(rs[..|rs| - 1], key, k, ks);
    }
  }

  /** Over distinct keys, the counts add up to the reservations with one of those keys. */
  lemma {:induction false} SumIsCountIn(rs: seq<Reservation>, key: Reservation -> string, ks: seq<string>)
    requires Distinct(ks)
    ensures SumCounts(rs, key, ks) == CountIn(rs, key, ks)
  {
    if ks == [] {
      CountInNone(rs, key);
    } else {
      assert ks == [ks[0]] + ks[1..];
      assert ks[0] !in ks[1..];
      SumIsCountIn(rs, key, ks[1..]);
      CountInCons(rs, key, ks[0], ks[1..]);
    }
  }

  lemma {:induction false} CountInNone(rs: seq<Reservation>, key: Reservation -> string)
    ensures CountIn(rs, key, []) == 0
  {
    if rs != [] {
      CountInNone(rs[..|rs| - 1], key);
    }
  }

  /** When every key is listed, every reservation is counted. */
  lemma {:induction false} CountInAll(rs: seq<Reservation>, key: Reservation -> string, ks: seq<string>)
    requires forall r :: r in rs ==> key(r) in ks
    ensures CountIn(rs, key, ks) == |rs|
  {
    if rs != [] {
      var init := rs[..|rs| - 1];
      assert forall r :: r in init ==> r in rs;
      CountInAll(init, key, ks);
    }
  }

  /** A list of numbers that are the counts for `ks` adds up as the counts do. */
  lemma {:induction false} SumOfCounts(xs: seq<nat>, rs: seq<Reservation>, key: Reservation -> string, ks: seq<string>)
    requires |xs| == |ks| && forall i :: 0 <= i < |xs| ==> xs[i] == CountWith(rs, key, ks[i])
    ensures Sum(xs) == SumCounts(rs, key, ks)
  {
    if xs != [] {
      SumOfCounts(xs[1..], rs, key, ks[1..]);
    }
  }

  // ---------------------------------------------------------------------------
  // Occupancy per box.
  // ---------------------------------------------------------------------------

  function BoxOf(r: Reservation): string {
    r.boxName
  }

  /** The names of some boxes. */
  function BoxNames(boxes: seq<Box>): set<string> {
    set b | b in boxes :: b.name
  }

  /** The box names, each once, in the order of their first box. */
  function DistinctNames(boxes: seq<Box>): seq<string> {
    if boxes == [] then []
    else
      var names := DistinctNames(boxes[..|boxes| - 1]);
      var name := boxes[|boxes| - 1].name;
      names + (if name in names then [] else [name])
  }

  lemma {:induction false} DistinctNamesMeaning(boxes: seq<Box>)
    ensures Distinct(DistinctNames(boxes))
    ensures forall n :: n in DistinctNames(boxes) <==> n in BoxNames(boxes)
  {
    if boxes != [] {
      var init := boxes[..|boxes| - 1];
      DistinctNamesMeaning(init);
      assert boxes == init + [boxes[|boxes| - 1]];
      assert BoxNames(boxes) == BoxNames(init) + {boxes[|boxes| - 1].name};
    }
  }

  /** `usageMap`: a zero for every box name, then one more for each active reservation
      in a box of that name; a reservation in a box of another name is ignored. */
  method UsageMap(allBoxes: seq<Box>, active: seq<Reservation>) returns (usage: map<string, nat>)
    ensures usage.Keys == BoxNames(allBoxes)
    ensures forall n :: n in usage ==> usage[n] == CountWith(active, BoxOf, n)
  {
    usage := map[];
    var i := 0;
    while i < |allBoxes|
      invariant 0 <= i <= |allBoxes|
      invariant usage.Keys == BoxNames(allBoxes[..i])
      invariant forall n :: n in usage ==> usage[n] == 0
    {
      assert allBoxes[..i + 1] == allBoxes[..i] + [allBoxes[i]];
      assert BoxNames(allBoxes[..i + 1]) == BoxNames(allBoxes[..i]) + {allBoxes[i].name};
      usage := usage[allBoxes[i].name := 0];
      i := i + 1;
    }
    assert allBoxes[..i] == allBoxes;
    var j := 0;
    while j < |active|
      invariant 0 <= j <= |active|
      invariant usage.Keys == BoxNames(allBoxes)
      invariant forall n :: n in usage ==> usage[n] == CountWith(active[..j], BoxOf, n)
    {
      assert active[..j + 1][..j] == active[..j];
      var name := active[j].boxName;
      if name in usage {
        usage := usage[name := usage[name] + 1];
      }
      j := j + 1;
    }
    assert active[..j] == active;
  }

  /** One row of the occupancy table. */
  datatype OccupancyRow = OccupancyRow(name: string, occupied: nat, capacity: nat)

  /** `Object.entries(usageMap).map(...)`: a row per box name, listed in the order the names
      were first set (`Object.entries` puts integer-like names first, in ascending numeric
      order; that order is not modelled), with the shared reported capacity. */
  function OccupancyRows(names: seq<string>, usage: map<string, nat>, total: nat): seq<OccupancyRow>
    requires forall n :: n in names ==> n in usage
  {
    seq(|names|, i requires 0 <= i < |names| => OccupancyRow(names[i], usage[names[i]], ReportedCapacity(total)))
  }

  /** The names of some rows. */
  function RowNames(rows: seq<OccupancyRow>): set<string> {
    set i | 0 <= i < |rows| :: rows[i].name
  }

  /** The occupied counts of some rows. */
  function Occupied(rows: seq<OccupancyRow>): seq<nat> {
    seq(|rows|, i requires 0 <= i < |rows| => rows[i].occupied)
  }

  /** The occupancy table has one row per box name and no other; each row counts the
      active reservations in a box of that name and carries the reported capacity; the
      rows together count the active reservations whose box name is known. */
  lemma OccupancyMeaning(allBoxes: seq<Box>, active: seq<Reservation>, total: nat, usage: map<string, nat>,
                         rows: seq<OccupancyRow>)
    requires usage.Keys == BoxNames(allBoxes)
    requires forall n :: n in usage ==> usage[n] == CountWith(active, BoxOf, n)
    requires forall n :: n in DistinctNames(allBoxes) ==> n in usage
    requires rows == OccupancyRows(DistinctNames(allBoxes), usage, total)
    ensures forall i, j :: 0 <= i < j < |rows| ==> rows[i].name != rows[j].name
    ensures RowNames(rows) == BoxNames(allBoxes)
    ensures forall i :: 0 <= i < |rows| ==>
      rows[i].occupied == CountWith(active, BoxOf, rows[i].name) && rows[i].capacity == ReportedCapacity(total)
    ensures Sum(Occupied(rows)) == CountIn(active, BoxOf, DistinctNames(allBoxes))
  {
    var names := DistinctNames(allBoxes);
    DistinctNamesMeaning(allBoxes);
    forall n | n in BoxNames(allBoxes) ensures n in RowNames(rows) {
      var i :| 0 <= i < |names| && names[i] == n;
      assert rows[i].name == n;
    }
    SumOfCounts(Occupied(rows), active, BoxOf, names);
    SumIsCountIn(active, BoxOf, names);
  }

  /** The occupancy table of the hook: the usage map, then its rows. */
  method OccupancyData(allBoxes: seq<Box>, active: seq<Reservation>, total: nat) returns (rows: seq<OccupancyRow>)
    ensures RowNames(rows) == BoxNames(allBoxes)
    ensures forall i, j :: 0 <= i < j < |rows| ==> rows[i].name != rows[j].name
    ensures forall i :: 0 <= i < |rows| ==>
      rows[i].occupied == CountWith(active, BoxOf, rows[i].name) && rows[i].capacity == ReportedCapacity(total)
    ensures Sum(Occupied(rows)) == CountIn(active, BoxOf, DistinctNames(allBoxes))
  {
    var usage := UsageMap(allBoxes, active);
    DistinctNamesMeaning(allBoxes);
    rows := OccupancyRows(DistinctNames(allBoxes), usage, total);
    OccupancyMeaning(allBoxes, active, total, usage, rows);
  }

  // ---------------------------------------------------------------------------
  // The day timeline.
  // ---------------------------------------------------------------------------

  /** `r.startTime.split('T')[0]`: the start time up to its first 'T'. */
  function DayKey(r: Reservation): string {
    BeforeFirst(r.startTime, 'T')
  }

  /** `map[key] = (map[key] || 0) + 1` for each active reservation. */
  method CountByDay(active: seq<Reservation>) returns (m: map<string, nat>)
    ensures m.Keys == KeysOf(active, DayKey)
    ensures forall k :: k in m ==> m[k] == CountWith(active, DayKey, k)
  {
    m := map[];
    var j := 0;
    while j < |active|
      invariant 0 <= j <= |active|
      invariant m.Keys == KeysOf(active[..j], DayKey)
      invariant forall k :: k in m ==> m[k] == CountWith(active[..j], DayKey, k)
    {
      assert active[..j + 1] == active[..j] + [active[j]];
      CountWithSnoc(active[..j], DayKey, active[j]);
      var key := BeforeFirst(active[j].startTime, 'T');
      if key in m {
        m := m[key := m[key] + 1];
      } else {
        CountWithPositive(active[..j], DayKey, key);
        m := m[key := 1];
      }
      j := j + 1;
    }
    assert active[..j] == active;
  }

  /** One point of the timeline chart. */
  datatype TimelinePoint = TimelinePoint(date: string, reservas: nat)

  /** The entries of the day counts, sorted by key. */
  function Timeline(m: map<string, nat>): seq<TimelinePoint> {
    var ks := SortedStrings(m.Keys);
    seq(|ks|, i requires 0 <= i < |ks| => TimelinePoint(ks[i], m[ks[i]]))
  }

  /** The counts of some points. */
  function Reservas(pts: seq<TimelinePoint>): seq<nat> {
    seq(|pts|, i requires 0 <= i < |pts| => pts[i].reservas)
  }

  /** `getTimelineData('day')`. */
  method DayTimeline(active: seq<Reservation>) returns (pts: seq<TimelinePoint>)
    ensures forall i, j :: 0 <= i < j < |pts| ==> Less(pts[i].date, pts[j].date)
    ensures forall d :: d in Dates(pts) <==> d in KeysOf(active, DayKey)
    ensures forall i :: 0 <= i < |pts| ==>
      pts[i].reservas == CountWith(active, DayKey, pts[i].date) && pts[i].reservas > 0
    ensures Sum(Reservas(pts)) == |active|
  {
    var m := CountByDay(active);
    pts := Timeline(m);
    TimelineOrder(m, pts);
    TimelineKeys(active, m, pts);
    TimelineCounts(active, m, pts);
    TimelineTotal(active, m, pts);
  }

  /** The timeline's days are in ascending code-unit order, so none repeats. */
  lemma TimelineOrder(m: map<string, nat>, pts: seq<TimelinePoint>)
    requires pts == Timeline(m)
    ensures forall i, j :: 0 <= i < j < |pts| ==> Less(pts[i].date, pts[j].date)
  {
    var ks := SortedStrings(m.Keys);
    assert forall i :: 0 <= i < |pts| ==> pts[i].date == ks[i];
  }

  /** The days of some points. */
  function Dates(pts: seq<TimelinePoint>): seq<string> {
    seq(|pts|, i requires 0 <= i < |pts| => pts[i].date)
  }

  /** The timeline lists exactly the day keys of the active reservations. */
  lemma TimelineKeys(active: seq<Reservation>, m: map<string, nat>, pts: seq<TimelinePoint>)
    requires m.Keys == KeysOf(active, DayKey)
    requires pts == Timeline(m)
    ensures forall d :: d in Dates(pts) <==> d in KeysOf(active, DayKey)
  {
    assert Dates(pts) == SortedStrings(m.Keys);
  }

  /** Each timeline point counts the active reservations starting that day, at least one. */
  lemma TimelineCounts(active: seq<Reservation>, m: map<string, nat>, pts: seq<TimelinePoint>)
    requires m.Keys == KeysOf(active, DayKey)
    requires forall k :: k in m ==> m[k] == CountWith(active, DayKey, k)
    requires pts == Timeline(m)
    ensures forall i :: 0 <= i < |pts| ==>
      pts[i].reservas == CountWith(active, DayKey, pts[i].date) && pts[i].reservas > 0
  {
    var ks := SortedStrings(m.Keys);
    forall i | 0 <= i < |pts|
      ensures pts[i].reservas == CountWith(active, DayKey, pts[i].date) && pts[i].reservas > 0
    {
      assert pts[i] == TimelinePoint(ks[i], m[ks[i]]);
      CountWithPositive(active, DayKey, ks[i]);
    }
  }

  /** The timeline's counts add up to the number of active reservations. */
  lemma TimelineTotal(active: seq<Reservation>, m: map<string, nat>, pts: seq<TimelinePoint>)
    requires m.Keys == KeysOf(active, DayKey)
    requires forall k :: k in m ==> m[k] == CountWith(active, DayKey, k)
    requires pts == Timeline(m)
    ensures Sum(Reservas(pts)) == |active|
  {
    var ks := SortedStrings(m.Keys);
    assert Distinct(ks) by {
      forall i, j | 0 <= i < j < |ks| ensures ks[i] != ks[j] {
        LessIrreflexive(ks[i]);
      }
    }
    TimelineReservas(active, m, pts);
    SumOfCounts(Reservas(pts), active, DayKey, ks);
    SumIsCountIn(active, DayKey, ks);
    assert forall r :: r in active ==> DayKey(r) in ks by {
      forall r | r in active ensures DayKey(r) in ks {
        assert DayKey(r) in KeysOf(active, DayKey);
      }
    }
    CountInAll(active, DayKey, ks);
  }

  /** The timeline's counts, in the order of its sorted days. */
  lemma TimelineReservas(active: seq<Reservation>, m: map<string, nat>, pts: seq<TimelinePoint>)
    requires forall k :: k in m ==> m[k] == CountWith(active, DayKey, k)
    requires pts == Timeline(m)
    ensures var ks := SortedStrings(m.Keys);
      |Reservas(pts)| == |ks| && forall i :: 0 <= i < |ks| ==> Reservas(pts)[i] == CountWith(active, DayKey, ks[i])
  {
  }
}
