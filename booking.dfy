/**
 * src/App.tsx: the booking side of the main page. Slot selection, the weekday toggle,
 * the search-match counter, and `handleReservation`, which validates the form, rejects
 * a request touching an occupied slot of the loaded day, expands a recurrence into
 * dates, and creates one reservation per (date, slot) pair.
 */
module Booking {
  import opened Text
  import opened Calendar
  import opened Wrappers
  import opened ChileTime
  import opened Reservations
  import opened ScheduleGrid

  // ---------------------------------------------------------------------------
  // Selection handlers.
  // ---------------------------------------------------------------------------

  /** The box whose slots are being selected (null in the page when nothing is) and the slots. */
  datatype Selection = Selection(box: Option<string>, slots: set<string>)

  /** A JavaScript string value that is neither null nor empty. */
  predicate Truthy(s: Option<string>) {
    s.Some? && s.value != ""
  }

  /** `handleSlotClick`: a click in another box restarts the selection there; a click in the
      same box toggles the slot, and the box is kept only while some slot is selected. */
  function SlotClick(sel: Selection, box: string, time: string): (r: Selection)
    ensures r.box.None? <==> r.slots == {}
    ensures r.box.Some? ==> r.box.value == box
    ensures Truthy(sel.box) && sel.box.value != box ==> r.slots == {time}
    ensures !(Truthy(sel.box) && sel.box.value != box) ==>
      (time in r.slots <==> time !in sel.slots) && r.slots - {time} == sel.slots - {time}
  {
    if Truthy(sel.box) && sel.box.value != box then Selection(Some(box), {time})
    else
      var slots := if time in sel.slots then sel.slots - {time} else sel.slots + {time};
      Selection(if slots != {} then Some(box) else None, slots)
  }

  /** Clicking the same free cell twice restores a consistent selection of that box. */
  lemma SlotClickTwice(sel: Selection, box: string, time: string)
    requires sel.box.None? <==> sel.slots == {}
    requires sel.box.None? || sel.box == Some(box)
    ensures SlotClick(SlotClick(sel, box, time), box, time) == sel
  {
    var once := SlotClick(sel, box, time);
    if time in sel.slots {
      assert once.slots + {time} == sel.slots;
    } else {
      assert once.slots - {time} == sel.slots;
    }
  }

  /** `days.filter(d => d !== x)`. */
  function Without(days: seq<int>, x: int): (r: seq<int>)
    ensures forall y :: y in r <==> y in days && y != x
  {
    if days == [] then []
    else
      assert days == [days[0]] + days[1..];
      (if days[0] == x then [] else [days[0]]) + Without(days[1..], x)
  }

  predicate Distinct(s: seq<int>) {
    forall i, j :: 0 <= i < j < |s| ==> s[i] != s[j]
  }

  /** `toggleWeekDay`: a present day is removed, an absent one appended. */
  function ToggleWeekDay(days: seq<int>, day: int): (r: seq<int>)
    ensures day in r <==> day !in days
    ensures forall y :: y != day ==> (y in r <==> y in days)
    ensures day !in days ==> r == days + [day]
  {
    if day in days then Without(days, day) else days + [day]
  }

  /** Toggling never introduces a repeated weekday. */
  lemma ToggleKeepsDistinct(days: seq<int>, day: int)
    requires Distinct(days)
    ensures Distinct(ToggleWeekDay(days, day))
  {
    if day in days {
      WithoutDistinct(days, day);
    }
  }

  lemma {:induction false} WithoutDistinct(days: seq<int>, x: int)
    requires Distinct(days)
    ensures Distinct(Without(days, x))
  {
    if days != [] {
      var tail := days[1..];
      assert Distinct(tail) by {
        forall i, j | 0 <= i < j < |tail| ensures tail[i] != tail[j] {
          assert tail[i] == days[i + 1] && tail[j] == days[j + 1];
        }
      }
      WithoutDistinct(tail, x);
      var w := Without(tail, x);
      assert days[0] !in tail by {
        forall k | 0 <= k < |tail| ensures tail[k] != days[0] {
          assert tail[k] == days[k + 1];
        }
      }
      assert days[0] !in w;
    }
  }

  // ---------------------------------------------------------------------------
  // Search counter.
  // ---------------------------------------------------------------------------

  /** The (box, time) cells of a grid whose occupant matches the search term. */
  function MatchedCells(grid: Grid, searchTerm: string): set<(string, string)> {
    set b, t | b in grid && t in grid[b] && SearchMatch(grid[b][t], searchTerm) :: (b, t)
  }

  /** `currentViewMatches`: 0 without a search term or an empty grid, otherwise the number of
      occupied cells whose occupant matches. */
  method CurrentViewMatches(grid: Grid, searchTerm: string) returns (count: nat)
    ensures searchTerm == "" ==> count == 0
    ensures searchTerm != "" ==> count == |MatchedCells(grid, searchTerm)|
  {
    if searchTerm == "" || |grid| == 0 {
      if searchTerm != "" {
        assert grid == map[];
        SameCells({}, grid, searchTerm);
      }
      return 0;
    }
    count := 0;
    ghost var seen: set<(string, string)> := {};
    var boxesLeft := grid.Keys;
    while boxesLeft != {}
      invariant boxesLeft <= grid.Keys
      invariant forall x, t :: (x, t) in seen <==>
        x in grid && x !in boxesLeft && t in grid[x] && SearchMatch(grid[x][t], searchTerm)
      invariant count == |seen|
      decreases |boxesLeft|
    {
      var b :| b in boxesLeft;
      seen, count := CountBoxMatches(grid, searchTerm, b, boxesLeft, seen, count);
      boxesLeft := boxesLeft - {b};
    }
    SameCells(seen, grid, searchTerm);
  }

  /** The inner loop of `currentViewMatches`: the matching cells of box `b`, added to those
      of the boxes already counted. */
  method CountBoxMatches(grid: Grid, searchTerm: string, b: string, ghost boxesLeft: set<string>,
                         ghost seen0: set<(string, string)>, count0: nat)
    returns (ghost seen: set<(string, string)>, count: nat)
    requires b in boxesLeft && b in grid
    requires forall x, t :: (x, t) in seen0 <==>
      x in grid && x !in boxesLeft && t in grid[x] && SearchMatch(grid[x][t], searchTerm)
    requires count0 == |seen0|
    ensures forall x, t :: (x, t) in seen <==>
      x in grid && (x !in boxesLeft || x == b) && t in grid[x] && SearchMatch(grid[x][t], searchTerm)
    ensures count == |seen|
  {
    seen, count := seen0, count0;
    var row := grid[b];
    var timesLeft := row.Keys;
    while timesLeft != {}
      invariant timesLeft <= row.Keys
      invariant forall x, t :: (x, t) in seen <==>
        ((x in grid && x !in boxesLeft) || (x == b && t !in timesLeft))
        && x in grid && t in grid[x] && SearchMatch(grid[x][t], searchTerm)
      invariant count == |seen|
      decreases |timesLeft|
    {
      var t :| t in timesLeft;
      if SearchMatch(row[t], searchTerm) {
        assert (b, t) !in seen;
        seen := seen + {(b, t)};
        count := count + 1;
      }
      timesLeft := timesLeft - {t};
    }
  }

  /** A set of pairs with the matched cells' membership test is the set of matched cells. */
  lemma SameCells(cells: set<(string, string)>, grid: Grid, searchTerm: string)
    requires forall x, t :: (x, t) in cells <==> x in grid && t in grid[x] && SearchMatch(grid[x][t], searchTerm)
    ensures cells == MatchedCells(grid, searchTerm)
  {
    forall p | p in MatchedCells(grid, searchTerm) ensures p in cells {
      var (x, t) := p;
      assert x in grid && t in grid[x] && SearchMatch(grid[x][t], searchTerm);
    }
    forall p | p in cells ensures p in MatchedCells(grid, searchTerm) {
      var (x, t) := p;
      assert (x, t) in cells;
    }
  }

  /** Every cell the counter counts is highlighted on the grid. */
  lemma CountedCellsAreHighlighted(grid: Grid, searchTerm: string, selectedBox: Option<string>,
                                   selectedSlots: set<string>, box: string, time: string)
    requires searchTerm != ""
    ensures (box, time) in MatchedCells(grid, searchTerm)
        <==> CellAt(grid, selectedBox, selectedSlots, box, time, searchTerm).isMatch
  {
  }

  // ---------------------------------------------------------------------------
  // Recurrence.
  // ---------------------------------------------------------------------------

  /** The days visited from `cur` (kept at time of day `ms`) while the instant is not after
      `limitKey`, keeping those whose weekday is selected. */
  function RecurringDates(cur: Date, ms: int, limitKey: int, weekDays: seq<int>): (r: seq<Date>)
    requires ValidDate(cur) && 0 <= ms < MsPerDay
    ensures forall d :: d in r ==> ValidDate(d)
    decreases limitKey - InstantKey(LocalInstant(cur, ms))
  {
    if InstantKey(LocalInstant(cur, ms)) > limitKey then []
    else
      NextDayNumber(cur);
      (if Weekday(cur) in weekDays then [cur] else []) + RecurringDates(NextDay(cur), ms, limitKey, weekDays)
  }

  /** A date is produced iff it is on or after the start day, its instant at the start's
      time of day is not after the limit, and its weekday is selected. */
  lemma {:induction false} RecurringDatesExactly(cur: Date, ms: int, limitKey: int, weekDays: seq<int>, d: Date)
    requires ValidDate(cur) && 0 <= ms < MsPerDay
    ensures d in RecurringDates(cur, ms, limitKey, weekDays) <==>
      ValidDate(d) && DayNumber(cur) <= DayNumber(d) && DayNumber(d) * MsPerDay + ms <= limitKey
      && Weekday(d) in weekDays
    decreases limitKey - InstantKey(LocalInstant(cur, ms))
  {
    if InstantKey(LocalInstant(cur, ms)) <= limitKey {
      NextDayNumber(cur);
      RecurringDatesExactly(NextDay(cur), ms, limitKey, weekDays, d);
      if ValidDate(d) && DayNumber(d) == DayNumber(cur) {
        DayNumberInjective(d, cur);
      }
    }
  }

  /** One turn of the loop: the day is taken when its weekday is selected, then the next day. */
  lemma RecurringStep(cur: Date, ms: int, limitKey: int, weekDays: seq<int>)
    requires ValidDate(cur) && 0 <= ms < MsPerDay
    requires InstantKey(LocalInstant(cur, ms)) <= limitKey
    ensures InstantKey(LocalInstant(NextDay(cur), ms)) == InstantKey(LocalInstant(cur, ms)) + MsPerDay
    ensures Weekday(cur) in weekDays ==>
      RecurringDates(cur, ms, limitKey, weekDays) == [cur] + RecurringDates(NextDay(cur), ms, limitKey, weekDays)
    ensures Weekday(cur) !in weekDays ==>
      RecurringDates(cur, ms, limitKey, weekDays) == RecurringDates(NextDay(cur), ms, limitKey, weekDays)
  {
    NextDayNumber(cur);
    if Weekday(cur) !in weekDays {
      var rest := RecurringDates(NextDay(cur), ms, limitKey, weekDays);
      assert [] + rest == rest;
    }
  }

  /** Dates in strictly increasing calendar order. */
  predicate DaysAscending(r: seq<Date>)
    requires forall d :: d in r ==> ValidDate(d)
  {
    forall i, j :: 0 <= i < j < |r| ==> DayNumber(r[i]) < DayNumber(r[j])
  }

  lemma DaysAscendingCons(d: Date, rest: seq<Date>)
    requires ValidDate(d) && forall e :: e in rest ==> ValidDate(e)
    requires DaysAscending(rest)
    requires forall e :: e in rest ==> DayNumber(d) < DayNumber(e)
    ensures DaysAscending([d] + rest)
  {
    var r := [d] + rest;
    forall i, j | 0 <= i < j < |r|
      ensures DayNumber(r[i]) < DayNumber(r[j])
    {
      assert r[j] == rest[j - 1];
      if i > 0 {
        assert r[i] == rest[i - 1];
      }
    }
  }

  /** The dates come out in strictly increasing calendar order. */
  lemma {:induction false} RecurringDatesAscending(cur: Date, ms: int, limitKey: int, weekDays: seq<int>)
    requires ValidDate(cur) && 0 <= ms < MsPerDay
    ensures DaysAscending(RecurringDates(cur, ms, limitKey, weekDays))
    decreases limitKey - InstantKey(LocalInstant(cur, ms))
  {
    if InstantKey(LocalInstant(cur, ms)) <= limitKey {
      RecurringStep(cur, ms, limitKey, weekDays);
      var next := NextDay(cur);
      NextDayNumber(cur);
      var rest := RecurringDates(next, ms, limitKey, weekDays);
      RecurringDatesAscending(next, ms, limitKey, weekDays);
      if Weekday(cur) in weekDays {
        forall e | e in rest ensures DayNumber(cur) < DayNumber(e) {
          RecurringDatesExactly(next, ms, limitKey, weekDays, e);
        }
        DaysAscendingCons(cur, rest);
      }
    }
  }

  /** The `while (currentDate <= limitDate)` loop: `setDate(+1)` keeps the time of day. */
  method ExpandRecurrence(start: LocalInstant, limit: LocalInstant, weekDays: seq<int>) returns (dates: seq<Date>)
    requires ValidInstant(start) && ValidInstant(limit)
    ensures dates == RecurringDates(start.date, start.ms, InstantKey(limit), weekDays)
  {
    var limitKey := InstantKey(limit);
    ghost var all := RecurringDates(start.date, start.ms, limitKey, weekDays);
    dates := [];
    var current := start.date;
    while InstantKey(LocalInstant(current, start.ms)) <= limitKey
      invariant ValidDate(current)
      invariant dates + RecurringDates(current, start.ms, limitKey, weekDays) == all
      decreases limitKey - InstantKey(LocalInstant(current, start.ms))
    {
      RecurringStep(current, start.ms, limitKey, weekDays);
      ghost var rest := RecurringDates(NextDay(current), start.ms, limitKey, weekDays);
      if Weekday(current) in weekDays {
        Associative(dates, [current], rest);
        dates := dates + [current];
      }
      current := NextDay(current);
    }
    assert RecurringDates(current, start.ms, limitKey, weekDays) == [];
    assert dates + [] == dates;
  }

  // ---------------------------------------------------------------------------
  // Writes.
  // ---------------------------------------------------------------------------

  /** The end of a half-hour slot: `setHours(h, m + 30)` read back as zero-padded `HH:mm`.
      Only the clock wraps at midnight; the date of the end timestamp is the start's. The
      end is taken not to fall in an hour the local time zone skips (grid slots end by
      20:00, far from Chile's midnight change). */
  function EndTime(time: string): (r: string)
    requires IsClock(time)
    ensures IsClock(r)
    ensures ClockMinutes(r) == (ClockMinutes(time) + 30) % 1440
  {
    ClockRoundTrip((ClockMinutes(time) + 30) % 1440);
    ClockLabel((ClockMinutes(time) + 30) % 1440)
  }

  /** Before 23:30 the end label sorts after the start label; `09:30` ends at `10:00`. */
  lemma EndTimeAfterStart(time: string)
    requires IsClock(time) && ClockMinutes(time) < 1410
    ensures Less(time, EndTime(time))
  {
    var a := ClockMinutes(time);
    assert (a + 30) % 1440 == a + 30;
    assert EndTime(time) == ClockLabel(a + 30);
    ClockLabelOfMinutes(time);
    ClockOrder(a, a + 30);
  }

  lemma EndTimeExample()
    ensures EndTime("09:30") == "10:00"
  {
    var s, e := "09:30", "10:00";
    assert DigitValue('0') == 0 && DigitValue('9') == 9 && DigitValue('3') == 3 && DigitValue('1') == 1;
    assert s[..2] == ['0', '9'] && s[3..] == ['3', '0'];
    assert e[..2] == ['1', '0'] && e[3..] == ['0', '0'];
    assert IsClock(s) && IsClock(e);
    assert ClockMinutes(s) == 570;
    assert ClockMinutes(e) == 600;
    assert (ClockMinutes(s) + 30) % 1440 == 600;
    ClockLabelOfMinutes(e);
    assert ClockLabel(600) == e;
  }

  /** Every grid row's slot ends later on the same day. */
  lemma GridSlotsEndLater(i: int)
    requires 0 <= i < 24
    ensures IsClock(GridTimes()[i]) && Less(GridTimes()[i], EndTime(GridTimes()[i]))
  {
    GridTimesShape();
    EndTimeAfterStart(GridTimes()[i]);
  }

  /** The fields shared by every reservation of one request. */
  datatype WriteContext = WriteContext(orgId: string, centerId: string, box: Box, doctorName: string,
                                       observation: string, userId: string)

  predicate AllClock(slots: seq<string>) {
    forall t :: t in slots ==> IsClock(t)
  }

  predicate AllValid(dates: seq<Date>) {
    forall d :: d in dates ==> ValidDate(d)
  }

  /** The `createReservationDB` argument for one date and slot. */
  function WriteFor(c: WriteContext, date: Date, time: string): Draft
    requires ValidDate(date) && IsClock(time)
  {
    Draft(c.orgId, c.centerId, c.box.id, c.box.name, c.doctorName, Some(c.observation),
      FormatToIsoWithOffset(date, time), FormatToIsoWithOffset(date, EndTime(time)), c.userId,
      None, None, None)
  }

  /** One date with each slot, in slot order (the inner `for` loop). */
  function Row<D, S>(d: D, slots: seq<S>): (r: seq<(D, S)>)
    ensures |r| == |slots|
    ensures forall j :: 0 <= j < |slots| ==> r[j] == (d, slots[j])
  {
    if slots == [] then [] else Row(d, slots[..|slots| - 1]) + [(d, slots[|slots| - 1])]
  }

  /** Every (date, slot) pair, dates outermost (the two nested `for` loops). */
  function Pairs<D, S>(dates: seq<D>, slots: seq<S>): (r: seq<(D, S)>)
    ensures forall n :: 0 <= n < |r| ==> r[n].0 in dates && r[n].1 in slots
  {
    if dates == [] then []
    else
      var k := |dates| - 1;
      var a := Pairs(dates[..k], slots);
      assert forall n :: 0 <= n < |a| ==> a[n].0 in dates;
      a + Row(dates[k], slots)
  }

  /** There are |dates|·|slots| pairs. */
  lemma {:induction false} PairsLength<D, S>(dates: seq<D>, slots: seq<S>)
    ensures |Pairs(dates, slots)| == |dates| * |slots|
  {
    if dates != [] {
      var n := |dates| - 1;
      PairsLength(dates[..n], slots);
      assert |dates| * |slots| == n * |slots| + |slots|;
    }
  }

  /** The pairs of consecutive date lists are consecutive. */
  lemma {:induction false} PairsAppend<D, S>(a: seq<D>, b: seq<D>, slots: seq<S>)
    ensures Pairs(a + b, slots) == Pairs(a, slots) + Pairs(b, slots)
    decreases |b|
  {
    if b == [] {
      assert a + b == a;
    } else {
      var n := |b| - 1;
      var ab := a + b;
      assert ab[..|ab| - 1] == a + b[..n];
      assert ab[|ab| - 1] == b[n];
      PairsAppend(a, b[..n], slots);
      calc {
        Pairs(ab, slots);
        Pairs(a + b[..n], slots) + Row(b[n], slots);
        (Pairs(a, slots) + Pairs(b[..n], slots)) + Row(b[n], slots);
        Pairs(a, slots) + (Pairs(b[..n], slots) + Row(b[n], slots));
        Pairs(a, slots) + Pairs(b, slots);
      }
    }
  }

  /** Pair number i·|slots| + j is date i with slot j. */
  lemma {:induction false} PairsAt<D, S>(dates: seq<D>, slots: seq<S>, i: int, j: int)
    requires 0 <= i < |dates| && 0 <= j < |slots|
    ensures i * |slots| + j < |Pairs(dates, slots)|
    ensures Pairs(dates, slots)[i * |slots| + j] == (dates[i], slots[j])
  {
    var n := |dates| - 1;
    var init := dates[..n];
    PairsLength(init, slots);
    PairsLength(dates, slots);
    if i < n {
      PairsAt(init, slots, i, j);
      assert init[i] == dates[i];
    }
  }

  predicate ValidPairs(ps: seq<(Date, string)>) {
    forall n :: 0 <= n < |ps| ==> ValidDate(ps[n].0) && IsClock(ps[n].1)
  }

  /** The `createReservationDB` arguments for the first `count` (date, slot) pairs, in order. */
  function WritesOf(c: WriteContext, ps: seq<(Date, string)>, count: nat): (r: seq<Draft>)
    requires ValidPairs(ps) && count <= |ps|
    ensures |r| == count
  {
    seq(count, n requires 0 <= n < count => WriteFor(c, ps[n].0, ps[n].1))
  }

  /** One more call extends the written prefix by that call's arguments. */
  lemma WritesOfSnoc(c: WriteContext, ps: seq<(Date, string)>, m: nat, d: Date, t: string)
    requires ValidPairs(ps) && m < |ps| && ps[m] == (d, t)
    ensures ValidDate(d) && IsClock(t)
    ensures WritesOf(c, ps, m + 1) == WritesOf(c, ps, m) + [WriteFor(c, d, t)]
  {
    var a, b := WritesOf(c, ps, m), WritesOf(c, ps, m + 1);
    assert b[..m] == a;
    Snoc(b, a, b[m]);
  }

  /** The two nested `for` loops of `handleReservation` that call `createReservationDB`, one
      call per date and slot. Call number `failAt` (counting from 0) throws and ends the
      loops; `writes` lists the calls that returned, which are the first calls of the full
      sequence. `createdCount` counts the dates whose calls all returned. */
  method WriteAll(ctx: WriteContext, dates: seq<Date>, slots: seq<string>, failAt: nat)
    returns (writes: seq<Draft>, createdCount: nat, failed: bool)
    requires AllValid(dates) && AllClock(slots)
    ensures failed <==> failAt < |Pairs(dates, slots)|
    ensures failed ==> writes == WritesOf(ctx, Pairs(dates, slots), failAt)
    ensures !failed ==> writes == WritesOf(ctx, Pairs(dates, slots), |Pairs(dates, slots)|)
    ensures !failed ==> createdCount == |dates|
  {
    ghost var ps := Pairs(dates, slots);
    PairsLength(dates, slots);
    var k := |slots|;
    writes := [];
    createdCount := 0;
    failed := false;
    var i := 0;
    while i < |dates| && !failed
      invariant 0 <= i <= |dates|
      invariant createdCount == i
      invariant !failed ==> |writes| == i * k && |writes| <= failAt
      invariant failed ==> failAt < |ps| && |writes| == failAt
      invariant ValidPairs(ps)
      invariant |writes| <= |ps| && writes == WritesOf(ctx, ps, |writes|)
      decreases |dates| - i, if failed then 0 else 1
    {
      var j := 0;
      while j < k && !failed
        invariant 0 <= j <= k
        invariant !failed ==> |writes| == i * k + j && |writes| <= failAt
        invariant failed ==> failAt < |ps| && |writes| == failAt
        invariant |writes| <= |ps| && writes == WritesOf(ctx, ps, |writes|)
        decreases k - j, if failed then 0 else 1
      {
        PairsAt(dates, slots, i, j);
        if |writes| == failAt {
          failed := true;
        } else {
          WritesOfSnoc(ctx, ps, |writes|, dates[i], slots[j]);
          writes := writes + [WriteFor(ctx, dates[i], slots[j])];
          j := j + 1;
        }
      }
      if !failed {
        assert (i + 1) * k == i * k + k;
        createdCount := createdCount + 1;
        i := i + 1;
      }
    }
  }

  // ---------------------------------------------------------------------------
  // handleReservation.
  // ---------------------------------------------------------------------------

  /** The booking form state `handleReservation` reads. `date` carries the selected day with
      its time of day; `slots` holds grid labels. */
  datatype Form = Form(
    centerId: string,
    selectedBox: Option<string>,
    doctorId: string,
    otherDoctorName: string,
    date: Option<LocalInstant>,
    slots: set<string>,
    isRecurring: bool,
    recurrenceEndDate: string,
    weekDays: seq<int>,
    observation: string)

  /** The signed-in user's profile. */
  datatype Profile = Profile(orgId: string, uid: string)

  datatype Outcome =
    | IncompleteForm
    | NoOrganization
    | IncompleteRecurrence
    | BadReservationData
    | SlotTaken
    | Booked(days: nat)
    | WriteFailed

  /** Center, box, doctor (chosen or typed), date or slots missing. */
  predicate FormIncomplete(f: Form) {
    f.centerId == "" || !Truthy(f.selectedBox) || (f.doctorId == "" && f.otherDoctorName == "")
    || f.date.None? || f.slots == {}
  }

  predicate MissingOrganization(p: Option<Profile>) {
    p.None? || p.value.orgId == ""
  }

  predicate RecurrenceIncomplete(f: Form) {
    f.isRecurring && (f.recurrenceEndDate == "" || f.weekDays == [])
  }

  /** The request passed the three validation steps. */
  predicate Validated(f: Form, p: Option<Profile>) {
    !FormIncomplete(f) && !MissingOrganization(p) && !RecurrenceIncomplete(f)
  }

  /** Index of the first doctor with the id, or |doctors|. */
  function FindDoctor(doctors: seq<Doctor>, id: string): (i: nat)
    ensures i <= |doctors|
    ensures forall k :: 0 <= k < i ==> doctors[k].id != id
    ensures i < |doctors| ==> doctors[i].id == id
  {
    if doctors == [] then 0 else if doctors[0].id == id then 0 else 1 + FindDoctor(doctors[1..], id)
  }

  /** Index of the first box with the name in the centre, or |boxes|. */
  function FindBox(boxes: seq<Box>, name: string, centerId: string): (i: nat)
    ensures i <= |boxes|
    ensures forall k :: 0 <= k < i ==> boxes[k].name != name || boxes[k].centerId != centerId
    ensures i < |boxes| ==> boxes[i].name == name && boxes[i].centerId == centerId
  {
    if boxes == [] then 0
    else if boxes[0].name == name && boxes[0].centerId == centerId then 0
    else 1 + FindBox(boxes[1..], name, centerId)
  }

  /** The doctor name written: the typed name for 'otro', else the listed doctor's, else "". */
  function DoctorName(f: Form, doctors: seq<Doctor>): string {
    if f.doctorId == "otro" then f.otherDoctorName
    else
      var i := FindDoctor(doctors, f.doctorId);
      if i < |doctors| then doctors[i].name else ""
  }

  /** Some requested slot already has an occupant in the selected box's row of the loaded day. */
  predicate HasConflict(grid: Grid, box: string, slots: set<string>) {
    box in grid && exists t :: t in slots && t in grid[box]
  }

  /** The request reaches the write loop. */
  predicate Proceeds(f: Form, p: Option<Profile>, doctors: seq<Doctor>, boxes: seq<Box>, grid: Grid) {
    Validated(f, p)
    && FindBox(boxes, f.selectedBox.value, f.centerId) < |boxes|
    && DoctorName(f, doctors) != ""
    && !HasConflict(grid, f.selectedBox.value, f.slots)
  }

  /** The dates to book: the recurrence, or just the selected day. */
  function DatesOf(f: Form, limit: LocalInstant): (r: seq<Date>)
    requires f.date.Some? && ValidInstant(f.date.value) && ValidInstant(limit)
    ensures AllValid(r)
  {
    if f.isRecurring then RecurringDates(f.date.value.date, f.date.value.ms, InstantKey(limit), f.weekDays)
    else [f.date.value.date]
  }

  function ContextOf(f: Form, p: Option<Profile>, doctors: seq<Doctor>, boxes: seq<Box>): WriteContext
    requires Validated(f, p) && FindBox(boxes, f.selectedBox.value, f.centerId) < |boxes|
  {
    WriteContext(p.value.orgId, f.centerId, boxes[FindBox(boxes, f.selectedBox.value, f.centerId)],
      DoctorName(f, doctors), f.observation, p.value.uid)
  }

  /** `handleReservation`. The write log lists the `createReservationDB` calls that succeeded;
      the call numbered `failAt` (counting from 0) throws, if there is one. `limit` is the
      instant `new Date(recurrenceEndDate)` set to 23:59:59, which the page computes. */
  method HandleReservation(f: Form, profile: Option<Profile>, doctors: seq<Doctor>, boxes: seq<Box>,
                           grid: Grid, limit: LocalInstant, failAt: nat)
    returns (outcome: Outcome, newDoctor: Option<string>, writes: seq<Draft>)
    requires forall t :: t in f.slots ==> IsClock(t)
    requires f.date.Some? ==> ValidInstant(f.date.value)
    requires ValidInstant(limit)
    ensures FormIncomplete(f) ==> outcome == IncompleteForm
    ensures !FormIncomplete(f) && MissingOrganization(profile) ==> outcome == NoOrganization
    ensures !FormIncomplete(f) && !MissingOrganization(profile) && RecurrenceIncomplete(f) ==>
      outcome == IncompleteRecurrence
    ensures newDoctor.Some? <==> Validated(f, profile) && f.doctorId == "otro" && f.otherDoctorName != ""
    ensures newDoctor.Some? ==> newDoctor.value == f.otherDoctorName
    ensures Validated(f, profile) && FindBox(boxes, f.selectedBox.value, f.centerId) == |boxes| ==>
      outcome == BadReservationData
    ensures Validated(f, profile) && DoctorName(f, doctors) == "" ==> outcome == BadReservationData
    ensures (Validated(f, profile) && FindBox(boxes, f.selectedBox.value, f.centerId) < |boxes|
             && DoctorName(f, doctors) != "" && HasConflict(grid, f.selectedBox.value, f.slots)) ==>
      outcome == SlotTaken
    ensures !Proceeds(f, profile, doctors, boxes, grid) ==> writes == []
    ensures Proceeds(f, profile, doctors, boxes, grid) ==>
      var dates := DatesOf(f, limit);
      var ps := Pairs(dates, SortedStrings(f.slots));
      && writes == WritesOf(ContextOf(f, profile, doctors, boxes), ps, if failAt < |ps| then failAt else |ps|)
      && outcome == (if failAt < |ps| then WriteFailed else Booked(|dates|))
  {
    newDoctor := None;
    writes := [];
    if FormIncomplete(f) {
      return IncompleteForm, newDoctor, writes;
    }
    if MissingOrganization(profile) {
      return NoOrganization, newDoctor, writes;
    }
    if RecurrenceIncomplete(f) {
      return IncompleteRecurrence, newDoctor, writes;
    }

    var doctorName := "";
    if f.doctorId == "otro" {
      doctorName := f.otherDoctorName;
      if f.otherDoctorName != "" {
        newDoctor := Some(f.otherDoctorName);
      }
    } else {
      var d := FindDoctor(doctors, f.doctorId);
      doctorName := if d < |doctors| then doctors[d].name else "";
    }

    var boxIndex := FindBox(boxes, f.selectedBox.value, f.centerId);
    if boxIndex == |boxes| || doctorName == "" {
      return BadReservationData, newDoctor, writes;
    }

    if HasConflict(grid, f.selectedBox.value, f.slots) {
      return SlotTaken, newDoctor, writes;
    }

    var ctx := WriteContext(profile.value.orgId, f.centerId, boxes[boxIndex], doctorName,
                            f.observation, profile.value.uid);
    assert ctx == ContextOf(f, profile, doctors, boxes);
    outcome, writes := BookDates(ctx, f, limit, failAt);
  }

  /** The tail of `handleReservation` once the request passed every check: the dates to
      book, each with every selected slot in ascending order, written until the first
      failing call. */
  method BookDates(ctx: WriteContext, f: Form, limit: LocalInstant, failAt: nat)
    returns (outcome: Outcome, writes: seq<Draft>)
    requires forall t :: t in f.slots ==> IsClock(t)
    requires f.date.Some? && ValidInstant(f.date.value) && ValidInstant(limit)
    ensures var dates := DatesOf(f, limit);
      var ps := Pairs(dates, SortedStrings(f.slots));
      && writes == WritesOf(ctx, ps, if failAt < |ps| then failAt else |ps|)
      && outcome == (if failAt < |ps| then WriteFailed else Booked(|dates|))
  {
    var slots := SortedStrings(f.slots);
    var dates: seq<Date>;
    if f.isRecurring {
      dates := ExpandRecurrence(f.date.value, limit, f.weekDays);
    } else {
      dates := [f.date.value.date];
    }
    assert dates == DatesOf(f, limit);
    var createdCount, failed;
    writes, createdCount, failed := WriteAll(ctx, dates, slots, failAt);
    outcome := if failed then WriteFailed else Booked(createdCount);
  }

  // ---------------------------------------------------------------------------
  // A booked slot as the day view reads it back.
  // ---------------------------------------------------------------------------

  /** A reservation stored from a booking write is shown on its own day, and when the
      time-zone database reads its start back as the slot label, the grid built from any
      reservations ending with it has that slot occupied by it. */
  lemma BookedSlotShows(c: WriteContext, date: Date, time: string, id: string, now: int,
                        earlier: seq<Reservation>, localTime: string -> string)
    requires ValidDate(date) && IsClock(time)
    requires localTime(FormatToIsoWithOffset(date, time)) == time
    ensures var r := Stored(WriteFor(c, date, time), id, now);
      && ShownOn(r, date)
      && c.box.name in GridOf(earlier + [r], localTime)
      && time in GridOf(earlier + [r], localTime)[c.box.name]
      && GridOf(earlier + [r], localTime)[c.box.name][time] == InfoOf(r)
  {
    FormatStartsWithDateLabel(date, time);
    var r := Stored(WriteFor(c, date, time), id, now);
    GridLastWins(earlier + [r], localTime, |earlier|);
  }
}
