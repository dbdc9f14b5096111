/**
 * src/components/ScheduleGrid.tsx: the day grid's fixed half-hour rows, the box filter,
 * the per-cell occupied / selected / match / dimmed flags and what a click on a cell does.
 */
module ScheduleGrid {
  import opened Text
  import opened Calendar
  import opened Wrappers
  import opened Reservations

  /** Row `i` of the grid, for 0 <= i < 24: 08:00 plus i half hours. */
  function GridTimes(): (r: seq<string>)
    ensures |r| == 24
    ensures forall i :: 0 <= i < 24 ==> r[i] == ClockLabel(480 + 30 * i)
  {
    seq(24, i requires 0 <= i < 24 => ClockLabel(480 + 30 * i))
  }

  /** `timeIntervals`: hours 8 to 19, minutes 0 and 30, each zero-padded as `HH:mm`. */
  method TimeIntervals() returns (times: seq<string>)
    ensures times == GridTimes()
  {
    times := [];
    for hour := 8 to 20
      invariant |times| == 2 * (hour - 8)
      invariant LabelsFrom(times)
    {
      var minute := 0;
      while minute < 60
        invariant minute == 0 || minute == 30 || minute == 60
        invariant |times| == 2 * (hour - 8) + minute / 30
        invariant LabelsFrom(times)
      {
        var clock := PadTwo(hour) + ":" + PadTwo(minute);
        LabelsStep(times, hour, minute);
        times := times + [clock];
        minute := minute + 30;
      }
    }
  }

  /** Entry i is the label of 08:00 plus i half hours. */
  predicate LabelsFrom(times: seq<string>) {
    |times| <= 24 && forall i :: 0 <= i < |times| ==> times[i] == ClockLabel(480 + 30 * i)
  }

  /** Appending the label of the loops' next hour and minute keeps the entries in step. */
  lemma LabelsStep(times: seq<string>, hour: int, minute: int)
    requires 8 <= hour < 20 && (minute == 0 || minute == 30)
    requires |times| == 2 * (hour - 8) + minute / 30 && LabelsFrom(times)
    ensures LabelsFrom(times + [PadTwo(hour) + ":" + PadTwo(minute)])
  {
    if minute == 0 {
      assert |times| == 2 * (hour - 8);
    } else {
      assert |times| == 2 * (hour - 8) + 1;
    }
    assert 480 + 30 * |times| == hour * 60 + minute;
    ClockLabelParts(hour, minute);
    LabelsSnoc(times, PadTwo(hour) + ":" + PadTwo(minute));
  }

  /** Appending the label of the next half hour keeps the entries in step. */
  lemma LabelsSnoc(times: seq<string>, clock: string)
    requires LabelsFrom(times) && |times| < 24 && clock == ClockLabel(480 + 30 * |times|)
    ensures LabelsFrom(times + [clock])
  {
    var t := times + [clock];
    forall i | 0 <= i < |t| ensures t[i] == ClockLabel(480 + 30 * i) {
      if i < |times| {
        assert t[i] == times[i];
      }
    }
  }

  /** The rows are well-formed labels of 08:00 plus i half hours. */
  lemma GridTimesShape()
    ensures forall i :: 0 <= i < 24 ==> IsClock(GridTimes()[i])
    ensures forall i :: 0 <= i < 24 ==> ClockMinutes(GridTimes()[i]) == 480 + 30 * i
  {
    var g := GridTimes();
    forall i | 0 <= i < 24
      ensures ClockMinutes(g[i]) == 480 + 30 * i
    {
      ClockRoundTrip(480 + 30 * i);
    }
  }

  /** The first row is 08:00 and the last 19:30. */
  lemma GridTimesEnds()
    ensures GridTimes()[0] == "08:00" && GridTimes()[23] == "19:30"
  {
    ClockLabelParts(8, 0);
    ClockLabelParts(19, 30);
    assert PadTwo(8) == "08" && PadTwo(0) == "00" && PadTwo(19) == "19" && PadTwo(30) == "30";
  }

  /** The rows are strictly ascending. */
  lemma GridTimesAscending()
    ensures Ascending(GridTimes())
  {
    var g := GridTimes();
    forall i, j | 0 <= i < j < 24
      ensures Less(g[i], g[j])
    {
      assert g[i] == ClockLabel(480 + 30 * i) && g[j] == ClockLabel(480 + 30 * j);
      ClockOrder(480 + 30 * i, 480 + 30 * j);
    }
  }

  /** `visibleBoxes`: every box without a filter or with 'all', otherwise the boxes equal
      to the filter, in the original order. */
  function VisibleBoxes(boxes: seq<string>, filter: string): (r: seq<string>)
    ensures filter == "" || filter == "all" ==> r == boxes
    ensures filter != "" && filter != "all" ==>
      (forall b :: b in r ==> b == filter) && multiset(r)[filter] == multiset(boxes)[filter]
  {
    if filter == "" || filter == "all" then boxes else KeepEqual(boxes, filter)
  }

  /** `boxes.filter(b => b === x)`. */
  function KeepEqual(boxes: seq<string>, x: string): (r: seq<string>)
    ensures forall b :: b in r ==> b == x
    ensures multiset(r)[x] == multiset(boxes)[x]
  {
    if boxes == [] then []
    else
      assert boxes == [boxes[0]] + boxes[1..];
      (if boxes[0] == x then [x] else []) + KeepEqual(boxes[1..], x)
  }

  /** The search test shared by the cell highlight and the match counter: the lower-cased
      term occurs in the lower-cased summary or in a non-empty observation. */
  predicate SearchMatch(info: SlotInfo, searchTerm: string) {
    var term := Lower(searchTerm);
    Contains(Lower(info.summary), term)
    || (info.observation.Some? && info.observation.value != "" && Contains(Lower(info.observation.value), term))
  }

  /** What one cell shows. */
  datatype Cell = Cell(occupant: Option<SlotInfo>, selected: bool, isMatch: bool, isDimmed: bool)

  /** The cell of `box` at `time`. */
  function CellAt(grid: Grid, selectedBox: Option<string>, selectedSlots: set<string>,
                  box: string, time: string, searchTerm: string): (c: Cell)
    ensures c.occupant.Some? <==> box in grid && time in grid[box]
    ensures c.occupant.Some? ==> c.occupant.value == grid[box][time]
    ensures c.selected <==> selectedBox == Some(box) && time in selectedSlots
    ensures !(c.isMatch && c.isDimmed)
    ensures searchTerm == "" ==> !c.isMatch && !c.isDimmed
    ensures c.isMatch <==> c.occupant.Some? && searchTerm != "" && SearchMatch(c.occupant.value, searchTerm)
    ensures c.isDimmed <==> c.occupant.Some? && searchTerm != "" && !SearchMatch(c.occupant.value, searchTerm)
  {
    var row := if box in grid then grid[box] else map[];
    var occupant := if time in row then Some(row[time]) else None;
    var selected := selectedBox == Some(box) && time in selectedSlots;
    if occupant.Some? && |searchTerm| > 0 then
      var m := SearchMatch(occupant.value, searchTerm);
      Cell(occupant, selected, m, !m)
    else Cell(occupant, selected, false, false)
  }

  /** What a click on a cell asks the page to do. */
  datatype Click = BookSlot(box: string, time: string) | OpenDelete(info: SlotInfo, time: string, box: string)

  /** Free cells call `onSlotClick`; occupied cells only open the delete dialog. */
  function ClickOn(c: Cell, box: string, time: string): (k: Click)
    ensures k.BookSlot? <==> c.occupant.None?
    ensures k.OpenDelete? ==> k == OpenDelete(c.occupant.value, time, box)
    ensures k.BookSlot? ==> k == BookSlot(box, time)
  {
    match c.occupant
    case Some(info) => OpenDelete(info, time, box)
    case None => BookSlot(box, time)
  }

  /** A click never offers an occupied slot for booking. */
  lemma ClickNeverBooksOccupied(grid: Grid, selectedBox: Option<string>, selectedSlots: set<string>,
                                box: string, time: string, searchTerm: string)
    requires box in grid && time in grid[box]
    ensures ClickOn(CellAt(grid, selectedBox, selectedSlots, box, time, searchTerm), box, time).OpenDelete?
  {
  }
}
