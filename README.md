# Clinic box scheduler (cae-2.0) in Dafny

This project models the core of a scheduler for consulting rooms ("boxes") in medical
centres ("CAE"), one organisation at a time. It covers:

- **Reservation store** (`src/services/db.ts`, `src/types.ts`): the store holds reservation
  documents.
  - Creating one stores it as active.
  - Cancelling is a soft delete: it sets the status to cancelled and stamps the time.
  - A note update changes only the observation.
  - The range cancellation cancels every active reservation of one box, doctor and
    local time slot between two dates, in one batch.
  - The day view keeps the non-cancelled reservations starting on the day.
  - The occupancy grid files each reservation under its box name and its local `HH:mm`
    time. On a collision the later reservation wins.
- **Booking page** (`src/App.tsx`): slot selection, the weekday toggle and the count of
  search matches.
  - `handleReservation` runs its validation cascade and rejects a request touching an
    occupied slot.
  - A recurrence becomes its dates, walked one day at a time up to `limit`.
    - `limit` is 23:59:59 local time on the local day of `new Date(recurrenceEndDate)`.
    - ECMAScript reads the date-only `YYYY-MM-DD` string as UTC midnight. West of UTC that
      is the evening before, so in Chile the chosen end date itself is never booked.
  - Every (date, slot) pair becomes one create call, in order, until the first call that
    throws.
- **Day grid** (`src/components/ScheduleGrid.tsx`): the 24 half-hour rows from 08:00 to
  19:30, the box filter, the per-cell flags (selected, match, dimmed) and what a click does.
- **Chile time** (`src/utils/dateUtils.ts`): the hand-written America/Santiago offset rule.
  The switches happen at the first Saturday of April and of September, 23:59:59. Stored
  timestamps are `YYYY-MM-DDTHH:mm:00±hh:mm`, the `date-time` form of section 5.6 of
  RFC 3339.
- **Import timestamps** (`src/utils/timeUtils.ts` and its copy in `AdminPanel.tsx`): the
  text before the first `+` is trimmed, its first space becomes `T`, and the result is read
  as UTC.
- **Bulk import** (`src/services/adminBulkActions.ts` and the admin panel's own copy in
  `src/components/AdminPanel.tsx`): centres, boxes and doctors are resolved or created
  through per-run lookup maps, keyed by the lower-cased, trimmed name.
  - Reservations are upserted in write batches: 400 in the service, 100 in the panel.
  - The two copies differ in logging, batch size and error handling; the `Variant`
    parameter selects one.
- **Orphan rescue** (`rescueOrphanData`): every document of the four collections whose
  organisation is missing, empty or another one's is given to the target organisation,
  400 updates per batch.
- **Analytics** (`src/hooks/useAnalytics.ts`):
  - the active/cancelled split;
  - a box's capacity over a date range, in half-hour blocks, from the business hours;
  - the per-box occupancy table;
  - the per-day timeline.

Remote calls are not performed; they are recorded. A run's `effects` list every call that
returned, in order:

- `failAt` is the number of the first call that throws. Every call before it stays; there
  is no rollback.
- `newId(k)` is the id the store gives the document made by call `k`.

Parameters stand in for what the model cannot compute itself:

- `localTime` stands for `getChileTime`, the Intl time-zone conversion.
- `parseUtc` stands for `new Date(s).toISOString()`, with `None` for an Invalid Date.
- `now` and `limit` stand for the clock and for the recurrence end instant the page
  computes (src/App.tsx:247-248). `limit` falls on the local day of UTC midnight of the chosen
  end date, the day before it in America/Santiago.

The model follows these behaviours of the code:

- The booking conflict test uses the grid of the day already loaded; it does not fetch the
  occupancy again.
- A create loop that throws reports no count of the dates written.
- An import whose call throws reports no partial count. The service's exception reaches
  its caller; the panel logs an error line.
- The range cancellation never touches a reservation without a `status` field: Firestore's
  not-equal filter skips documents that lack the field.

As written, a reservation row whose `location` is only spaces is not skipped. It resolves
or creates a centre with an empty name. The model keeps that behaviour
(`ReservationImport.CenterNameOf`).

## Model

| member | source | states |
|---|---|---|
| Text.TrimMeaning | src/services/adminBulkActions.ts:74-75 | `trim` removes white space only, all of it at both ends, and keeps the inside untouched |
| Text.TrimIdempotent | src/services/adminBulkActions.ts:67-80 | trimming a trimmed name changes nothing |
| Text.LowerMeaning | src/components/ScheduleGrid.tsx:97-99 | `toLowerCase` maps each character to its lower-case form and keeps the length |
| Text.LowerChar | src/components/ScheduleGrid.tsx:97-99 | an upper-case letter becomes its own lower-case letter (32 code points on); any other character is kept |
| Text.LowerTrimCommute | src/services/adminBulkActions.ts:67-80 | `toLowerCase().trim()` on stored names equals `trim().toLowerCase()` on row cells |
| Text.ContainsIffOccurs | src/components/ScheduleGrid.tsx:97-99 | `includes` holds exactly when the term occurs at some position |
| Text.BeforeFirst | src/utils/timeUtils.ts:10 | `split(c)[0]` is the prefix before the first `c`, and is the whole string when there is no `c` |
| Text.IndexOf | src/utils/timeUtils.ts:10 | the position of the first occurrence of the character, or the length when it does not occur |
| Text.ReplaceFirst | src/utils/timeUtils.ts:10 | `replace(' ', 'T')` changes only the first occurrence and nothing else |
| Text.RemoveAll | src/services/adminBulkActions.ts:161 | `replace(/"/g, '')` removes every quote and keeps every other character as often as it occurs; without a quote the string is unchanged |
| Text.RemoveAllAppend | src/services/adminBulkActions.ts:161 | removal works piece by piece, so the characters kept stay in their order |
| Text.PadTwoRoundTrip | src/services/db.ts:60-61 | `padStart(2, '0')` of a number below 100 reads back as that number |
| Text.PadTwo | src/services/db.ts:60-61 | `padStart(2, '0')` of a number below 100 is two digits whose value is the number |
| Text.TwoDigitInjective | src/services/db.ts:60-61 | two digits are the padding of their value |
| Text.LessTotal | src/services/db.ts:149 | the string order used for time bounds is total |
| Text.LessTransitive | src/services/db.ts:149 | the string order used for time bounds is transitive |
| Text.SortedStrings | src/App.tsx:242 | `Array.from(set).sort()` lists every element once, in strictly ascending order |
| Text.AscendingUnique | src/App.tsx:242 | the ascending listing of a set is unique, so the sorted slots are determined by the selection |
| Calendar.NextDayNumber | src/App.tsx:254 | `setDate(getDate() + 1)` moves to the next day, across month and year ends |
| Calendar.NextDay | src/App.tsx:254 | the day after a valid date is a valid date |
| Calendar.Weekday | src/App.tsx:251 | `getDay()` is in 0..6 |
| Calendar.NextDayWeekday | src/App.tsx:251-254 | `getDay()` of the next day is one more, modulo 7 |
| Calendar.DayNumberOrder | src/App.tsx:250 | comparing `Date`s at one time of day is comparing calendar dates |
| Calendar.DayNumberInjective | src/App.tsx:250 | two valid dates at the same position are the same date |
| Calendar.DateLabelShape | src/services/db.ts:59-62 | the day prefix is `YYYY-MM-DD`, and the month and day read back from it |
| Calendar.DateLabelInjective | src/services/db.ts:59-62 | different days have different prefixes |
| Calendar.ClockLabelParts | src/components/ScheduleGrid.tsx:39 | the label of hour `h` and minute `m` is their two padded halves joined by `:` |
| Calendar.ClockRoundTrip | src/App.tsx:263-266 | `split(':').map(Number)` of a label gives back its minute of the day |
| Calendar.ClockMinutes | src/App.tsx:263 | the minute of the day read from `HH:mm` is below 1440 |
| Calendar.ClockLabel | src/App.tsx:266 | the padded label of a minute of the day is a well-formed `HH:mm` |
| Calendar.ClockLabelOfMinutes | src/App.tsx:263-266 | every well-formed `HH:mm` is the label of its minute |
| Calendar.ClockOrder | src/App.tsx:242 | slot labels sort as strings exactly as their times do |
| ChileTime.FirstSaturday | src/utils/dateUtils.ts:7-9 | `1 + (6 - getDay() + 7) % 7` is a valid day of the same month |
| ChileTime.FirstSaturdayIsSaturday | src/utils/dateUtils.ts:7-14 | that day is the month's first Saturday: it is in 1..7, it is a Saturday, and no earlier day is |
| ChileTime.SwitchInstant | src/utils/dateUtils.ts:10-15 | the switch instant is the first Saturday at 23:59:59 local time |
| ChileTime.SantiagoOffset | src/utils/dateUtils.ts:4-18 | the offset is always `-03:00` or `-04:00`; the switch dates are built with `new Date(year, month, 1)`, which reads years 0 to 99 as 1900 to 1999 |
| ChileTime.SummerMonths | src/utils/dateUtils.ts:17 | January to March and October to December always get `-03:00` |
| ChileTime.WinterMonths | src/utils/dateUtils.ts:7-17 | May to August get `-04:00`, except in years 0 to 99, which get `-03:00` |
| ChileTime.TwoDigitYearsSummer | src/utils/dateUtils.ts:7-17 | in years 0 to 99 both switch dates fall in the 1900s, so the whole year gets `-03:00` |
| ChileTime.SwitchSaturdayKeepsOldOffset | src/utils/dateUtils.ts:10-17 | a slot on a switch Saturday still has the previous offset, since slots never reach 23:59:59 (in years 0 to 99, `-03:00` on both) |
| ChileTime.KeyOrder | src/utils/dateUtils.ts:17 | an instant on a later day compares greater |
| ChileTime.SlotInstant | src/utils/dateUtils.ts:22-23 | `setHours(h, m, 0, 0)` gives a valid instant of the same day |
| ChileTime.FormatStartsWithDateLabel | src/utils/dateUtils.ts:25-32 | the stored start begins with the day prefix the day view filters on |
| ChileTime.FormatLayout | src/utils/dateUtils.ts:20-33 | for four-digit years the timestamp has 25 characters: date, `T`, the time verbatim, `:00`, then the offset for that date and time |
| ChileTime.FormatRoundTrip | src/utils/dateUtils.ts:20-33 | parsing the timestamp back gives the date, the time label and the offset chosen |
| ChileTime.FourDigits | src/utils/dateUtils.ts:25 | a four-digit year is written with four digits that read back as the year |
| ImportTime.CleanTimestamp | src/utils/timeUtils.ts:10 | the cleaned text has no `+`, is no longer than the input, and has no white space at either end |
| ImportTime.ParseChileanDate | src/utils/timeUtils.ts:7-14 | an empty string gives the current instant; otherwise the cleaned text plus `Z` is parsed as UTC |
| ImportTime.ParserInput | src/utils/timeUtils.ts:10-12 | what the parser receives never carries the original offset and ends in `Z` |
| ImportTime.CleanSupabaseTimestamp | src/utils/timeUtils.ts:10 | `date time+zone` and `date time` both become `dateTtime` |
| Reservations.StoredIsActive | src/services/db.ts:101-107 | a created document is active whatever status the caller gave, has its creation time and keeps every other field |
| Reservations.CancelRecord | src/services/db.ts:110-117 | a soft delete sets the status to cancelled and stamps the time; no other field changes |
| Reservations.CancelAgain | src/services/db.ts:110-117 | cancelling twice is cancelling once at the later time |
| Reservations.WithNote | src/services/db.ts:169-174 | a note update sets the observation and changes no other field |
| Reservations.CancelAll | src/services/db.ts:147-163 | a batch of soft deletes cancels exactly the listed documents and keeps the others and the ids |
| Reservations.RangeMatches | src/services/db.ts:134-151 | a document matches exactly when it has the box, doctor and organisation, is active, starts inside the bounds and has the target local time |
| Reservations.Batch | src/services/db.ts:147-160 | after the visited documents, the batch holds exactly those in range |
| Reservations.BatchStep | src/services/db.ts:147-160 | visiting one more document adds it to the batch exactly when it is in range |
| Reservations.BatchKeys | src/services/db.ts:134-160 | once the snapshot is visited, the batch holds exactly the range matches |
| Reservations.BatchIsCancelAll | src/services/db.ts:153-164 | committing the batch cancels exactly its documents; an empty batch changes nothing |
| Reservations.CancelAllKeepsIds | src/services/db.ts:153-156 | cancelling keeps every document under its own id |
| Reservations.LegacyNeverRangeCancelled | src/services/db.ts:134-141 | a document without a status field is never range-cancelled |
| Reservations.RangeCancelIdempotent | src/services/db.ts:120-166 | after a range cancellation the same request finds nothing more to cancel |
| Reservations.CollectBatch | src/services/db.ts:145-160 | the `forEach` builds exactly the batch of in-range documents and counts it |
| Reservations.ReservationStore.Create | src/services/db.ts:101-107 | the store gains exactly the stored document under its new id |
| Reservations.ReservationStore.Cancel | src/services/db.ts:110-117 | an existing document is soft-deleted; a missing one is an error and nothing changes |
| Reservations.ReservationStore.UpdateNote | src/services/db.ts:169-180 | an existing document gets the note; a missing one is an error and nothing changes |
| Reservations.ReservationStore.CancelInRange | src/services/db.ts:120-166 | exactly the range matches are cancelled and the count returned is their number; with no match nothing is written |
| Reservations.FilterShown | src/services/db.ts:65-68 | a reservation is kept exactly when it starts on the day and is not cancelled |
| Reservations.FilterShownAppend | src/services/db.ts:65-68 | the filter keeps the snapshot's order |
| Reservations.ReservationsForDate | src/services/db.ts:53-69 | no organisation gives nothing; otherwise exactly the snapshot's reservations shown on that day |
| Reservations.InfoOf | src/services/db.ts:189-195 | a cell records the reservation's id, doctor, observation, box id and start |
| Reservations.MapReservationsToSlots | src/services/db.ts:182-198 | the loop builds the grid of placing the reservations in list order |
| Reservations.GridRows | src/services/db.ts:184-188 | the grid has a row for exactly the box names of the input |
| Reservations.GridLastWins | src/services/db.ts:184-196 | a reservation that no later one collides with occupies its box and local time |
| Reservations.GridCellsFromInput | src/services/db.ts:184-196 | every cell holds some input reservation with that box and local time |
| Reservations.CollisionKeepsSecond | src/services/db.ts:189-195 | two reservations in one cell leave the second |
| Booking.SlotClick | src/App.tsx:180-192 | a click in another box restarts the selection there; otherwise the slot toggles, and the box is kept exactly while a slot is selected |
| Booking.SlotClickTwice | src/App.tsx:180-192 | clicking the same cell twice restores the selection |
| Booking.Without | src/App.tsx:196 | the filter removes exactly the given day |
| Booking.ToggleWeekDay | src/App.tsx:194-200 | a present day is removed and an absent one appended; other days are untouched |
| Booking.ToggleKeepsDistinct | src/App.tsx:194-200 | toggling never repeats a weekday |
| Booking.WithoutDistinct | src/App.tsx:196 | removing a day keeps the list free of repeats |
| Booking.CurrentViewMatches | src/App.tsx:128-141 | 0 without a search term; otherwise the number of occupied cells whose occupant matches |
| Booking.CountBoxMatches | src/App.tsx:132-139 | the inner loop adds exactly the matching cells of one box to the count |
| Booking.CountedCellsAreHighlighted | src/App.tsx:134-135 | a cell is counted exactly when the grid highlights it as a match |
| Booking.RecurringDatesExactly | src/App.tsx:245-255 | a date is booked exactly when it is on or after the start day, not after the limit and on a selected weekday |
| Booking.RecurringStep | src/App.tsx:250-254 | one turn of the loop takes the day when its weekday is selected, then moves one day on |
| Booking.RecurringDates | src/App.tsx:250-255 | the recurrence walk yields valid calendar dates only |
| Booking.RecurringDatesAscending | src/App.tsx:250-255 | the dates come out in strictly increasing order |
| Booking.ExpandRecurrence | src/App.tsx:245-255 | the `while` loop produces exactly the recurring dates |
| Booking.EndTime | src/App.tsx:263-266 | the end label is a well-formed `HH:mm` 30 minutes later, modulo a day |
| Booking.EndTimeAfterStart | src/App.tsx:263-266 | before 23:30 the end sorts after the start |
| Booking.EndTimeExample | src/App.tsx:265-266 | `09:30` ends at `10:00` |
| Booking.GridSlotsEndLater | src/App.tsx:263-266 | every grid slot ends later the same day |
| Booking.Row | src/App.tsx:262 | the inner loop pairs one date with every slot, in slot order |
| Booking.Pairs | src/App.tsx:261-262 | every pair is made of a listed date and a listed slot |
| Booking.PairsLength | src/App.tsx:261-279 | there are as many create calls as dates times slots |
| Booking.PairsAppend | src/App.tsx:261-262 | dates are processed in order: the pairs of consecutive date lists are consecutive |
| Booking.PairsAt | src/App.tsx:261-279 | call number `i·slots + j` is date `i` with slot `j` |
| Booking.WritesOf | src/App.tsx:268-278 | the first `count` create calls are one per pair |
| Booking.WritesOfSnoc | src/App.tsx:268-278 | one more call extends the written calls by that call's arguments |
| Booking.WriteAll | src/App.tsx:260-281 | the nested loops fail exactly when a call throws; the calls that returned are the first ones, in order; on success every date is counted |
| Booking.FindDoctor | src/App.tsx:225 | `find` returns the first doctor with the id, or none |
| Booking.FindBox | src/App.tsx:229 | `find` returns the first box with the name in the centre, or none |
| Booking.DatesOf | src/App.tsx:245-258 | the dates to book are valid calendar dates |
| Booking.HandleReservation | src/App.tsx:202-297 | each validation failure gives its own outcome and no write; a conflict with the loaded day aborts; otherwise the writes are the first calls of the (date, slot) pairs, up to the first failure |
| Booking.BookDates | src/App.tsx:240-281 | the dates, each with every selected slot in ascending order, are written until the first failing call; success reports the number of dates |
| Booking.BookedSlotShows | src/App.tsx:268-278 | given that `getChileTime` reads the stored start back as the booked time, a booked slot is shown on its day and occupies its cell in the grid |
| ScheduleGrid.GridTimes | src/components/ScheduleGrid.tsx:35-43 | there are 24 rows, row `i` being 08:00 plus `i` half hours |
| ScheduleGrid.TimeIntervals | src/components/ScheduleGrid.tsx:35-43 | the nested loops build exactly those rows |
| ScheduleGrid.LabelsStep | src/components/ScheduleGrid.tsx:37-40 | each turn of the loops appends the next half hour's label |
| ScheduleGrid.LabelsSnoc | src/components/ScheduleGrid.tsx:39 | appending the next half hour's label keeps the rows in step |
| ScheduleGrid.GridTimesShape | src/components/ScheduleGrid.tsx:35-43 | every row is a well-formed label of its time |
| ScheduleGrid.GridTimesEnds | src/components/ScheduleGrid.tsx:37-38 | the first row is 08:00 and the last 19:30 |
| ScheduleGrid.GridTimesAscending | src/components/ScheduleGrid.tsx:35-43 | the rows are strictly ascending |
| ScheduleGrid.VisibleBoxes | src/components/ScheduleGrid.tsx:30-33 | no filter or `all` shows every box; otherwise only the boxes equal to the filter, as many as there are |
| ScheduleGrid.KeepEqual | src/components/ScheduleGrid.tsx:32 | the filter keeps every occurrence of the box and nothing else |
| ScheduleGrid.CellAt | src/components/ScheduleGrid.tsx:85-107 | a cell is occupied exactly when the grid has it; with a search term an occupied cell is either a match or dimmed, never both |
| ScheduleGrid.ClickOn | src/components/ScheduleGrid.tsx:134-150 | a free cell books the slot; an occupied one opens the delete dialog |
| ScheduleGrid.ClickNeverBooksOccupied | src/components/ScheduleGrid.tsx:112-150 | a click never offers an occupied slot for booking |
| BulkImport.BatchSize | src/services/adminBulkActions.ts:153 | writes per batch are 400 in the service and 100 in the panel |
| BulkImport.NameKeyMeaning | src/services/adminBulkActions.ts:67 | a stored name's key is its trimmed, lower-cased form, in either order |
| BulkImport.NameKeyTrimmed | src/services/adminBulkActions.ts:67 | a stored name's key is the lower-cased trim |
| BulkImport.RowKey | src/services/adminBulkActions.ts:74-80 | a trimmed row cell is looked up by its name key, so names differing in outer spaces share a key |
| BulkImport.NameKeyIgnoresCase | src/services/adminBulkActions.ts:167 | names that differ only in the case of their letters share a key |
| BulkImport.Index | src/services/adminBulkActions.ts:67-68 | `new Map(records.map(...))` holds every record's key |
| BulkImport.IndexValue | src/services/adminBulkActions.ts:67-68 | each map entry is a listed record filed under its own key |
| BulkImport.IndexSnoc | src/services/adminBulkActions.ts:86 | indexing one more record is one more `map.set` |
| BulkImport.IndexKeys | src/services/adminBulkActions.ts:86 | the map only gains keys |
| BulkImport.FreshSnoc | src/services/adminBulkActions.ts:82-90 | creating a record only for an absent key keeps the run free of duplicates |
| BulkImport.FreshUnique | src/services/adminBulkActions.ts:82-98 | records created only under absent keys have keys new to the store and pairwise different |
| BulkImport.CellKey | src/services/adminBulkActions.ts:74-80 | looking up a trimmed cell finds its name key |
| BulkImport.LookupCenterTracked | src/services/adminBulkActions.ts:82-90 | a centre lookup finds or creates the one centre for the key, in the organisation, and the map keeps tracking |
| BulkImport.LookupBoxTracked | src/services/adminBulkActions.ts:92-98 | a box lookup finds or creates the one box for the key, under a known centre |
| BulkImport.LookupDoctorTracked | src/services/adminBulkActions.ts:132-138 | a doctor lookup finds or creates the one doctor for the key, under a known centre |
| BulkImport.InfraRowsFromIs | src/services/adminBulkActions.ts:73-99 | the loop from row `i` is the fold over the rows from `i` on |
| BulkImport.ImportInfraRow | src/services/adminBulkActions.ts:74-98 | the loop body resolves or creates the row's centre, then its box, as the step function does |
| BulkImport.ImportInfraRows | src/services/adminBulkActions.ts:73-99 | the loop runs the rows in order until a call throws |
| BulkImport.ProcessInfrastructure | src/services/adminBulkActions.ts:59-101 | the method's calls, log and failure are those of the infrastructure import |
| BulkImport.InfraCenterGood | src/services/adminBulkActions.ts:79-90 | the centre half of a row keeps the loop invariant and resolves the centre |
| BulkImport.InfraBoxGood | src/services/adminBulkActions.ts:92-98 | the box half of a row keeps the invariant and resolves the box |
| BulkImport.InfraStepGood | src/services/adminBulkActions.ts:73-99 | one row keeps the invariant, only adds to the maps and the log, and resolves the row |
| BulkImport.InfraRowsGood | src/services/adminBulkActions.ts:73-99 | the whole loop keeps the invariant and, unless a call threw, resolves every accepted row |
| BulkImport.InfraImportCreatesOnce | src/services/adminBulkActions.ts:73-99 | only centres and boxes are created, once per key, in the organisation, boxes under known centres; at most `failAt` calls |
| BulkImport.InfraImportResolvesRows | src/services/adminBulkActions.ts:73-99 | unless a call threw, every row with a centre and a box is then found in the stored plus created records |
| BulkImport.InfraImportLog | src/components/AdminPanel.tsx:127-176 | the panel returns at once without an organisation; the log gains the row count, then the counts or the panel's error line |
| BulkImport.InfraImportRun | src/services/adminBulkActions.ts:59-101 | the import keeps the invariant, the log's prefix and, on success, resolves every row |
| BulkImport.InfraCloseGood | src/services/adminBulkActions.ts:100 | the closing line keeps the invariant and the log's prefix |
| BulkImport.InfraStartGood | src/services/adminBulkActions.ts:64-68 | the maps built from the stored records satisfy the invariant |
| BulkImport.InfraStepIdle | src/services/adminBulkActions.ts:77-98 | a skipped or already resolved row changes nothing |
| BulkImport.InfraRowsIdle | src/services/adminBulkActions.ts:73-99 | rows that are all skipped or resolved change nothing |
| BulkImport.InfraImportIdempotent | src/services/adminBulkActions.ts:59-101 | importing the same rows again creates nothing and reports zero new centres and boxes |
| DoctorImport.DoctorRowsFromIs | src/services/adminBulkActions.ts:114-139 | the loop from row `i` is the fold over the rows from `i` on |
| DoctorImport.ImportDoctorRow | src/services/adminBulkActions.ts:115-138 | the loop body resolves or creates the row's centre, then its doctor |
| DoctorImport.ImportDoctorRows | src/services/adminBulkActions.ts:114-139 | the loop runs the rows in order until a call throws |
| DoctorImport.ProcessDoctors | src/services/adminBulkActions.ts:103-141 | the method's calls, log and failure are those of the doctor import |
| DoctorImport.DoctorCenterGood | src/services/adminBulkActions.ts:120-130 | the centre half of a row keeps the loop invariant and resolves the centre |
| DoctorImport.DoctorCenterCreated | src/services/adminBulkActions.ts:125-130 | a created centre keeps the invariant |
| DoctorImport.DoctorDoctorGood | src/services/adminBulkActions.ts:132-138 | the doctor half of a row keeps the invariant and resolves the doctor |
| DoctorImport.DoctorCreated | src/services/adminBulkActions.ts:133-137 | a created doctor keeps the invariant |
| DoctorImport.DoctorStepGood | src/services/adminBulkActions.ts:114-139 | one row keeps the invariant and resolves the row |
| DoctorImport.DoctorRowsGood | src/services/adminBulkActions.ts:114-139 | the whole loop keeps the invariant and, unless a call threw, resolves every accepted row |
| DoctorImport.DoctorResolvedKept | src/services/adminBulkActions.ts:133-138 | resolved rows stay resolved while the maps only grow |
| DoctorImport.DoctorStartGood | src/services/adminBulkActions.ts:106-110 | the maps built from the stored records satisfy the invariant |
| DoctorImport.DoctorImportRun | src/services/adminBulkActions.ts:103-141 | the import keeps the invariant, the log's prefix and, on success, resolves every row |
| DoctorImport.DoctorCloseGood | src/services/adminBulkActions.ts:140 | the closing line keeps the invariant and the log's prefix |
| DoctorImport.DoctorImportCreatesOnce | src/services/adminBulkActions.ts:114-139 | only centres and doctors are created, once per key, in the organisation, doctors under known centres; at most `failAt` calls |
| DoctorImport.DoctorImportResolvesRows | src/services/adminBulkActions.ts:114-140 | unless a call threw, every row is then found in the stored plus created records, and the closing line counts the created doctors |
| DoctorImport.DoctorImportLog | src/components/AdminPanel.tsx:179-222 | the panel returns at once without an organisation; the log gains the row count and, after a panel throw, an error line |
| DoctorImport.DoctorStepIdle | src/services/adminBulkActions.ts:118-138 | a skipped or already resolved row changes nothing |
| DoctorImport.DoctorRowsIdle | src/services/adminBulkActions.ts:114-139 | rows that are all skipped or resolved change nothing |
| DoctorImport.DoctorImportIdempotent | src/services/adminBulkActions.ts:103-141 | importing the same rows again creates nothing and reports zero new doctors |
| ReservationImport.CenterNameOf | src/services/adminBulkActions.ts:158 | the location unless it is empty, else the `cae` column; empty exactly when both are |
| ReservationImport.BoxNameOf | src/services/adminBulkActions.ts:160 | the box is the trimmed description before its first `-` |
| ReservationImport.DoctorNameOf | src/services/adminBulkActions.ts:161 | the doctor's name has no quote and no white space at either end; an absent or empty summary gives `Sin Asignar` |
| ReservationImport.DoctorNameMeaning | src/services/adminBulkActions.ts:161 | a present summary gives itself without its quotes, cut only of white space at both ends |
| ReservationImport.QuotedBlankSummary | src/services/adminBulkActions.ts:161 | a summary of quotes and spaces is present, so the doctor's name comes out empty, not `Sin Asignar` |
| ReservationImport.LastLines | src/components/AdminPanel.tsx:311-314 | `slice(-5)` keeps the last five lines, or all of them when there are fewer |
| ReservationImport.ResRowsFromIs | src/services/adminBulkActions.ts:157-219 | the loop from row `i` is the fold over the rows from `i` on |
| ReservationImport.ImportReservationRow | src/services/adminBulkActions.ts:158-218 | the loop body reads the row, resolves or creates its centre and box, parses its dates and writes it |
| ReservationImport.AddWrite | src/services/adminBulkActions.ts:195-218 | one write joins the batch; a full batch is committed and reported |
| ReservationImport.ImportReservationRows | src/services/adminBulkActions.ts:157-219 | the loop runs the rows in order until a call throws |
| ReservationImport.CloseImport | src/services/adminBulkActions.ts:221-224 | a partial batch is committed, then success is reported with the count |
| ReservationImport.ProcessReservations | src/services/adminBulkActions.ts:143-225 | the method's calls, log and failure are those of the reservation import |
| ReservationImport.ResCenterGood | src/services/adminBulkActions.ts:166-174 | the centre lookup keeps the loop invariant |
| ReservationImport.ResBoxGood | src/services/adminBulkActions.ts:177-185 | the box lookup keeps the loop invariant |
| ReservationImport.ResWriteGood | src/services/adminBulkActions.ts:195-211 | adding a write keeps the invariant while the batch is not full |
| ReservationImport.ResCommitGood | src/services/adminBulkActions.ts:212-218 | committing a full batch keeps the invariant |
| ReservationImport.TrackedAfterCommit | src/services/adminBulkActions.ts:213 | a commit leaves the lookup maps' tracking unchanged |
| ReservationImport.ResCellsGood | src/services/adminBulkActions.ts:157-219 | one row keeps the invariant and writes only what the row yields |
| ReservationImport.ResCenterStep | src/services/adminBulkActions.ts:166-174 | the centre step keeps the invariant and files the row's centre under its key |
| ReservationImport.ResBoxStep | src/services/adminBulkActions.ts:177-185 | the box step keeps the invariant and files the row's box under its key |
| ReservationImport.ResDatedGood | src/services/adminBulkActions.ts:188-211 | a row whose dates parse is written with its own fields and ids |
| ReservationImport.RowWrittenKept | src/services/adminBulkActions.ts:168-185 | a row's write stays correct while the maps only grow |
| ReservationImport.MatchesJoin | src/services/adminBulkActions.ts:157-219 | the writes of consecutive row runs are consecutive |
| ReservationImport.ResRowsGood | src/services/adminBulkActions.ts:157-219 | the whole loop keeps the invariant |
| ReservationImport.ResRowsWritten | src/services/adminBulkActions.ts:157-219 | the writes made are, one for one and in order, those of the rows that yield one |
| ReservationImport.ResWrittenStep | src/services/adminBulkActions.ts:157-219 | one more row extends the writes by that row's write, if any |
| ReservationImport.ResRowsPrefix | src/services/adminBulkActions.ts:157-219 | the loop only appends to the writes already made |
| ReservationImport.WrittenJoin | src/services/adminBulkActions.ts:195-218 | the writes made so far are the committed ones then the pending batch |
| ReservationImport.ResStartGood | src/services/adminBulkActions.ts:146-155 | the maps built from the stored records and an empty batch satisfy the invariant |
| ReservationImport.ResCloseGood | src/services/adminBulkActions.ts:221-223 | on success every write made is committed, in full batches but the last |
| ReservationImport.ResCloseLog | src/services/adminBulkActions.ts:224 | the closing line reports the count; a panel throw ends with an error line |
| ReservationImport.ResLastCommit | src/services/adminBulkActions.ts:221-223 | the commit of the last, partial batch completes the writes |
| ReservationImport.CloseFull | src/services/adminBulkActions.ts:212-223 | full batches followed by one partial batch are well-formed batches |
| ReservationImport.ResImportRun | src/services/adminBulkActions.ts:143-225 | the import keeps the calls, the tracking, the batches, the writes and the log as stated below |
| ReservationImport.ResImportCreatesOnce | src/services/adminBulkActions.ts:165-185 | only centres, boxes and commits are called for; each centre and box is created once per key, in the organisation; at most `failAt` calls |
| ReservationImport.ResImportWrites | src/services/adminBulkActions.ts:187-223 | on success the committed writes are those of the yielding rows, in order, with the ids their names key to, in full batches but the last |
| ReservationImport.ResImportLog | src/components/AdminPanel.tsx:225-335 | the panel returns at once without an organisation and keeps at most seven lines; success ends with the count, a panel throw with an error line |
| OrphanRescue.NeedsRescue | src/services/adminBulkActions.ts:36 | a document is left alone exactly when it already has the target organisation and that is not empty |
| OrphanRescue.RescueIdsCons | src/services/adminBulkActions.ts:33-41 | the ids to update are collected in snapshot order |
| OrphanRescue.RescueIdsMeaning | src/services/adminBulkActions.ts:33-41 | an id is updated exactly when a document with that id needs rescue |
| OrphanRescue.RescueOneCollection | src/services/adminBulkActions.ts:23-53 | one collection's loop, partial commit and count line, as the fold states |
| OrphanRescue.RescueOrphanData | src/services/adminBulkActions.ts:19-55 | the method's calls, log, failure and total are those of the rescue |
| OrphanRescue.RescueDocGood | src/services/adminBulkActions.ts:33-48 | one document keeps the batch below 400 and the commits full |
| OrphanRescue.RescueDocsShape | src/services/adminBulkActions.ts:33-49 | a collection's loop commits only full batches of that collection |
| OrphanRescue.RescueDocsContent | src/services/adminBulkActions.ts:33-49 | the committed ids then the pending ones are the ids needing rescue, in order |
| OrphanRescue.RescueCollectionGood | src/services/adminBulkActions.ts:23-53 | one collection commits exactly its ids needing rescue, in batches of 400 but the last |
| OrphanRescue.RescueFlushGood | src/services/adminBulkActions.ts:51-52 | the partial commit and the count line close a collection |
| OrphanRescue.RescueCollectionsShape | src/services/adminBulkActions.ts:23-53 | every call is a commit of a walked collection; at most `failAt` calls |
| OrphanRescue.RescueCollectionsContent | src/services/adminBulkActions.ts:23-54 | on success each collection's commits carry its ids needing rescue, and the log and total add up |
| OrphanRescue.JoinCollections | src/services/adminBulkActions.ts:23-53 | the commits of later collections leave those of earlier ones unchanged |
| OrphanRescue.RescueOutcome | src/services/adminBulkActions.ts:19-55 | only commits of the four collections; on success each collection's commits are its ids needing rescue in batches of 400, two log lines per collection, and the total is their number |
| OrphanRescue.RescueSettles | src/services/adminBulkActions.ts:36-37 | with a non-empty organisation a second rescue reassigns nothing |
| OrphanRescue.RescueEmptyOrgTakesAll | src/services/adminBulkActions.ts:36 | with an empty organisation every document is rewritten, on every run |
| Analytics.Partition | src/hooks/useAnalytics.ts:28-37 | the `forEach` builds exactly the active and the cancelled lists |
| Analytics.PartitionSplits | src/hooks/useAnalytics.ts:32-35 | every reservation lands in exactly one list: cancelled exactly when its status says so |
| Analytics.PartitionAppend | src/hooks/useAnalytics.ts:32-35 | both lists keep input order |
| Analytics.ConfigFor | src/hooks/useAnalytics.ts:56-59 | Monday to Thursday, Friday, Saturday and Sunday each use their own hours |
| Analytics.DaySlots | src/hooks/useAnalytics.ts:62-65 | an open day adds the whole half hours between opening and closing; a closed one adds nothing |
| Analytics.WeekTable | src/hooks/useAnalytics.ts:52-65 | each weekday's blocks, by `getDay()` value |
| Analytics.NextWeekday | src/hooks/useAnalytics.ts:67 | the next day's weekday is one more, modulo 7 |
| Analytics.Capacity | src/hooks/useAnalytics.ts:40-71 | an Invalid Date bound gives 0 |
| Analytics.WalkStep | src/hooks/useAnalytics.ts:51-69 | one turn of the loop adds the day's blocks and moves on |
| Analytics.Resolve | src/hooks/useAnalytics.ts:67 | a local time inside a forward gap at midnight moves on by the gap's length; any other is kept |
| Analytics.TimeOnDay | src/hooks/useAnalytics.ts:50-67 | the walk's local time of day never goes back |
| Analytics.TimeOnDayCovers | src/hooks/useAnalytics.ts:50-67 | the walk reaches the last day no earlier than the gap of any day it passes |
| Analytics.TimeOnDayWithoutGaps | src/hooks/useAnalytics.ts:50-67 | where every midnight exists the walk stays at midnight |
| Analytics.TotalCapacityPerBox | src/hooks/useAnalytics.ts:40-71 | the loop with its safety counter, carrying the local time of day that `setDate` keeps, computes the capacity |
| Analytics.DayBlocks | src/hooks/useAnalytics.ts:62-65 | the loop body adds the day's blocks |
| Analytics.WalkIsRange | src/hooks/useAnalytics.ts:49-69 | the walk adds up every day before the last and the last one exactly when it reaches it no later than `end`'s time of day, at most 1000 days |
| Analytics.BetweenIsRange | src/hooks/useAnalytics.ts:49-69 | from local midnight of one day number to that of another, the walk counts the days before the last and the last one exactly when it arrives no later than midnight, at most 1000 days |
| Analytics.CapacityOfRange | src/hooks/useAnalytics.ts:40-71 | between valid dates the capacity is the blocks of the days from the first to the day before the last, plus the last day exactly when the walk reaches it by midnight as `end` resolves it; capped at 1000 days |
| Analytics.CapacityWithoutGaps | src/hooks/useAnalytics.ts:40-71 | in a time zone where every local midnight exists, the capacity counts every day from the first to the last inclusive |
| Analytics.GapDropsLastDay | src/hooks/useAnalytics.ts:42-67 | a day of the range whose midnight is skipped by more than the last day's leaves the walk past `end` on the last day, which is not counted |
| Analytics.BetweenDropsLastDay | src/hooks/useAnalytics.ts:42-67 | over day numbers: a day whose midnight gap is longer than the last day's leaves the last day uncounted |
| Analytics.SeptemberGapDropsLastDay | src/hooks/useAnalytics.ts:42-67 | from 1 to 10 September 2025 in America/Santiago, whose 7 September midnight does not exist, nine days are counted |
| Analytics.SevenMore | src/hooks/useAnalytics.ts:51-69 | seven more days add one of each weekday's blocks |
| Analytics.WholeWeeks | src/hooks/useAnalytics.ts:51-69 | whole weeks hold that many weeks' blocks, whatever weekday they start on |
| Analytics.ReportedCapacity | src/hooks/useAnalytics.ts:107 | the capacity shown is the total, or 1 when the total is 0 |
| Analytics.CountWithSnoc | src/hooks/useAnalytics.ts:90 | one more reservation adds one to its key's count |
| Analytics.CountWithPositive | src/hooks/useAnalytics.ts:90 | a key has a count exactly when it occurs |
| Analytics.DistinctNamesMeaning | src/hooks/useAnalytics.ts:100-106 | the table's names are the box names, each once |
| Analytics.UsageMap | src/hooks/useAnalytics.ts:99-104 | every box name gets the number of active reservations in it, and no other key appears |
| Analytics.OccupancyMeaning | src/hooks/useAnalytics.ts:106-117 | one row per box name, each counting its active reservations with the reported capacity; the counts add up |
| Analytics.OccupancyData | src/hooks/useAnalytics.ts:98-119 | the table has one row per box name and no other, with its count and capacity |
| Analytics.CountByDay | src/hooks/useAnalytics.ts:76-91 | each day key gets the number of active reservations starting that day |
| Analytics.DayTimeline | src/hooks/useAnalytics.ts:73-96 | the days are ascending, are exactly the active reservations' days, count them, and add up to all of them |
| Analytics.TimelineOrder | src/hooks/useAnalytics.ts:93-95 | the timeline is sorted by day, so no day repeats |
| Analytics.TimelineKeys | src/hooks/useAnalytics.ts:93-95 | the timeline lists exactly the days of the active reservations |
| Analytics.TimelineCounts | src/hooks/useAnalytics.ts:90-95 | each point counts the active reservations of its day, at least one |
| Analytics.TimelineReservas | src/hooks/useAnalytics.ts:93-95 | point `i` of the sorted timeline holds the count of the `i`-th smallest day |
| Analytics.TimelineTotal | src/hooks/useAnalytics.ts:76-95 | the counts add up to the number of active reservations |

## Left out

- Firestore itself: queries, snapshots and document ids. A query's result is a parameter, reads are assumed to succeed, and writes are recorded as effects.
- `getChileTime` and JavaScript `Date` parsing: the Intl time-zone database and DST rules become the parameters `localTime` and `parseUtc`. `new Date(...)` on a local date is given as a calendar date and a millisecond of the day.
- `toISOString` of the range bounds: `CancelInRange` takes the two ISO bounds as given.
- Clocks: `Date.now()` is a parameter. One value serves a whole range cancellation or import, where the source reads the clock again for each document, so its timestamps may differ by milliseconds.
- TotalCapacityPerBox (Analytics.TotalCapacityPerBox): the browser's time zone enters only as the gap a forward clock change opens at each local midnight. A change at another hour, and an hour repeated when clocks go back, are not modelled; local instants compare by date, then time of day.
- The pauses between batches (`delay`), the toasts, React state, rendering, the CSV parser, the counter `countReservationsInCloud`, authentication, `TeamPanel` and the manual add forms.
- `getMonthName` and `getDayName`: locale formatting for display only.
- The week and month granularities of the timeline: they depend on `Date` arithmetic in the browser's time zone.
- `localeCompare` in the box and doctor listings, which are display order only.
- Floating point: occupancy percentages and their sort. Opening hours are exact reals.
- Lower (Text.Lower): folds ASCII letters only, whereas `toLowerCase` folds all of Unicode.
- IsSpace (Text.IsSpace): `trim` is modelled on a fixed set of white-space characters, not every Unicode space separator.
- DayTimeline (Analytics.DayTimeline): the sort by `localeCompare` is modelled as code-unit order. The two agree on `YYYY-MM-DD` keys.
- OccupancyData (Analytics.OccupancyData): does not compute `occupiedPct` and does not sort the rows by it.
- HandleReservation (Booking.HandleReservation): returns the typed doctor to create instead of calling `addDoctor`; that call's failure is swallowed in the source. The refresh of the doctor list and of the day's occupancy is not modelled.
- MapReservationsToSlots (Reservations.MapReservationsToSlots): `getChileTime` is total in the model. An invalid start throws in the browser.
- ReservationsForDate (Reservations.ReservationsForDate): the query's organisation and centre filter is the snapshot passed in.
- GridOf (Reservations.GridOf): the grid is a map, so JavaScript `Map` insertion order is not kept.
- Object keys: the JavaScript prototype keys of `usageMap` and of the timeline record (`__proto__` and the like) are not modelled. Nor is the order `Object.entries` gives: integer-like keys (box names such as "1" or "10") first in ascending numeric order, then the others in insertion order; the model lists the names in first-set order, and no contract states an order.
