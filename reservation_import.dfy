/**
 * src/services/adminBulkActions.ts `processReservationsCSV` and the admin panel's
 * `processReservations`: every row of the legacy export names a centre (its `location`, or
 * else its `cae`), a box (the description up to its first '-'), a doctor and two
 * timestamps. The centre and box are found by key or created; a row whose dates parse
 * becomes one merge-write, and the writes are committed in batches of `BatchSize`.
 */
module ReservationImport {
  import opened Text
  import opened Wrappers
  import opened Reservations
  import opened ImportTime
  import opened BulkImport

  /** One parsed CSV row; an absent column is `None`. */
  datatype ReservationRow = ReservationRow(
    id: Option<string>,
    eventId: Option<string>,
    location: Option<string>,
    cae: Option<string>,
    description: Option<string>,
    summary: Option<string>,
    startTime: Option<string>,
    endTime: Option<string>)

  /** Everything a run shares: which copy runs, the organisation and user, the store's ids
      (`newId(k)` for the document made by remote call number k), the number of the first
      call that throws, the date parser (`new Date(s).toISOString()`, `None` for an Invalid
      Date), the current instant as ISO text and as milliseconds, and the ids
      `doc(collection(...))` draws for rows without an id (`autoId(n)` for write number n). */
  datatype ImportContext = ImportContext(
    v: Variant,
    orgId: string,
    userId: string,
    newId: nat -> string,
    failAt: nat,
    parseUtc: string -> Option<string>,
    nowIso: string,
    nowMs: int,
    autoId: nat -> string)

  /** `x || ''` on a cell: an absent cell reads as the empty string. */
  function OrEmpty(x: Option<string>): string {
    if x.Some? then x.value else ""
  }

  /** `row.location || row.cae`: the location unless it is absent or empty. It is not
      trimmed before the skip test, so a location of only spaces is kept. */
  function CenterNameOf(row: ReservationRow): (r: string)
    ensures OrEmpty(row.location) != "" ==> r == row.location.value
    ensures r == "" <==> OrEmpty(row.location) == "" && OrEmpty(row.cae) == ""
  {
    if OrEmpty(row.location) != "" then row.location.value else OrEmpty(row.cae)
  }

  /** The box name: the trimmed text before the first '-' when the description has one,
      else the trimmed description; both cases are the trimmed text before the first '-'. */
  function BoxNameOf(description: string): (r: string)
    ensures r == Trim(BeforeFirst(description, '-'))
  {
    if '-' in description then Trim(BeforeFirst(description, '-'))
    else
      assert BeforeFirst(description, '-') == description;
      Trim(description)
  }

  /** The doctor: the summary with every '"' removed and trimmed, or "Sin Asignar" when
      the summary is absent or empty. */
  function DoctorNameOf(summary: Option<string>): (r: string)
    ensures '"' !in r
    ensures r == [] || (!IsSpace(r[0]) && !IsSpace(r[|r| - 1]))
    ensures summary.None? || summary.value == "" ==> r == "Sin Asignar"
  {
    if OrEmpty(summary) != "" then
      var q := RemoveAll(summary.value, '"');
      TrimMeaning(q);
      Trim(q)
    else "Sin Asignar"
  }

  /** A summary that is present is the doctor's name once its quotes are gone and its outer
      white space is trimmed: the name is a slice of the quote-free summary with only white
      space around it. */
  lemma DoctorNameMeaning(summary: string)
    requires summary != ""
    ensures Framed(DoctorNameOf(Some(summary)), RemoveAll(summary, '"'))
  {
    var q := RemoveAll(summary, '"');
    assert OrEmpty(Some(summary)) == summary;
    var r := DoctorNameOf(Some(summary));
    assert r == Trim(q);
    TrimMeaning(q);
    var a, b :| 0 <= a <= b <= |q| && Trim(q) == q[a..b]
      && (forall k :: 0 <= k < a ==> IsSpace(q[k]))
      && (forall k :: b <= k < |q| ==> IsSpace(q[k]));
    assert r == q[a..b];
    assert Framed(r, q);
  }

  /** A summary of quotes and spaces only is present, so it is not replaced by
      "Sin Asignar": the doctor's name comes out empty. */
  lemma QuotedBlankSummary()
    ensures DoctorNameOf(Some("\" \"")) == ""
  {
    var s := "\" \"";
    assert s[1..] == " \"" && s[1..][1..] == "\"" && s[1..][1..][1..] == [];
    assert RemoveAll(s[1..][1..], '"') == [];
    assert RemoveAll(s[1..], '"') == " ";
    assert RemoveAll(s, '"') == " ";
    assert " "[1..] == [] && TrimStart(" ") == [] && Trim(" ") == [];
    assert OrEmpty(Some(s)) == s;
  }

  /** The values the loop reads off one row. */
  datatype RowCells = RowCells(center: string, box: string, doctor: string, start: string, end: string,
                               id: string, eventId: string)

  function CellsOf(row: ReservationRow): RowCells {
    RowCells(CenterNameOf(row), BoxNameOf(OrEmpty(row.description)), DoctorNameOf(row.summary),
             OrEmpty(row.startTime), OrEmpty(row.endTime), OrEmpty(row.id), OrEmpty(row.eventId))
  }

  /** The skip test: a centre, a box and a start time are required. */
  predicate Listed(c: RowCells) {
    c.center != "" && c.box != "" && c.start != ""
  }

  /** A row that is written: listed, and both of its dates parse. */
  predicate Yields(ctx: ImportContext, c: RowCells) {
    Listed(c) && ParseChileanDate(c.start, ctx.parseUtc, ctx.nowIso).Some?
    && ParseChileanDate(c.end, ctx.parseUtc, ctx.nowIso).Some?
  }

  /** The write a yielding row makes as write number `n`, under the centre and box ids the
      lookups returned. */
  function RowWrite(ctx: ImportContext, c: RowCells, n: nat, centerId: string, boxId: string): ImportWrite
    requires Yields(ctx, c)
  {
    ImportWrite(if c.id != "" then c.id else ctx.autoId(n),
                ImportFields(ctx.orgId, centerId, boxId, c.box, c.doctor, "Importado Supabase",
                             ParseChileanDate(c.start, ctx.parseUtc, ctx.nowIso).value,
                             ParseChileanDate(c.end, ctx.parseUtc, ctx.nowIso).value,
                             ctx.userId, c.eventId, ctx.nowMs))
  }

  /** The last `n` lines of a log (`slice(-n)`), or all of them when there are fewer. */
  function LastLines(log: seq<LogLine>, n: nat): (r: seq<LogLine>)
    ensures |r| == if |log| <= n then |log| else n
    ensures r == log[|log| - |r|..]
  {
    if |log| <= n then log else log[|log| - n..]
  }

  /** A progress line: the service appends it, the panel keeps only the last five lines
      before it. */
  function Progressed(v: Variant, log: seq<LogLine>, line: LogLine): seq<LogLine> {
    if v == Service then log + [line] else LastLines(log, 5) + [line]
  }

  /** What the reservation loop carries from row to row: the calls so far, the two maps,
      the writes not yet committed, the number of writes, the log and whether a call threw. */
  datatype ResRun = ResRun(effects: seq<Effect>, centerMap: map<string, Center>, boxMap: map<string, Box>,
                           batch: seq<ImportWrite>, count: nat, log: seq<LogLine>, failed: bool)

  /** Adding one write to the batch; a full batch is committed and reported. */
  function ResWrite(ctx: ImportContext, total: nat, r: ResRun, w: ImportWrite): ResRun {
    var batch := r.batch + [w];
    var n := r.count + 1;
    if |batch| >= BatchSize(ctx.v) then
      if |r.effects| == ctx.failAt then r.(batch := batch, count := n, failed := true)
      else r.(effects := r.effects + [CommitWrites(batch)], batch := [], count := n,
              log := Progressed(ctx.v, r.log, Progress(n, total)))
    else r.(batch := batch, count := n)
  }

  /** After the centre and the box are resolved: the dates are parsed and, when both are
      valid, the row is written. */
  function ResDated(ctx: ImportContext, total: nat, r: ResRun, c: RowCells, centerId: string, boxId: string): ResRun
    requires Listed(c)
  {
    if Yields(ctx, c) then ResWrite(ctx, total, r, RowWrite(ctx, c, r.count, centerId, boxId)) else r
  }

  /** One row of the loop, from the values read off it. */
  function ResCells(ctx: ImportContext, total: nat, r: ResRun, c: RowCells): ResRun {
    if !Listed(c) then r
    else
      ResWithCenter(ctx, total, r, c,
                    LookupCenter(r.effects, r.centerMap, NameKey(c.center), Trim(c.center), ctx.orgId, ctx.newId,
                                 ctx.failAt))
  }

  /** After the centre lookup: the box is looked up under the centre's id. */
  function ResWithCenter(ctx: ImportContext, total: nat, r: ResRun, c: RowCells, oc: Option<Found<Center>>): ResRun
    requires Listed(c)
  {
    match oc
    case None => r.(failed := true)
    case Some(fc) =>
      ResWithBox(ctx, total, r.(effects := fc.effects, centerMap := fc.index), c, fc.record.id,
                 LookupBox(fc.effects, r.boxMap, fc.record.id + "_" + Lower(c.box), c.box, fc.record.id,
                           ctx.orgId, ctx.newId, ctx.failAt))
  }

  /** After the box lookup: the dates are read and the row written. */
  function ResWithBox(ctx: ImportContext, total: nat, r: ResRun, c: RowCells, centerId: string,
                      ob: Option<Found<Box>>): ResRun
    requires Listed(c)
  {
    match ob
    case None => r.(failed := true)
    case Some(fb) => ResDated(ctx, total, r.(effects := fb.effects, boxMap := fb.index), c, centerId, fb.record.id)
  }

  /** The loop over the rows, stopping at the first call that throws. */
  function ResRows(ctx: ImportContext, total: nat, r: ResRun, rows: seq<ReservationRow>): ResRun
    decreases |rows|
  {
    if rows == [] || r.failed then r
    else ResRows(ctx, total, ResStep(ctx, total, r, rows[0]), rows[1..])
  }

  /** One row of the loop. */
  function ResStep(ctx: ImportContext, total: nat, r: ResRun, row: ReservationRow): ResRun {
    ResCells(ctx, total, r, CellsOf(row))
  }

  /** After the loop: a partial batch is committed and success reported; a throw ends the
      panel's log with an error line (the service's throw reaches its caller). */
  function ResClose(ctx: ImportContext, r: ResRun): ResRun {
    if r.failed then
      if ctx.v == Panel then r.(log := r.log + [ImportError]) else r
    else if |r.batch| > 0 && |r.effects| == ctx.failAt then
      r.(failed := true, log := if ctx.v == Panel then r.log + [ImportError] else r.log)
    else
      var r' := if |r.batch| > 0 then r.(effects := r.effects + [CommitWrites(r.batch)], batch := []) else r;
      r'.(log := r'.log + [Success(r'.count)])
  }

  /** The first line: the service appends it, the panel's log is replaced by it. */
  function StartLog(v: Variant, log0: seq<LogLine>, line: LogLine): seq<LogLine> {
    if v == Service then log0 + [line] else [line]
  }

  /** The whole import. The panel's copy returns at once without an organisation. */
  function ResImport(ctx: ImportContext, rows: seq<ReservationRow>, centers: seq<Center>, boxes: seq<Box>,
                     log0: seq<LogLine>): ResRun
  {
    if ctx.v == Panel && ctx.orgId == "" then ResRun([], map[], map[], [], 0, log0, false)
    else
      var start := ResRun([], Index(centers, CenterKey), Index(boxes, BoxKey), [], 0,
                          StartLog(ctx.v, log0, Starting(|rows|, ctx.orgId)), false);
      ResClose(ctx, ResRows(ctx, |rows|, start, rows))
  }

  /** The fold from row `i` on: one step, then the fold from row `i + 1`. */
  lemma ResRowsAt(ctx: ImportContext, total: nat, r: ResRun, rows: seq<ReservationRow>, i: nat)
    requires i < |rows| && !r.failed
    ensures ResRows(ctx, total, r, rows[i..]) == ResRows(ctx, total, ResStep(ctx, total, r, rows[i]), rows[i + 1..])
  {
    assert rows[i..][0] == rows[i] && rows[i..][1..] == rows[i + 1..];
  }

  /** The fold from row `i` on, by position. */
  function ResRowsFrom(ctx: ImportContext, total: nat, r: ResRun, rows: seq<ReservationRow>, i: nat): ResRun
    decreases |rows| - i
  {
    if i >= |rows| || r.failed then r
    else ResRowsFrom(ctx, total, ResStep(ctx, total, r, rows[i]), rows, i + 1)
  }

  /** Folding from position `i` is folding the rows from `i` on. */
  lemma {:induction false} ResRowsFromIs(ctx: ImportContext, total: nat, r: ResRun, rows: seq<ReservationRow>,
                                         i: nat)
    requires i <= |rows|
    ensures ResRowsFrom(ctx, total, r, rows, i) == ResRows(ctx, total, r, rows[i..])
    decreases |rows| - i
  {
    if i < |rows| && !r.failed {
      ResRowsFromIs(ctx, total, ResStep(ctx, total, r, rows[i]), rows, i + 1);
      ResRowsAt(ctx, total, r, rows, i);
    }
  }

  /** The body of the loop for one row. */
  method ImportReservationRow(ctx: ImportContext, total: nat, row: ReservationRow,
                              effects0: seq<Effect>, centerMap0: map<string, Center>, boxMap0: map<string, Box>,
                              batch0: seq<ImportWrite>, count0: nat, log0: seq<LogLine>)
    returns (effects: seq<Effect>, centerMap: map<string, Center>, boxMap: map<string, Box>,
             batch: seq<ImportWrite>, count: nat, log: seq<LogLine>, failed: bool)
    ensures ResRun(effects, centerMap, boxMap, batch, count, log, failed)
         == ResStep(ctx, total, ResRun(effects0, centerMap0, boxMap0, batch0, count0, log0, false), row)
  {
    var c := CellsOf(row);
    effects, centerMap, boxMap, batch, count, log, failed := effects0, centerMap0, boxMap0, batch0, count0, log0, false;
    ghost var before := ResRun(effects, centerMap, boxMap, batch, count, log, failed);
    if c.center == "" || c.box == "" || c.start == "" {
      return;
    }
    var centerId := "";
    var centerKey := NameKey(c.center);
    ghost var fc := LookupCenter(effects, centerMap, centerKey, Trim(c.center), ctx.orgId, ctx.newId, ctx.failAt);
    if centerKey in centerMap {
      centerId := centerMap[centerKey].id;
    } else if |effects| == ctx.failAt {
      failed := true;
      return;
    } else {
      var cn := Center(ctx.newId(|effects|), Trim(c.center), ctx.orgId);
      effects := effects + [AddCenter(cn)];
      centerMap := centerMap[centerKey := cn];
      centerId := cn.id;
    }
    ghost var r1 := ResRun(effects, centerMap, boxMap, batch, count, log, false);
    assert r1 == before.(effects := fc.value.effects, centerMap := fc.value.index) && centerId == fc.value.record.id;
    var boxId := "";
    var boxKey := centerId + "_" + Lower(c.box);
    ghost var fb := LookupBox(effects, boxMap, boxKey, c.box, centerId, ctx.orgId, ctx.newId, ctx.failAt);
    if boxKey in boxMap {
      boxId := boxMap[boxKey].id;
    } else if |effects| == ctx.failAt {
      failed := true;
      return;
    } else {
      var b := Box(ctx.newId(|effects|), c.box, centerId, ctx.orgId);
      effects := effects + [AddBox(b)];
      boxMap := boxMap[boxKey := b];
      boxId := b.id;
    }
    ghost var r2 := ResRun(effects, centerMap, boxMap, batch, count, log, false);
    assert r2 == r1.(effects := fb.value.effects, boxMap := fb.value.index) && boxId == fb.value.record.id;
    var startDate := ParseChileanDate(c.start, ctx.parseUtc, ctx.nowIso);
    var endDate := ParseChileanDate(c.end, ctx.parseUtc, ctx.nowIso);
    if startDate.None? || endDate.None? {
      return;
    }
    var w := ImportWrite(if c.id != "" then c.id else ctx.autoId(count),
                         ImportFields(ctx.orgId, centerId, boxId, c.box, c.doctor, "Importado Supabase",
                                      startDate.value, endDate.value, ctx.userId, c.eventId, ctx.nowMs));
    assert Yields(ctx, c) && w == RowWrite(ctx, c, r2.count, centerId, boxId);
    effects, batch, count, log, failed := AddWrite(ctx, total, w, effects, centerMap, boxMap, batch, count, log);
  }

  /** `batch.set(...)` and the counters, then the commit of a full batch. */
  method AddWrite(ctx: ImportContext, total: nat, w: ImportWrite,
                  effects0: seq<Effect>, centerMap: map<string, Center>, boxMap: map<string, Box>,
                  batch0: seq<ImportWrite>, count0: nat, log0: seq<LogLine>)
    returns (effects: seq<Effect>, batch: seq<ImportWrite>, count: nat, log: seq<LogLine>, failed: bool)
    ensures ResRun(effects, centerMap, boxMap, batch, count, log, failed)
         == ResWrite(ctx, total, ResRun(effects0, centerMap, boxMap, batch0, count0, log0, false), w)
  {
    effects, log, failed := effects0, log0, false;
    batch := batch0 + [w];
    count := count0 + 1;
    if |batch| >= BatchSize(ctx.v) {
      if |effects| == ctx.failAt {
        failed := true;
      } else {
        effects := effects + [CommitWrites(batch)];
        log := Progressed(ctx.v, log, Progress(count, total));
        batch := [];
      }
    }
  }

  /** The reservation import as the source runs it. `centers` and `boxes` are what
      `getCenters` and `getBoxes` returned for the organisation. */
  method ProcessReservations(ctx: ImportContext, rows: seq<ReservationRow>, centers: seq<Center>, boxes: seq<Box>,
                             log0: seq<LogLine>)
    returns (effects: seq<Effect>, log: seq<LogLine>, failed: bool)
    ensures var r := ResImport(ctx, rows, centers, boxes, log0);
      effects == r.effects && log == r.log && failed == r.failed
  {
    effects, log, failed := [], log0, false;
    if ctx.v == Panel && ctx.orgId == "" {
      return;
    }
    log := StartLog(ctx.v, log, Starting(|rows|, ctx.orgId));
    var centerMap := Index(centers, CenterKey);
    var boxMap := Index(boxes, BoxKey);
    var batch: seq<ImportWrite> := [];
    var count: nat := 0;
    ghost var start := ResRun(effects, centerMap, boxMap, batch, count, log, failed);
    assert ResImport(ctx, rows, centers, boxes, log0) == ResClose(ctx, ResRows(ctx, |rows|, start, rows));
    effects, centerMap, boxMap, batch, count, log, failed :=
      ImportReservationRows(ctx, rows, effects, centerMap, boxMap, batch, count, log);
    ResRowsFromIs(ctx, |rows|, start, rows, 0);
    assert rows[0..] == rows;
    effects, log, failed := CloseImport(ctx, effects, centerMap, boxMap, batch, count, log, failed);
  }

  /** The loop over the rows: one row at a time until the rows run out or a call throws. */
  method ImportReservationRows(ctx: ImportContext, rows: seq<ReservationRow>,
                               effects0: seq<Effect>, centerMap0: map<string, Center>, boxMap0: map<string, Box>,
                               batch0: seq<ImportWrite>, count0: nat, log0: seq<LogLine>)
    returns (effects: seq<Effect>, centerMap: map<string, Center>, boxMap: map<string, Box>,
             batch: seq<ImportWrite>, count: nat, log: seq<LogLine>, failed: bool)
    ensures ResRun(effects, centerMap, boxMap, batch, count, log, failed)
         == ResRowsFrom(ctx, |rows|, ResRun(effects0, centerMap0, boxMap0, batch0, count0, log0, false), rows, 0)
  {
    var r := ResRun(effects0, centerMap0, boxMap0, batch0, count0, log0, false);
    ghost var start := r;
    var i := 0;
    while i < |rows| && !r.failed
      invariant 0 <= i <= |rows|
      invariant ResRowsFrom(ctx, |rows|, start, rows, 0) == ResRowsFrom(ctx, |rows|, r, rows, i)
    {
      var e, cm, bm, b, n, l, f :=
        ImportReservationRow(ctx, |rows|, rows[i], r.effects, r.centerMap, r.boxMap, r.batch, r.count, r.log);
      r := ResRun(e, cm, bm, b, n, l, f);
      i := i + 1;
    }
    effects, centerMap, boxMap, batch, count, log, failed :=
      r.effects, r.centerMap, r.boxMap, r.batch, r.count, r.log, r.failed;
  }

  /** The final commit of a partial batch and the closing line. */
  method CloseImport(ctx: ImportContext, effects0: seq<Effect>, centerMap: map<string, Center>,
                     boxMap: map<string, Box>, batch: seq<ImportWrite>, count: nat, log0: seq<LogLine>, failed0: bool)
    returns (effects: seq<Effect>, log: seq<LogLine>, failed: bool)
    ensures var r := ResClose(ctx, ResRun(effects0, centerMap, boxMap, batch, count, log0, failed0));
      effects == r.effects && log == r.log && failed == r.failed
  {
    effects, log, failed := effects0, log0, failed0;
    if !failed && |batch| > 0 {
      if |effects| == ctx.failAt {
        failed := true;
      } else {
        effects := effects + [CommitWrites(batch)];
      }
    }
    if failed {
      if ctx.v == Panel {
        log := log + [ImportError];
      }
    } else {
      log := log + [Success(count)];
    }
  }

  // ---------------------------------------------------------------------------
  // What the import does.
  // ---------------------------------------------------------------------------

  /** The writes made so far: those committed, in commit order, then the pending batch. */
  function Written(r: ResRun): seq<ImportWrite> {
    Flatten(Batches(r.effects)) + r.batch
  }

  /** Every committed batch is a full one. */
  predicate AllFull(bs: seq<seq<ImportWrite>>, size: nat) {
    forall i :: 0 <= i < |bs| ==> |bs[i]| == size
  }

  /** The loop invariant: only centres, boxes and commits were called for, at most
      `failAt` calls were made and exactly that many once one threw; both maps track the
      stored and created records; every commit so far was of a full batch; the writes
      made number `count`; a batch left pending is not full; the panel's log never holds
      more than six lines. */
  predicate ResGood(ctx: ImportContext, centers: seq<Center>, boxes: seq<Box>, r: ResRun) {
    && OnlyCalls(r.effects, true, true, false, true)
    && |r.effects| <= ctx.failAt && (r.failed ==> |r.effects| == ctx.failAt)
    && CentersTracked(centers, ctx.orgId, r.effects, r.centerMap)
    && BoxesTracked(centers, boxes, ctx.orgId, r.effects, r.boxMap)
    && AllFull(Batches(r.effects), BatchSize(ctx.v))
    && |Written(r)| == r.count
    && (!r.failed ==> |r.batch| < BatchSize(ctx.v))
    && (ctx.v == Panel ==> |r.log| <= 6)
  }

  /** `w` is the write a yielding row makes as write number `n`: its fields are the
      row's, and its centre and box are the ones the maps file under the row's centre name
      and, within that centre, under its box name. */
  predicate RowWritten(ctx: ImportContext, w: ImportWrite, c: RowCells, n: nat,
                       centerMap: map<string, Center>, boxMap: map<string, Box>) {
    && Yields(ctx, c)
    && w == RowWrite(ctx, c, n, w.fields.centerId, w.fields.boxId)
    && NameKey(c.center) in centerMap && centerMap[NameKey(c.center)].id == w.fields.centerId
    && MemberKey(w.fields.centerId, c.box) in boxMap && boxMap[MemberKey(w.fields.centerId, c.box)].id == w.fields.boxId
  }

  /** The writes `ws` are, one for one and in order, those of the rows `cs`, numbered
      from `base`. */
  predicate Matches(ctx: ImportContext, ws: seq<ImportWrite>, cs: seq<RowCells>, base: nat,
                    centerMap: map<string, Center>, boxMap: map<string, Box>) {
    |ws| == |cs| && forall k :: 0 <= k < |ws| ==> RowWritten(ctx, ws[k], cs[k], base + k, centerMap, boxMap)
  }

  /** The rows that yield a write, in order. */
  function YieldingCells(ctx: ImportContext, rows: seq<ReservationRow>): seq<RowCells>
    decreases |rows|
  {
    if rows == [] then []
    else (if Yields(ctx, CellsOf(rows[0])) then [CellsOf(rows[0])] else []) + YieldingCells(ctx, rows[1..])
  }

  /** The centre half of a row keeps the invariant and files the row's centre. */
  lemma ResCenterGood(ctx: ImportContext, centers: seq<Center>, boxes: seq<Box>, r: ResRun, c: RowCells,
                      fc: Found<Center>)
    requires ResGood(ctx, centers, boxes, r) && !r.failed
    requires LookupCenter(r.effects, r.centerMap, NameKey(c.center), Trim(c.center), ctx.orgId, ctx.newId,
                          ctx.failAt) == Some(fc)
    ensures var r1 := r.(effects := fc.effects, centerMap := fc.index);
      && ResGood(ctx, centers, boxes, r1)
      && NameKey(c.center) in r1.centerMap && r1.centerMap[NameKey(c.center)] == fc.record
      && fc.record.id in CenterIds(centers + CentersCreated(r1.effects))
      && Keeps(r.centerMap, r1.centerMap) && Written(r1) == Written(r)
  {
    RowKey(c.center);
    LookupCenterTracked(centers, ctx.orgId, r.effects, r.centerMap, NameKey(c.center), Trim(c.center),
                        ctx.newId, ctx.failAt);
    if fc.created {
      BoxesTrackedAfterCenter(centers, boxes, ctx.orgId, r.effects, r.boxMap, fc.record);
      OnlyCallsSnoc(r.effects, AddCenter(fc.record), true, true, false, true);
      CenterCall(r.effects, fc.record);
    }
  }

  /** The box half of a row keeps the invariant and files the row's box under its centre. */
  lemma ResBoxGood(ctx: ImportContext, centers: seq<Center>, boxes: seq<Box>, r: ResRun, c: RowCells,
                   centerId: string, fb: Found<Box>)
    requires ResGood(ctx, centers, boxes, r) && !r.failed
    requires Lower(c.box) == NameKey(c.box)
    requires centerId in CenterIds(centers + CentersCreated(r.effects))
    requires LookupBox(r.effects, r.boxMap, centerId + "_" + Lower(c.box), c.box, centerId, ctx.orgId,
                       ctx.newId, ctx.failAt) == Some(fb)
    ensures var r2 := r.(effects := fb.effects, boxMap := fb.index);
      && ResGood(ctx, centers, boxes, r2)
      && MemberKey(centerId, c.box) in r2.boxMap && r2.boxMap[MemberKey(centerId, c.box)] == fb.record
      && Keeps(r.boxMap, r2.boxMap) && Written(r2) == Written(r)
      && CentersCreated(r2.effects) == CentersCreated(r.effects)
  {
    LookupBoxTracked(centers, boxes, ctx.orgId, r.effects, r.centerMap, r.boxMap,
                     centerId + "_" + Lower(c.box), c.box, centerId, ctx.newId, ctx.failAt);
    if fb.created {
      OnlyCallsSnoc(r.effects, AddBox(fb.record), true, true, false, true);
      BoxCall(r.effects, fb.record);
    }
  }

  /** Adding a write keeps the invariant; unless the commit threw, the write is the last
      one made. The service's log only grows. */
  lemma ResWriteGood(ctx: ImportContext, centers: seq<Center>, boxes: seq<Box>, total: nat, r: ResRun,
                     w: ImportWrite, r3: ResRun)
    requires ResGood(ctx, centers, boxes, r) && !r.failed
    requires r3 == ResWrite(ctx, total, r, w)
    ensures ResGood(ctx, centers, boxes, r3)
    ensures r3.centerMap == r.centerMap && r3.boxMap == r.boxMap
    ensures CentersCreated(r3.effects) == CentersCreated(r.effects)
    ensures r3.count == r.count + 1
    ensures !r3.failed ==> Written(r3) == Written(r) + [w]
    ensures ctx.v == Service ==> Extends(r3.log, r.log)
  {
    var batch := r.batch + [w];
    ExtendsSelf(r.log);
    if |batch| >= BatchSize(ctx.v) && |r.effects| != ctx.failAt {
      ResCommitGood(ctx, centers, boxes, total, r, w, r3);
    } else if |batch| < BatchSize(ctx.v) {
      Associative(Flatten(Batches(r.effects)), r.batch, [w]);
    }
  }

  /** The full-batch case of the lemma above. */
  lemma ResCommitGood(ctx: ImportContext, centers: seq<Center>, boxes: seq<Box>, total: nat, r: ResRun,
                      w: ImportWrite, r3: ResRun)
    requires ResGood(ctx, centers, boxes, r) && !r.failed
    requires |r.batch + [w]| >= BatchSize(ctx.v) && |r.effects| != ctx.failAt
    requires r3 == r.(effects := r.effects + [CommitWrites(r.batch + [w])], batch := [], count := r.count + 1,
                      log := Progressed(ctx.v, r.log, Progress(r.count + 1, total)))
    ensures ResGood(ctx, centers, boxes, r3)
    ensures CentersCreated(r3.effects) == CentersCreated(r.effects)
    ensures Written(r3) == Written(r) + [w]
    ensures ctx.v == Service ==> Extends(r3.log, r.log)
  {
    var batch := r.batch + [w];
    EffectsSnoc(r.effects, CommitWrites(batch));
    TrackedAfterCommit(centers, boxes, ctx.orgId, r.effects, r.centerMap, r.boxMap, batch);
    OnlyCallsSnoc(r.effects, CommitWrites(batch), true, true, false, true);
    FlattenSnoc(Batches(r.effects), batch);
    ExtendsSnoc(r.log, r.log, Progress(r.count + 1, total));
    ExtendsSelf(r.log);
    Associative(Flatten(Batches(r.effects)), r.batch, [w]);
    assert Written(r3) == Flatten(Batches(r.effects)) + batch + [];
  }

  /** A commit creates no record. */
  lemma TrackedAfterCommit(centers: seq<Center>, boxes: seq<Box>, orgId: string, effects: seq<Effect>,
                           centerMap: map<string, Center>, boxMap: map<string, Box>, ws: seq<ImportWrite>)
    requires CentersTracked(centers, orgId, effects, centerMap)
    requires BoxesTracked(centers, boxes, orgId, effects, boxMap)
    ensures CentersTracked(centers, orgId, effects + [CommitWrites(ws)], centerMap)
    ensures BoxesTracked(centers, boxes, orgId, effects + [CommitWrites(ws)], boxMap)
  {
    var e := effects + [CommitWrites(ws)];
    EffectsSnoc(effects, CommitWrites(ws));
    assert CentersCreated(e) == CentersCreated(effects) && BoxesCreated(e) == BoxesCreated(effects);
    assert centers + CentersCreated(e) == centers + CentersCreated(effects);
    assert boxes + BoxesCreated(e) == boxes + BoxesCreated(effects);
  }

  /** The box name read off a row is trimmed, so `toLowerCase()` gives its key. */
  lemma CellsBoxKey(row: ReservationRow)
    ensures Lower(CellsOf(row).box) == NameKey(CellsOf(row).box)
  {
    RowKey(BeforeFirst(OrEmpty(row.description), '-'));
  }

  /** The invariant and the maps' growth across one row. */
  predicate ResStepGood(ctx: ImportContext, centers: seq<Center>, boxes: seq<Box>, r: ResRun, r': ResRun) {
    && ResGood(ctx, centers, boxes, r')
    && Keeps(r.centerMap, r'.centerMap) && Keeps(r.boxMap, r'.boxMap)
    && (ctx.v == Service ==> Extends(r'.log, r.log))
  }

  /** Unless a call threw, a yielding row made exactly one more write, the one
      `RowWritten` describes, and any other row made none. */
  predicate ResStepWritten(ctx: ImportContext, r: ResRun, c: RowCells, r': ResRun) {
    !r'.failed ==>
      && (!Yields(ctx, c) ==> Written(r') == Written(r))
      && (Yields(ctx, c) ==>
            |Written(r')| == |Written(r)| + 1 && Written(r')[..|Written(r)|] == Written(r)
            && RowWritten(ctx, Written(r')[|Written(r)|], c, r.count, r'.centerMap, r'.boxMap))
  }

  /** One row keeps the invariant, only adds to the maps (and, in the service, to the
      log), and makes the write `ResStepWritten` describes. */
  lemma ResCellsGood(ctx: ImportContext, centers: seq<Center>, boxes: seq<Box>, total: nat, r: ResRun,
                     c: RowCells, r': ResRun)
    requires ResGood(ctx, centers, boxes, r) && !r.failed
    requires Lower(c.box) == NameKey(c.box)
    requires r' == ResCells(ctx, total, r, c)
    ensures ResStepGood(ctx, centers, boxes, r, r') && ResStepWritten(ctx, r, c, r')
  {
    ExtendsSelf(r.log);
    if Listed(c) {
      var oc := LookupCenter(r.effects, r.centerMap, NameKey(c.center), Trim(c.center), ctx.orgId, ctx.newId,
                             ctx.failAt);
      ResCenterStep(ctx, centers, boxes, total, r, c, oc, r');
    }
  }

  /** The row from its centre lookup on. */
  lemma ResCenterStep(ctx: ImportContext, centers: seq<Center>, boxes: seq<Box>, total: nat, r: ResRun,
                      c: RowCells, oc: Option<Found<Center>>, r': ResRun)
    requires ResGood(ctx, centers, boxes, r) && !r.failed && Listed(c)
    requires Lower(c.box) == NameKey(c.box)
    requires oc == LookupCenter(r.effects, r.centerMap, NameKey(c.center), Trim(c.center), ctx.orgId, ctx.newId,
                                ctx.failAt)
    requires r' == ResWithCenter(ctx, total, r, c, oc)
    ensures ResStepGood(ctx, centers, boxes, r, r') && ResStepWritten(ctx, r, c, r')
  {
    ExtendsSelf(r.log);
    RowKey(c.center);
    LookupCenterTracked(centers, ctx.orgId, r.effects, r.centerMap, NameKey(c.center), Trim(c.center),
                        ctx.newId, ctx.failAt);
    if oc.Some? {
      var fc := oc.value;
      ResCenterGood(ctx, centers, boxes, r, c, fc);
      var r1 := r.(effects := fc.effects, centerMap := fc.index);
      var cid := fc.record.id;
      var ob := LookupBox(r1.effects, r1.boxMap, cid + "_" + Lower(c.box), c.box, cid, ctx.orgId, ctx.newId,
                          ctx.failAt);
      ResBoxStep(ctx, centers, boxes, total, r1, c, cid, ob, r');
      KeepsTrans(r.centerMap, r1.centerMap, r'.centerMap);
    }
  }

  /** The row from its box lookup on. */
  lemma ResBoxStep(ctx: ImportContext, centers: seq<Center>, boxes: seq<Box>, total: nat, r: ResRun,
                   c: RowCells, centerId: string, ob: Option<Found<Box>>, r': ResRun)
    requires ResGood(ctx, centers, boxes, r) && !r.failed && Listed(c)
    requires Lower(c.box) == NameKey(c.box)
    requires NameKey(c.center) in r.centerMap && r.centerMap[NameKey(c.center)].id == centerId
    requires centerId in CenterIds(centers + CentersCreated(r.effects))
    requires ob == LookupBox(r.effects, r.boxMap, centerId + "_" + Lower(c.box), c.box, centerId, ctx.orgId,
                             ctx.newId, ctx.failAt)
    requires r' == ResWithBox(ctx, total, r, c, centerId, ob)
    ensures ResStepGood(ctx, centers, boxes, r, r') && ResStepWritten(ctx, r, c, r')
  {
    ExtendsSelf(r.log);
    LookupBoxTracked(centers, boxes, ctx.orgId, r.effects, r.centerMap, r.boxMap,
                     centerId + "_" + Lower(c.box), c.box, centerId, ctx.newId, ctx.failAt);
    if ob.Some? {
      var fb := ob.value;
      ResBoxGood(ctx, centers, boxes, r, c, centerId, fb);
      var r2 := r.(effects := fb.effects, boxMap := fb.index);
      ResDatedGood(ctx, centers, boxes, total, r2, c, centerId, fb.record.id, r');
    }
  }

  /** The dates and the write of a row whose centre and box are filed. */
  lemma ResDatedGood(ctx: ImportContext, centers: seq<Center>, boxes: seq<Box>, total: nat, r: ResRun,
                     c: RowCells, centerId: string, boxId: string, r': ResRun)
    requires ResGood(ctx, centers, boxes, r) && !r.failed && Listed(c)
    requires NameKey(c.center) in r.centerMap && r.centerMap[NameKey(c.center)].id == centerId
    requires MemberKey(centerId, c.box) in r.boxMap && r.boxMap[MemberKey(centerId, c.box)].id == boxId
    requires r' == ResDated(ctx, total, r, c, centerId, boxId)
    ensures ResGood(ctx, centers, boxes, r')
    ensures r'.centerMap == r.centerMap && r'.boxMap == r.boxMap
    ensures ctx.v == Service ==> Extends(r'.log, r.log)
    ensures !r'.failed && !Yields(ctx, c) ==> Written(r') == Written(r)
    ensures !r'.failed && Yields(ctx, c) ==>
      |Written(r')| == |Written(r)| + 1 && Written(r')[..|Written(r)|] == Written(r)
      && RowWritten(ctx, Written(r')[|Written(r)|], c, r.count, r'.centerMap, r'.boxMap)
  {
    ExtendsSelf(r.log);
    if Yields(ctx, c) {
      var w := RowWrite(ctx, c, r.count, centerId, boxId);
      ResWriteGood(ctx, centers, boxes, total, r, w, r');
      if !r'.failed {
        assert Written(r')[|Written(r)|] == w;
      }
    }
  }

  /** `RowWritten` only asks the maps to hold two entries, which they keep. */
  lemma RowWrittenKept(ctx: ImportContext, w: ImportWrite, c: RowCells, n: nat,
                       centerMap: map<string, Center>, boxMap: map<string, Box>,
                       centerMap': map<string, Center>, boxMap': map<string, Box>)
    requires RowWritten(ctx, w, c, n, centerMap, boxMap)
    requires Keeps(centerMap, centerMap') && Keeps(boxMap, boxMap')
    ensures RowWritten(ctx, w, c, n, centerMap', boxMap')
  {
  }

  lemma MatchesJoin(ctx: ImportContext, ws1: seq<ImportWrite>, cs1: seq<RowCells>, ws2: seq<ImportWrite>,
                    cs2: seq<RowCells>, base: nat, centerMap: map<string, Center>, boxMap: map<string, Box>)
    requires Matches(ctx, ws1, cs1, base, centerMap, boxMap)
    requires Matches(ctx, ws2, cs2, base + |ws1|, centerMap, boxMap)
    ensures Matches(ctx, ws1 + ws2, cs1 + cs2, base, centerMap, boxMap)
  {
    forall k | 0 <= k < |ws1 + ws2|
      ensures RowWritten(ctx, (ws1 + ws2)[k], (cs1 + cs2)[k], base + k, centerMap, boxMap)
    {
      if k >= |ws1| {
        assert (ws1 + ws2)[k] == ws2[k - |ws1|] && (cs1 + cs2)[k] == cs2[k - |ws1|];
        assert RowWritten(ctx, ws2[k - |ws1|], cs2[k - |ws1|], base + |ws1| + (k - |ws1|), centerMap, boxMap);
      } else {
        assert (ws1 + ws2)[k] == ws1[k] && (cs1 + cs2)[k] == cs1[k];
      }
    }
  }

  /** The loop over the rows keeps the invariant and only adds to the maps (and, in the
      service, to the log). */
  lemma {:induction false} ResRowsGood(ctx: ImportContext, centers: seq<Center>, boxes: seq<Box>, total: nat,
                                       r: ResRun, rows: seq<ReservationRow>, r': ResRun)
    requires ResGood(ctx, centers, boxes, r)
    requires r' == ResRows(ctx, total, r, rows)
    ensures ResStepGood(ctx, centers, boxes, r, r')
    decreases |rows|
  {
    ExtendsSelf(r.log);
    if rows != [] && !r.failed {
      var r1 := ResStep(ctx, total, r, rows[0]);
      CellsBoxKey(rows[0]);
      ResCellsGood(ctx, centers, boxes, total, r, CellsOf(rows[0]), r1);
      ResRowsGood(ctx, centers, boxes, total, r1, rows[1..], r');
      KeepsTrans(r.centerMap, r1.centerMap, r'.centerMap);
      KeepsTrans(r.boxMap, r1.boxMap, r'.boxMap);
      if ctx.v == Service {
        ExtendsTrans(r'.log, r1.log, r.log);
      }
    }
  }

  /** Unless a call threw, the loop over the rows made, in order, one write per yielding
      row and no other. */
  lemma {:induction false} ResRowsWritten(ctx: ImportContext, centers: seq<Center>, boxes: seq<Box>, total: nat,
                                          r: ResRun, rows: seq<ReservationRow>, r': ResRun)
    requires ResGood(ctx, centers, boxes, r) && !r.failed
    requires r' == ResRows(ctx, total, r, rows) && !r'.failed
    ensures |Written(r)| <= |Written(r')|
    ensures Matches(ctx, Written(r')[|Written(r)|..], YieldingCells(ctx, rows), r.count, r'.centerMap, r'.boxMap)
    decreases |rows|
  {
    if rows == [] {
      assert Written(r')[|Written(r)|..] == [];
    } else {
      var c := CellsOf(rows[0]);
      var r1 := ResStep(ctx, total, r, rows[0]);
      CellsBoxKey(rows[0]);
      ResCellsGood(ctx, centers, boxes, total, r, c, r1);
      ResRowsGood(ctx, centers, boxes, total, r1, rows[1..], r');
      ResRowsPrefix(ctx, centers, boxes, total, r1, rows[1..], r');
      ResRowsWritten(ctx, centers, boxes, total, r1, rows[1..], r');
      ResWrittenStep(ctx, centers, boxes, r, c, r1, YieldingCells(ctx, rows[1..]), r');
    }
  }

  /** The writes of one row followed by those of the rows after it, from the row's step
      and the loop over the rest. */
  lemma ResWrittenStep(ctx: ImportContext, centers: seq<Center>, boxes: seq<Box>, r: ResRun, c: RowCells,
                       r1: ResRun, rest: seq<RowCells>, r': ResRun)
    requires ResGood(ctx, centers, boxes, r) && ResStepGood(ctx, centers, boxes, r, r1)
    requires ResStepWritten(ctx, r, c, r1) && ResStepGood(ctx, centers, boxes, r1, r')
    requires !r1.failed && !r'.failed
    requires |Written(r1)| <= |Written(r')| && Written(r')[..|Written(r1)|] == Written(r1)
    requires Matches(ctx, Written(r')[|Written(r1)|..], rest, r1.count, r'.centerMap, r'.boxMap)
    ensures |Written(r)| <= |Written(r')|
    ensures Matches(ctx, Written(r')[|Written(r)|..], (if Yields(ctx, c) then [c] else []) + rest, r.count,
                    r'.centerMap, r'.boxMap)
  {
    WrittenJoin(ctx, Written(r), Written(r1), Written(r'), c, rest, r.count,
                r1.centerMap, r1.boxMap, r'.centerMap, r'.boxMap);
  }

  /** Unless a call threw, the loop over the rows only added writes after those made
      before it. */
  lemma {:induction false} ResRowsPrefix(ctx: ImportContext, centers: seq<Center>, boxes: seq<Box>, total: nat,
                                         r: ResRun, rows: seq<ReservationRow>, r': ResRun)
    requires ResGood(ctx, centers, boxes, r) && !r.failed
    requires r' == ResRows(ctx, total, r, rows) && !r'.failed
    ensures |Written(r)| <= |Written(r')| && Written(r')[..|Written(r)|] == Written(r)
    decreases |rows|
  {
    if rows == [] {
      TakeAll(Written(r));
    } else {
      var r1 := ResStep(ctx, total, r, rows[0]);
      CellsBoxKey(rows[0]);
      ResCellsGood(ctx, centers, boxes, total, r, CellsOf(rows[0]), r1);
      ResRowsPrefix(ctx, centers, boxes, total, r1, rows[1..], r');
      if Yields(ctx, CellsOf(rows[0])) {
        SliceJoin(Written(r), Written(r1), Written(r'));
      }
    }
  }

  /** One row's writes followed by those of the rows after it. */
  lemma WrittenJoin(ctx: ImportContext, w0: seq<ImportWrite>, w1: seq<ImportWrite>, w2: seq<ImportWrite>,
                    c: RowCells, rest: seq<RowCells>, base: nat,
                    centerMap1: map<string, Center>, boxMap1: map<string, Box>,
                    centerMap: map<string, Center>, boxMap: map<string, Box>)
    requires |w1| <= |w2| && w2[..|w1|] == w1
    requires !Yields(ctx, c) ==> w1 == w0
    requires Yields(ctx, c) ==>
      |w1| == |w0| + 1 && w1[..|w0|] == w0 && RowWritten(ctx, w1[|w0|], c, base, centerMap1, boxMap1)
    requires Keeps(centerMap1, centerMap) && Keeps(boxMap1, boxMap)
    requires Matches(ctx, w2[|w1|..], rest, base + (|w1| - |w0|), centerMap, boxMap)
    ensures |w0| <= |w2| && w2[..|w0|] == w0
    ensures Matches(ctx, w2[|w0|..], (if Yields(ctx, c) then [c] else []) + rest, base, centerMap, boxMap)
  {
    SliceJoin(w0, w1, w2);
    var first := if Yields(ctx, c) then [c] else [];
    assert Matches(ctx, w1[|w0|..], first, base, centerMap, boxMap) by {
      if Yields(ctx, c) {
        assert w1[|w0|..] == [w1[|w0|]];
        RowWrittenKept(ctx, w1[|w0|], c, base, centerMap1, boxMap1, centerMap, boxMap);
      } else {
        assert w1[|w0|..] == [];
      }
    }
    MatchesJoin(ctx, w1[|w0|..], first, w2[|w1|..], rest, base, centerMap, boxMap);
  }

  /** The run before the first row satisfies the loop's invariant. */
  lemma ResStartGood(ctx: ImportContext, centers: seq<Center>, boxes: seq<Box>, log: seq<LogLine>)
    requires ctx.v == Panel ==> |log| <= 6
    ensures ResGood(ctx, centers, boxes, ResRun([], Index(centers, CenterKey), Index(boxes, BoxKey), [], 0, log, false))
  {
    assert centers + [] == centers && boxes + [] == boxes;
    assert Written(ResRun([], Index(centers, CenterKey), Index(boxes, BoxKey), [], 0, log, false)) == [];
  }

  /** The final commit keeps the calls and the maps' tracking; on success every write made
      is committed, in full batches but the last. */
  lemma ResCloseGood(ctx: ImportContext, centers: seq<Center>, boxes: seq<Box>, r: ResRun, s: ResRun)
    requires ResGood(ctx, centers, boxes, r)
    requires s == ResClose(ctx, r)
    ensures OnlyCalls(s.effects, true, true, false, true)
    ensures |s.effects| <= ctx.failAt && (s.failed ==> |s.effects| == ctx.failAt)
    ensures CentersTracked(centers, ctx.orgId, s.effects, s.centerMap)
    ensures BoxesTracked(centers, boxes, ctx.orgId, s.effects, s.boxMap)
    ensures s.centerMap == r.centerMap && s.boxMap == r.boxMap && s.count == r.count
    ensures !s.failed ==> FullBatches(Batches(s.effects), BatchSize(ctx.v)) && Flatten(Batches(s.effects)) == Written(r)
  {
    if !r.failed && |r.batch| > 0 && |r.effects| != ctx.failAt {
      ResLastCommit(ctx, centers, boxes, r);
    } else if !r.failed && |r.batch| == 0 {
      assert Written(r) == Flatten(Batches(r.effects));
      CloseFull(Batches(r.effects), [], BatchSize(ctx.v));
    }
  }

  /** The closing line: on success the count, after a throw the panel's error line; the
      service's log only grows and the panel's stays short. */
  lemma ResCloseLog(ctx: ImportContext, r: ResRun, prefix: seq<LogLine>, s: ResRun)
    requires ctx.v == Service ==> Extends(r.log, prefix)
    requires ctx.v == Panel ==> |r.log| <= 6
    requires s == ResClose(ctx, r)
    ensures !s.failed ==> |s.log| > 0 && s.log[|s.log| - 1] == Success(r.count)
    ensures ctx.v == Panel && s.failed ==> |s.log| > 0 && s.log[|s.log| - 1] == ImportError
    ensures ctx.v == Service ==> Extends(s.log, prefix)
    ensures ctx.v == Panel ==> |s.log| <= 7
  {
    if ctx.v == Service {
      if s.failed {
        ExtendsSelf(r.log);
      } else {
        ExtendsSnoc(r.log, prefix, Success(r.count));
      }
    }
  }

  /** The commit of the last, partial batch. */
  lemma ResLastCommit(ctx: ImportContext, centers: seq<Center>, boxes: seq<Box>, r: ResRun)
    requires ResGood(ctx, centers, boxes, r) && !r.failed && |r.batch| > 0
    ensures var es := r.effects + [CommitWrites(r.batch)];
      && OnlyCalls(es, true, true, false, true)
      && CentersTracked(centers, ctx.orgId, es, r.centerMap)
      && BoxesTracked(centers, boxes, ctx.orgId, es, r.boxMap)
      && FullBatches(Batches(es), BatchSize(ctx.v))
      && Flatten(Batches(es)) == Written(r)
  {
    EffectsSnoc(r.effects, CommitWrites(r.batch));
    TrackedAfterCommit(centers, boxes, ctx.orgId, r.effects, r.centerMap, r.boxMap, r.batch);
    OnlyCallsSnoc(r.effects, CommitWrites(r.batch), true, true, false, true);
    FlattenSnoc(Batches(r.effects), r.batch);
    CloseFull(Batches(r.effects), r.batch, BatchSize(ctx.v));
  }

  /** Full batches followed by one partial, non-empty batch (or by none). */
  lemma CloseFull<T>(bs: seq<seq<T>>, last: seq<T>, size: nat)
    requires forall i :: 0 <= i < |bs| ==> |bs[i]| == size
    requires 1 <= size && |last| < size
    ensures FullBatches(if |last| > 0 then bs + [last] else bs, size)
  {
    if |last| > 0 {
      assert forall i :: 0 <= i < |bs| ==> (bs + [last])[i] == bs[i];
    }
  }

  /** The common proof of the three lemmas below. */
  lemma ResImportRun(ctx: ImportContext, rows: seq<ReservationRow>, centers: seq<Center>, boxes: seq<Box>,
                     log0: seq<LogLine>, s: ResRun)
    requires s == ResImport(ctx, rows, centers, boxes, log0)
    ensures ctx.v == Panel && ctx.orgId == "" ==> s.effects == [] && s.log == log0 && !s.failed
    ensures OnlyCalls(s.effects, true, true, false, true)
    ensures |s.effects| <= ctx.failAt && (s.failed ==> |s.effects| == ctx.failAt)
    ensures !(ctx.v == Panel && ctx.orgId == "") ==>
      CentersTracked(centers, ctx.orgId, s.effects, s.centerMap)
      && BoxesTracked(centers, boxes, ctx.orgId, s.effects, s.boxMap)
    ensures !(ctx.v == Panel && ctx.orgId == "") && !s.failed ==>
      && FullBatches(Batches(s.effects), BatchSize(ctx.v))
      && s.count == |YieldingCells(ctx, rows)|
      && Matches(ctx, Flatten(Batches(s.effects)), YieldingCells(ctx, rows), 0, s.centerMap, s.boxMap)
      && |s.log| > 0 && s.log[|s.log| - 1] == Success(s.count)
    ensures ctx.v == Service ==> Extends(s.log, log0 + [Starting(|rows|, ctx.orgId)])
    ensures ctx.v == Panel && s.failed ==> |s.log| > 0 && s.log[|s.log| - 1] == ImportError
    ensures ctx.v == Panel && ctx.orgId != "" ==> |s.log| <= 7
  {
    if !(ctx.v == Panel && ctx.orgId == "") {
      var prefix := StartLog(ctx.v, log0, Starting(|rows|, ctx.orgId));
      var start := ResRun([], Index(centers, CenterKey), Index(boxes, BoxKey), [], 0, prefix, false);
      ResStartGood(ctx, centers, boxes, prefix);
      var r := ResRows(ctx, |rows|, start, rows);
      ResRowsGood(ctx, centers, boxes, |rows|, start, rows, r);
      ExtendsSelf(prefix);
      if ctx.v == Service {
        ExtendsTrans(r.log, start.log, prefix);
      }
      ResCloseGood(ctx, centers, boxes, r, s);
      ResCloseLog(ctx, r, prefix, s);
      if !s.failed {
        ResRowsWritten(ctx, centers, boxes, |rows|, start, rows, r);
        assert Written(r)[0..] == Written(r);
      }
    }
  }

  /** The calls a reservation import makes: only centres, boxes and commits; each centre
      and box is created under a key absent from the stored records and from the run's
      earlier creations, in the organisation, every box under a stored or created centre;
      at most `failAt` calls are made, and exactly that many when one throws. */
  lemma ResImportCreatesOnce(ctx: ImportContext, rows: seq<ReservationRow>, centers: seq<Center>, boxes: seq<Box>,
                             log0: seq<LogLine>)
    ensures var s := ResImport(ctx, rows, centers, boxes, log0);
      && OnlyCalls(s.effects, true, true, false, true)
      && |s.effects| <= ctx.failAt && (s.failed ==> |s.effects| == ctx.failAt)
      && Unique(CentersCreated(s.effects), centers, CenterKey)
      && Unique(BoxesCreated(s.effects), boxes, BoxKey)
      && CentersOwned(CentersCreated(s.effects), ctx.orgId)
      && BoxesPlaced(BoxesCreated(s.effects), ctx.orgId, centers + CentersCreated(s.effects))
  {
    var s := ResImport(ctx, rows, centers, boxes, log0);
    ResImportRun(ctx, rows, centers, boxes, log0, s);
    FreshUnique(CentersCreated(s.effects), centers, CenterKey);
    FreshUnique(BoxesCreated(s.effects), boxes, BoxKey);
  }

  /** Unless a call threw, the committed writes are, one for one and in order, those of
      the rows that name a centre, a box and a start and whose two dates parse; write
      number k carries that row's fields and the ids of the centre and box its names key
      to among the stored and created records; every batch but the last is full, and the
      count reported is the number of writes. */
  lemma ResImportWrites(ctx: ImportContext, rows: seq<ReservationRow>, centers: seq<Center>, boxes: seq<Box>,
                        log0: seq<LogLine>)
    ensures var s := ResImport(ctx, rows, centers, boxes, log0);
      !(ctx.v == Panel && ctx.orgId == "") && !s.failed ==>
        && s.count == |YieldingCells(ctx, rows)|
        && FullBatches(Batches(s.effects), BatchSize(ctx.v))
        && Matches(ctx, Flatten(Batches(s.effects)), YieldingCells(ctx, rows), 0,
                   Index(centers + CentersCreated(s.effects), CenterKey), Index(boxes + BoxesCreated(s.effects), BoxKey))
  {
    ResImportRun(ctx, rows, centers, boxes, log0, ResImport(ctx, rows, centers, boxes, log0));
  }

  /** The log: the panel's copy does nothing without an organisation; the service's log
      continues with the row count and the organisation; the panel's holds at most seven
      lines; a run that succeeded ends with the count and a panel run that threw with an
      error line. */
  lemma ResImportLog(ctx: ImportContext, rows: seq<ReservationRow>, centers: seq<Center>, boxes: seq<Box>,
                     log0: seq<LogLine>)
    ensures var s := ResImport(ctx, rows, centers, boxes, log0);
      && (ctx.v == Panel && ctx.orgId == "" ==> s.effects == [] && s.log == log0 && !s.failed)
      && (ctx.v == Service ==> Extends(s.log, log0 + [Starting(|rows|, ctx.orgId)]))
      && (ctx.v == Panel && ctx.orgId != "" ==> |s.log| <= 7)
      && (!(ctx.v == Panel && ctx.orgId == "") && !s.failed ==>
            |s.log| > 0 && s.log[|s.log| - 1] == Success(|YieldingCells(ctx, rows)|))
      && (ctx.v == Panel && s.failed ==> |s.log| > 0 && s.log[|s.log| - 1] == ImportError)
  {
    ResImportRun(ctx, rows, centers, boxes, log0, ResImport(ctx, rows, centers, boxes, log0));
  }
}
