/**
 * src/services/adminBulkActions.ts `processDoctorsCSV` and the admin panel's
 * `processDoctors`: each row names a centre and a doctor; the centre is found by its key or
 * created, then the doctor is found under that centre's id or created.
 */
module DoctorImport {
  import opened Text
  import opened Wrappers
  import opened Reservations
  import opened BulkImport

  datatype DoctorRow = DoctorRow(cae: Option<string>, medico: Option<string>)

  /** Rows with an empty trimmed centre or doctor are skipped. */
  predicate DoctorAccepted(row: DoctorRow) {
    Cell(row.cae) != "" && Cell(row.medico) != ""
  }

  /** The row's centre key is in the centre map and the doctor key under that centre's id
      is in the doctor map. */
  predicate DoctorResolved(row: DoctorRow, centerMap: map<string, Center>, doctorMap: map<string, Doctor>) {
    var key := NameKey(Cell(row.cae));
    key in centerMap && MemberKey(centerMap[key].id, Cell(row.medico)) in doctorMap
  }

  /** Every accepted row among `rows` is resolved. */
  predicate DoctorRowsResolved(rows: seq<DoctorRow>, centerMap: map<string, Center>, doctorMap: map<string, Doctor>) {
    forall j :: 0 <= j < |rows| && DoctorAccepted(rows[j]) ==> DoctorResolved(rows[j], centerMap, doctorMap)
  }

  /** What the doctor loop carries from row to row. */
  datatype DoctorRun = DoctorRun(effects: seq<Effect>, centerMap: map<string, Center>,
                                 doctorMap: map<string, Doctor>, newDoctors: nat, log: seq<LogLine>, failed: bool)

  /** After the centre lookup: the service logs a centre it had to create. */
  function DoctorWithCenter(v: Variant, r: DoctorRun, f: Found<Center>, rawCae: string): DoctorRun {
    if f.created then
      r.(effects := f.effects, centerMap := f.index,
         log := if v == Service then r.log + [NewCenterForDoctor(rawCae)] else r.log)
    else r
  }

  /** After the doctor lookup: a created doctor is counted, and every fifth one logged by
      the service. */
  function DoctorWithDoctor(v: Variant, r: DoctorRun, f: Found<Doctor>): DoctorRun {
    if f.created then
      var n := r.newDoctors + 1;
      r.(effects := f.effects, doctorMap := f.index, newDoctors := n,
         log := if v == Service && n % 5 == 0 then r.log + [DoctorsAdded(n)] else r.log)
    else r
  }

  /** One row of the loop. */
  function DoctorStep(v: Variant, orgId: string, newId: nat -> string, failAt: nat,
                      r: DoctorRun, row: DoctorRow): DoctorRun
  {
    DoctorCells(v, orgId, newId, failAt, r, Cell(row.cae), Cell(row.medico))
  }

  /** One row of the loop, from its trimmed centre and doctor cells. */
  function DoctorCells(v: Variant, orgId: string, newId: nat -> string, failAt: nat,
                       r: DoctorRun, rawCae: string, rawMedico: string): DoctorRun
  {
    if rawCae == "" || rawMedico == "" then r
    else
      match LookupCenter(r.effects, r.centerMap, Lower(rawCae), rawCae, orgId, newId, failAt)
      case None => r.(failed := true)
      case Some(fc) =>
        var r1 := DoctorWithCenter(v, r, fc, rawCae);
        match LookupDoctor(r1.effects, r1.doctorMap, fc.record.id + "_" + Lower(rawMedico), rawMedico,
                           fc.record.id, orgId, newId, failAt)
        case None => r1.(failed := true)
        case Some(fd) => DoctorWithDoctor(v, r1, fd)
  }

  /** The loop over the rows, stopping at the first call that throws. */
  function DoctorRows(v: Variant, orgId: string, newId: nat -> string, failAt: nat,
                      r: DoctorRun, rows: seq<DoctorRow>): DoctorRun
    decreases |rows|
  {
    if rows == [] || r.failed then r
    else DoctorRows(v, orgId, newId, failAt, DoctorStep(v, orgId, newId, failAt, r, rows[0]), rows[1..])
  }

  /** The whole import: the panel's copy returns at once without an organisation; the
      closing line reports the count, and a throw ends the panel's log with an error line
      (the service's throw reaches its caller). */
  function DoctorImport(v: Variant, rows: seq<DoctorRow>, orgId: string, centers: seq<Center>, doctors: seq<Doctor>,
                        newId: nat -> string, failAt: nat, log0: seq<LogLine>): DoctorRun
  {
    if v == Panel && orgId == "" then DoctorRun([], map[], map[], 0, log0, false)
    else
      var start := DoctorRun([], Index(centers, CenterKey), Index(doctors, DoctorKey), 0,
                             log0 + [ProcessingDoctors(|rows|)], false);
      DoctorClose(v, DoctorRows(v, orgId, newId, failAt, start, rows))
  }

  /** The line after the loop. */
  function DoctorClose(v: Variant, r: DoctorRun): DoctorRun {
    if !r.failed then r.(log := r.log + [DoctorsDone(r.newDoctors)])
    else if v == Panel then r.(log := r.log + [ImportError])
    else r
  }

  /** The fold from row `i` on: one step, then the fold from row `i + 1`. */
  lemma DoctorRowsAt(v: Variant, orgId: string, newId: nat -> string, failAt: nat, r: DoctorRun, rows: seq<DoctorRow>, i: nat)
    requires i < |rows| && !r.failed
    ensures DoctorRows(v, orgId, newId, failAt, r, rows[i..]) == DoctorRows(v, orgId, newId, failAt, DoctorStep(v, orgId, newId, failAt, r, rows[i]), rows[i + 1..])
  {
    assert rows[i..][0] == rows[i] && rows[i..][1..] == rows[i + 1..];
  }

  /** The fold from row `i` on, by position. */
  function DoctorRowsFrom(v: Variant, orgId: string, newId: nat -> string, failAt: nat,
                          r: DoctorRun, rows: seq<DoctorRow>, i: nat): DoctorRun
    decreases |rows| - i
  {
    if i >= |rows| || r.failed then r
    else DoctorRowsFrom(v, orgId, newId, failAt, DoctorStep(v, orgId, newId, failAt, r, rows[i]), rows, i + 1)
  }

  /** Folding from position `i` is folding the rows from `i` on. */
  lemma {:induction false} DoctorRowsFromIs(v: Variant, orgId: string, newId: nat -> string, failAt: nat,
                                            r: DoctorRun, rows: seq<DoctorRow>, i: nat)
    requires i <= |rows|
    ensures DoctorRowsFrom(v, orgId, newId, failAt, r, rows, i) == DoctorRows(v, orgId, newId, failAt, r, rows[i..])
    decreases |rows| - i
  {
    if i < |rows| && !r.failed {
      DoctorRowsFromIs(v, orgId, newId, failAt, DoctorStep(v, orgId, newId, failAt, r, rows[i]), rows, i + 1);
      DoctorRowsAt(v, orgId, newId, failAt, r, rows, i);
    }
  }

  /** The body of the loop for one row: resolve or create the row's centre, then its doctor. */
  method ImportDoctorRow(v: Variant, orgId: string, newId: nat -> string, failAt: nat,
                         row: DoctorRow,
                         effects0: seq<Effect>, centerMap0: map<string, Center>, doctorMap0: map<string, Doctor>,
                         newDoctors0: nat, log0: seq<LogLine>)
    returns (effects: seq<Effect>, centerMap: map<string, Center>, doctorMap: map<string, Doctor>,
             newDoctors: nat, log: seq<LogLine>, failed: bool)
    ensures DoctorRun(effects, centerMap, doctorMap, newDoctors, log, failed)
         == DoctorStep(v, orgId, newId, failAt, DoctorRun(effects0, centerMap0, doctorMap0, newDoctors0, log0, false), row)
  {
    var rawCae, rawMedico := Cell(row.cae), Cell(row.medico);
    effects, centerMap, doctorMap, newDoctors, log, failed := effects0, centerMap0, doctorMap0, newDoctors0, log0, false;
    ghost var before := DoctorRun(effects, centerMap, doctorMap, newDoctors, log, failed);
    if rawCae != "" && rawMedico != "" {
      var centerId := "";
      var centerKey := Lower(rawCae);
      ghost var fc := LookupCenter(effects, centerMap, centerKey, rawCae, orgId, newId, failAt);
      if centerKey in centerMap {
        centerId := centerMap[centerKey].id;
      } else if |effects| == failAt {
        failed := true;
      } else {
        var c := Center(newId(|effects|), rawCae, orgId);
        effects := effects + [AddCenter(c)];
        centerMap := centerMap[centerKey := c];
        centerId := c.id;
        if v == Service {
          log := log + [NewCenterForDoctor(rawCae)];
        }
      }
      if !failed {
        ghost var r1 := DoctorRun(effects, centerMap, doctorMap, newDoctors, log, failed);
        assert r1 == DoctorWithCenter(v, before, fc.value, rawCae) && centerId == fc.value.record.id;
        var docKey := centerId + "_" + Lower(rawMedico);
        ghost var fd := LookupDoctor(effects, doctorMap, docKey, rawMedico, centerId, orgId, newId, failAt);
        if docKey !in doctorMap {
          if |effects| == failAt {
            failed := true;
          } else {
            var d := Doctor(newId(|effects|), rawMedico, centerId, orgId);
            effects := effects + [AddDoctor(d)];
            doctorMap := doctorMap[docKey := d];
            newDoctors := newDoctors + 1;
            assert fd.value.created && r1.newDoctors + 1 == newDoctors;
            if v == Service && newDoctors % 5 == 0 {
              log := log + [DoctorsAdded(newDoctors)];
            }
            assert DoctorWithDoctor(v, r1, fd.value)
                == DoctorRun(effects, centerMap, doctorMap, newDoctors, log, failed);
          }
        }
      }
    }
  }

  /** The loop over the rows: one row at a time until the rows run out or a call throws. */
  method ImportDoctorRows(v: Variant, orgId: string, newId: nat -> string, failAt: nat, rows: seq<DoctorRow>,
                          effects0: seq<Effect>, centerMap0: map<string, Center>, doctorMap0: map<string, Doctor>,
                          newDoctors0: nat, log0: seq<LogLine>)
    returns (effects: seq<Effect>, centerMap: map<string, Center>, doctorMap: map<string, Doctor>,
             newDoctors: nat, log: seq<LogLine>, failed: bool)
    ensures DoctorRun(effects, centerMap, doctorMap, newDoctors, log, failed)
         == DoctorRowsFrom(v, orgId, newId, failAt,
                           DoctorRun(effects0, centerMap0, doctorMap0, newDoctors0, log0, false), rows, 0)
  {
    var r := DoctorRun(effects0, centerMap0, doctorMap0, newDoctors0, log0, false);
    ghost var start := r;
    var i := 0;
    while i < |rows| && !r.failed
      invariant 0 <= i <= |rows|
      invariant DoctorRowsFrom(v, orgId, newId, failAt, start, rows, 0)
             == DoctorRowsFrom(v, orgId, newId, failAt, r, rows, i)
    {
      var e, cm, dm, n, l, f :=
        ImportDoctorRow(v, orgId, newId, failAt, rows[i], r.effects, r.centerMap, r.doctorMap, r.newDoctors, r.log);
      r := DoctorRun(e, cm, dm, n, l, f);
      i := i + 1;
    }
    effects, centerMap, doctorMap, newDoctors, log, failed :=
      r.effects, r.centerMap, r.doctorMap, r.newDoctors, r.log, r.failed;
  }

  /** The doctor import as the source runs it. `centers` and `doctors` are what
      `getCenters` and `getDoctors` returned for the organisation. */
  method ProcessDoctors(v: Variant, rows: seq<DoctorRow>, orgId: string,
                        centers: seq<Center>, doctors: seq<Doctor>,
                        newId: nat -> string, failAt: nat, log0: seq<LogLine>)
    returns (effects: seq<Effect>, log: seq<LogLine>, failed: bool)
    ensures var r := DoctorImport(v, rows, orgId, centers, doctors, newId, failAt, log0);
      effects == r.effects && log == r.log && failed == r.failed
  {
    effects, log, failed := [], log0, false;
    if v == Panel && orgId == "" {
      return;
    }
    log := log + [ProcessingDoctors(|rows|)];
    var centerMap := Index(centers, CenterKey);
    var doctorMap := Index(doctors, DoctorKey);
    var newDoctors: nat := 0;
    ghost var start := DoctorRun(effects, centerMap, doctorMap, newDoctors, log, failed);
    effects, centerMap, doctorMap, newDoctors, log, failed :=
      ImportDoctorRows(v, orgId, newId, failAt, rows, effects, centerMap, doctorMap, newDoctors, log);
    DoctorRowsFromIs(v, orgId, newId, failAt, start, rows, 0);
    assert rows[0..] == rows;
    if failed {
      if v == Panel {
        log := log + [ImportError];
      }
    } else {
      log := log + [DoctorsDone(newDoctors)];
    }
  }

  // ---------------------------------------------------------------------------
  // What a doctor import promises.
  // ---------------------------------------------------------------------------

  /** The loop's invariant: only centre and doctor calls, at most `failAt` of them (exactly
      that many once one threw), the maps index the stored plus created records, and the
      counter counts the created doctors. */
  predicate DoctorGood(centers: seq<Center>, doctors: seq<Doctor>, orgId: string, failAt: nat, r: DoctorRun) {
    && OnlyCalls(r.effects, true, false, true, false)
    && |r.effects| <= failAt && (r.failed ==> |r.effects| == failAt)
    && CentersTracked(centers, orgId, r.effects, r.centerMap)
    && DoctorsTracked(centers, doctors, orgId, r.effects, r.doctorMap)
    && r.newDoctors == |DoctorsCreated(r.effects)|
  }

  /** The centre half of a row keeps the invariant and resolves the centre. */
  lemma DoctorCenterGood(v: Variant, centers: seq<Center>, doctors: seq<Doctor>, orgId: string,
                         newId: nat -> string, failAt: nat, r: DoctorRun, rawCae: string, f: Found<Center>)
    requires DoctorGood(centers, doctors, orgId, failAt, r) && !r.failed
    requires Lower(rawCae) == NameKey(rawCae)
    requires LookupCenter(r.effects, r.centerMap, Lower(rawCae), rawCae, orgId, newId, failAt) == Some(f)
    ensures var r1 := DoctorWithCenter(v, r, f, rawCae);
      && DoctorGood(centers, doctors, orgId, failAt, r1) && !r1.failed
      && NameKey(rawCae) in r1.centerMap && r1.centerMap[NameKey(rawCae)] == f.record
      && f.record.id in CenterIds(centers + CentersCreated(r1.effects))
      && Keeps(r.centerMap, r1.centerMap) && r1.doctorMap == r.doctorMap && Extends(r1.log, r.log)
  {
    LookupCenterTracked(centers, orgId, r.effects, r.centerMap, Lower(rawCae), rawCae, newId, failAt);
    ExtendsSelf(r.log);
    if f.created {
      DoctorCenterCreated(v, centers, doctors, orgId, failAt, r, rawCae, f);
    }
  }

  /** The created-centre case of the lemma above. */
  lemma DoctorCenterCreated(v: Variant, centers: seq<Center>, doctors: seq<Doctor>, orgId: string, failAt: nat,
                            r: DoctorRun, rawCae: string, f: Found<Center>)
    requires DoctorGood(centers, doctors, orgId, failAt, r) && !r.failed
    requires f.created && f.effects == r.effects + [AddCenter(f.record)] && |r.effects| != failAt
    requires CentersTracked(centers, orgId, f.effects, f.index)
    ensures var r1 := DoctorWithCenter(v, r, f, rawCae);
      DoctorGood(centers, doctors, orgId, failAt, r1) && Extends(r1.log, r.log)
  {
    var c := f.record;
    DoctorsTrackedAfterCenter(centers, doctors, orgId, r.effects, r.doctorMap, c);
    OnlyCallsSnoc(r.effects, AddCenter(c), true, false, true, false);
    CenterCall(r.effects, c);
    ExtendsSelf(r.log);
    ExtendsSnoc(r.log, r.log, NewCenterForDoctor(rawCae));
  }

  /** The doctor half of a row keeps the invariant and resolves the doctor. */
  lemma DoctorDoctorGood(v: Variant, centers: seq<Center>, doctors: seq<Doctor>, orgId: string,
                         newId: nat -> string, failAt: nat, r: DoctorRun, rawMedico: string, centerId: string,
                         f: Found<Doctor>)
    requires DoctorGood(centers, doctors, orgId, failAt, r) && !r.failed
    requires Lower(rawMedico) == NameKey(rawMedico)
    requires centerId in CenterIds(centers + CentersCreated(r.effects))
    requires LookupDoctor(r.effects, r.doctorMap, centerId + "_" + Lower(rawMedico), rawMedico, centerId,
                          orgId, newId, failAt) == Some(f)
    ensures var r2 := DoctorWithDoctor(v, r, f);
      && DoctorGood(centers, doctors, orgId, failAt, r2) && !r2.failed
      && MemberKey(centerId, rawMedico) in r2.doctorMap
      && r2.centerMap == r.centerMap && Keeps(r.doctorMap, r2.doctorMap) && Extends(r2.log, r.log)
  {
    LookupDoctorTracked(centers, doctors, orgId, r.effects, r.centerMap, r.doctorMap,
                        centerId + "_" + Lower(rawMedico), rawMedico, centerId, newId, failAt);
    if f.created {
      DoctorCreated(v, centers, doctors, orgId, failAt, r, f);
    } else {
      ExtendsSelf(r.log);
    }
  }

  /** The created-doctor case of the lemma above. */
  lemma DoctorCreated(v: Variant, centers: seq<Center>, doctors: seq<Doctor>, orgId: string, failAt: nat,
                      r: DoctorRun, f: Found<Doctor>)
    requires DoctorGood(centers, doctors, orgId, failAt, r) && !r.failed
    requires f.created && f.effects == r.effects + [AddDoctor(f.record)] && |r.effects| != failAt
    requires CentersTracked(centers, orgId, f.effects, r.centerMap)
    requires DoctorsTracked(centers, doctors, orgId, f.effects, f.index)
    ensures var r2 := DoctorWithDoctor(v, r, f);
      DoctorGood(centers, doctors, orgId, failAt, r2) && Extends(r2.log, r.log)
  {
    var r2 := DoctorWithDoctor(v, r, f);
    assert r2 == r.(effects := f.effects, doctorMap := f.index, newDoctors := r.newDoctors + 1, log := r2.log);
    OnlyCallsSnoc(r.effects, AddDoctor(f.record), true, false, true, false);
    DoctorCall(r.effects, f.record);
    if r2.log == r.log {
      ExtendsSelf(r.log);
    } else {
      ExtendsSnoc(r.log, r.log, DoctorsAdded(r.newDoctors + 1));
    }
  }

  /** One row keeps the invariant, only adds to the maps and the log, and resolves the row. */
  lemma DoctorStepGood(v: Variant, centers: seq<Center>, doctors: seq<Doctor>, orgId: string,
                       newId: nat -> string, failAt: nat, r: DoctorRun, row: DoctorRow)
    requires DoctorGood(centers, doctors, orgId, failAt, r) && !r.failed
    ensures var s := DoctorStep(v, orgId, newId, failAt, r, row);
      && DoctorGood(centers, doctors, orgId, failAt, s)
      && Keeps(r.centerMap, s.centerMap) && Keeps(r.doctorMap, s.doctorMap) && Extends(s.log, r.log)
      && (!s.failed && DoctorAccepted(row) ==> DoctorResolved(row, s.centerMap, s.doctorMap))
  {
    var rawCae, rawMedico := Cell(row.cae), Cell(row.medico);
    CellKey(row.cae);
    CellKey(row.medico);
    ExtendsSelf(r.log);
    if rawCae != "" && rawMedico != "" {
      var oc := LookupCenter(r.effects, r.centerMap, Lower(rawCae), rawCae, orgId, newId, failAt);
      if oc.None? {
        LookupCenterTracked(centers, orgId, r.effects, r.centerMap, Lower(rawCae), rawCae, newId, failAt);
      } else {
        var fc := oc.value;
        DoctorCenterGood(v, centers, doctors, orgId, newId, failAt, r, rawCae, fc);
        var r1 := DoctorWithCenter(v, r, fc, rawCae);
        var od := LookupDoctor(r1.effects, r1.doctorMap, fc.record.id + "_" + Lower(rawMedico), rawMedico,
                               fc.record.id, orgId, newId, failAt);
        if od.None? {
          LookupDoctorTracked(centers, doctors, orgId, r1.effects, r1.centerMap, r1.doctorMap,
                              fc.record.id + "_" + Lower(rawMedico), rawMedico, fc.record.id, newId, failAt);
        } else {
          DoctorDoctorGood(v, centers, doctors, orgId, newId, failAt, r1, rawMedico, fc.record.id, od.value);
          var r2 := DoctorWithDoctor(v, r1, od.value);
          ExtendsTrans(r2.log, r1.log, r.log);
          KeepsTrans(r.doctorMap, r1.doctorMap, r2.doctorMap);
        }
      }
    }
  }

  /** The whole loop keeps the invariant and, unless a call threw, resolves every accepted row. */
  lemma {:induction false} DoctorRowsGood(v: Variant, centers: seq<Center>, doctors: seq<Doctor>, orgId: string,
                                          newId: nat -> string, failAt: nat, r: DoctorRun, rows: seq<DoctorRow>)
    requires DoctorGood(centers, doctors, orgId, failAt, r)
    ensures var s := DoctorRows(v, orgId, newId, failAt, r, rows);
      && DoctorGood(centers, doctors, orgId, failAt, s)
      && Keeps(r.centerMap, s.centerMap) && Keeps(r.doctorMap, s.doctorMap) && Extends(s.log, r.log)
      && (!s.failed ==> DoctorRowsResolved(rows, s.centerMap, s.doctorMap))
    decreases |rows|
  {
    if rows == [] || r.failed {
      ExtendsSelf(r.log);
    } else {
      var t := DoctorStep(v, orgId, newId, failAt, r, rows[0]);
      DoctorStepGood(v, centers, doctors, orgId, newId, failAt, r, rows[0]);
      DoctorRowsGood(v, centers, doctors, orgId, newId, failAt, t, rows[1..]);
      var s := DoctorRows(v, orgId, newId, failAt, t, rows[1..]);
      KeepsTrans(r.centerMap, t.centerMap, s.centerMap);
      KeepsTrans(r.doctorMap, t.doctorMap, s.doctorMap);
      ExtendsTrans(s.log, t.log, r.log);
      if !s.failed {
        forall j | 0 <= j < |rows| && DoctorAccepted(rows[j])
          ensures DoctorResolved(rows[j], s.centerMap, s.doctorMap)
        {
          if j == 0 {
            DoctorResolvedKept(rows[0], t.centerMap, t.doctorMap, s.centerMap, s.doctorMap);
          } else {
            assert rows[1..][j - 1] == rows[j];
          }
        }
      }
    }
  }

  /** Resolved rows stay resolved while the maps only gain entries. */
  lemma DoctorResolvedKept(row: DoctorRow, centerMap: map<string, Center>, doctorMap: map<string, Doctor>,
                           centerMap': map<string, Center>, doctorMap': map<string, Doctor>)
    requires DoctorResolved(row, centerMap, doctorMap)
    requires Keeps(centerMap, centerMap') && Keeps(doctorMap, doctorMap')
    ensures DoctorResolved(row, centerMap', doctorMap')
  {
  }

  /** The run before the first row satisfies the loop's invariant. */
  lemma DoctorStartGood(centers: seq<Center>, doctors: seq<Doctor>, orgId: string, failAt: nat, log: seq<LogLine>)
    ensures DoctorGood(centers, doctors, orgId, failAt,
                       DoctorRun([], Index(centers, CenterKey), Index(doctors, DoctorKey), 0, log, false))
  {
    assert centers + [] == centers && doctors + [] == doctors;
  }

  /** The common proof of the lemmas below. */
  lemma DoctorImportRun(v: Variant, rows: seq<DoctorRow>, orgId: string, centers: seq<Center>,
                        doctors: seq<Doctor>, newId: nat -> string, failAt: nat, log0: seq<LogLine>)
    ensures var r := DoctorImport(v, rows, orgId, centers, doctors, newId, failAt, log0);
      && (v == Panel && orgId == "" ==> r.effects == [] && r.log == log0 && !r.failed)
      && (!(v == Panel && orgId == "") ==> DoctorGood(centers, doctors, orgId, failAt, r))
      && (!(v == Panel && orgId == "") ==> Extends(r.log, log0 + [ProcessingDoctors(|rows|)]))
      && (!(v == Panel && orgId == "") && !r.failed ==>
            DoctorRowsResolved(rows, r.centerMap, r.doctorMap)
            && r.log[|r.log| - 1] == DoctorsDone(r.newDoctors))
      && (v == Panel && r.failed ==> r.log[|r.log| - 1] == ImportError)
  {
    if !(v == Panel && orgId == "") {
      var prefix := log0 + [ProcessingDoctors(|rows|)];
      var start := DoctorRun([], Index(centers, CenterKey), Index(doctors, DoctorKey), 0, prefix, false);
      DoctorStartGood(centers, doctors, orgId, failAt, prefix);
      DoctorRowsGood(v, centers, doctors, orgId, newId, failAt, start, rows);
      var r := DoctorRows(v, orgId, newId, failAt, start, rows);
      DoctorCloseGood(v, centers, doctors, orgId, failAt, r, prefix);
      assert DoctorImport(v, rows, orgId, centers, doctors, newId, failAt, log0) == DoctorClose(v, r);
    }
  }

  /** The closing line keeps the invariant and the log's prefix. */
  lemma DoctorCloseGood(v: Variant, centers: seq<Center>, doctors: seq<Doctor>, orgId: string, failAt: nat,
                        r: DoctorRun, prefix: seq<LogLine>)
    requires DoctorGood(centers, doctors, orgId, failAt, r) && Extends(r.log, prefix)
    ensures var s := DoctorClose(v, r);
      && DoctorGood(centers, doctors, orgId, failAt, s) && Extends(s.log, prefix)
      && s.failed == r.failed && s.centerMap == r.centerMap && s.doctorMap == r.doctorMap
      && (!s.failed ==> s.log[|s.log| - 1] == DoctorsDone(s.newDoctors))
      && (v == Panel && s.failed ==> s.log[|s.log| - 1] == ImportError)
  {
    if !r.failed {
      ExtendsSnoc(r.log, prefix, DoctorsDone(r.newDoctors));
    } else if v == Panel {
      ExtendsSnoc(r.log, prefix, ImportError);
    }
  }

  /** The calls a doctor import makes: only centres and doctors are created, each under a
      key absent from the stored records and from the run's earlier creations, all of them
      in the organisation and every doctor under a stored or created centre; at most
      `failAt` calls are made, and exactly that many when one throws. */
  lemma DoctorImportCreatesOnce(v: Variant, rows: seq<DoctorRow>, orgId: string, centers: seq<Center>,
                                doctors: seq<Doctor>, newId: nat -> string, failAt: nat, log0: seq<LogLine>)
    ensures var r := DoctorImport(v, rows, orgId, centers, doctors, newId, failAt, log0);
      && OnlyCalls(r.effects, true, false, true, false)
      && |r.effects| <= failAt && (r.failed ==> |r.effects| == failAt)
      && Unique(CentersCreated(r.effects), centers, CenterKey)
      && Unique(DoctorsCreated(r.effects), doctors, DoctorKey)
      && CentersOwned(CentersCreated(r.effects), orgId)
      && DoctorsPlaced(DoctorsCreated(r.effects), orgId, centers + CentersCreated(r.effects))
  {
    DoctorImportRun(v, rows, orgId, centers, doctors, newId, failAt, log0);
    var r := DoctorImport(v, rows, orgId, centers, doctors, newId, failAt, log0);
    FreshUnique(CentersCreated(r.effects), centers, CenterKey);
    FreshUnique(DoctorsCreated(r.effects), doctors, DoctorKey);
  }

  /** Unless a call threw, every row with a centre and a doctor is resolved afterwards
      against the stored and created records, and the closing line counts the created
      doctors. */
  lemma DoctorImportResolvesRows(v: Variant, rows: seq<DoctorRow>, orgId: string, centers: seq<Center>,
                                 doctors: seq<Doctor>, newId: nat -> string, failAt: nat, log0: seq<LogLine>)
    ensures var r := DoctorImport(v, rows, orgId, centers, doctors, newId, failAt, log0);
      !(v == Panel && orgId == "") && !r.failed ==>
        && DoctorRowsResolved(rows, Index(centers + CentersCreated(r.effects), CenterKey),
                              Index(doctors + DoctorsCreated(r.effects), DoctorKey))
        && r.log[|r.log| - 1] == DoctorsDone(|DoctorsCreated(r.effects)|)
  {
    DoctorImportRun(v, rows, orgId, centers, doctors, newId, failAt, log0);
  }

  /** The panel's copy does nothing without an organisation; otherwise the log continues
      with the row count, and the panel's ends with an error line when a call threw. */
  lemma DoctorImportLog(v: Variant, rows: seq<DoctorRow>, orgId: string, centers: seq<Center>,
                        doctors: seq<Doctor>, newId: nat -> string, failAt: nat, log0: seq<LogLine>)
    ensures var r := DoctorImport(v, rows, orgId, centers, doctors, newId, failAt, log0);
      && (v == Panel && orgId == "" ==> r.effects == [] && r.log == log0 && !r.failed)
      && (!(v == Panel && orgId == "") ==> Extends(r.log, log0 + [ProcessingDoctors(|rows|)]))
      && (v == Panel && r.failed ==> r.log[|r.log| - 1] == ImportError)
  {
    DoctorImportRun(v, rows, orgId, centers, doctors, newId, failAt, log0);
  }

  /** A row that is skipped or already resolved changes nothing. */
  lemma DoctorStepIdle(v: Variant, orgId: string, newId: nat -> string, failAt: nat, row: DoctorRow, run: DoctorRun)
    requires !DoctorAccepted(row) || DoctorResolved(row, run.centerMap, run.doctorMap)
    ensures DoctorStep(v, orgId, newId, failAt, run, row) == run
  {
    CellKey(row.cae);
    CellKey(row.medico);
  }

  /** Rows that are all skipped or resolved change nothing. */
  lemma {:induction false} DoctorRowsIdle(v: Variant, orgId: string, newId: nat -> string, failAt: nat,
                                          run: DoctorRun, rows: seq<DoctorRow>)
    requires DoctorRowsResolved(rows, run.centerMap, run.doctorMap)
    ensures DoctorRows(v, orgId, newId, failAt, run, rows) == run
    decreases |rows|
  {
    if rows != [] && !run.failed {
      DoctorStepIdle(v, orgId, newId, failAt, rows[0], run);
      forall j | 0 <= j < |rows[1..]| && DoctorAccepted(rows[1..][j])
        ensures DoctorResolved(rows[1..][j], run.centerMap, run.doctorMap)
      {
        assert rows[1..][j] == rows[j + 1];
      }
      DoctorRowsIdle(v, orgId, newId, failAt, run, rows[1..]);
    }
  }

  /** Importing the same rows again, against the stored records plus those the first run
      created, creates nothing and reports zero new doctors. */
  lemma DoctorImportIdempotent(v: Variant, rows: seq<DoctorRow>, orgId: string, centers: seq<Center>,
                               doctors: seq<Doctor>, newId: nat -> string, failAt: nat, log0: seq<LogLine>,
                               newId2: nat -> string, failAt2: nat, log1: seq<LogLine>)
    requires !(v == Panel && orgId == "")
    ensures var r := DoctorImport(v, rows, orgId, centers, doctors, newId, failAt, log0);
      !r.failed ==>
        var r2 := DoctorImport(v, rows, orgId, centers + CentersCreated(r.effects),
                               doctors + DoctorsCreated(r.effects), newId2, failAt2, log1);
        r2.effects == [] && !r2.failed && r2.log == log1 + [ProcessingDoctors(|rows|), DoctorsDone(0)]
  {
    DoctorImportRun(v, rows, orgId, centers, doctors, newId, failAt, log0);
    var r := DoctorImport(v, rows, orgId, centers, doctors, newId, failAt, log0);
    if !r.failed {
      var start2 := DoctorRun([], Index(centers + CentersCreated(r.effects), CenterKey),
                              Index(doctors + DoctorsCreated(r.effects), DoctorKey), 0,
                              log1 + [ProcessingDoctors(|rows|)], false);
      DoctorRowsIdle(v, orgId, newId2, failAt2, start2, rows);
      assert DoctorImport(v, rows, orgId, centers + CentersCreated(r.effects), doctors + DoctorsCreated(r.effects), newId2, failAt2, log1) == DoctorClose(v, start2);
    }
  }
}
