/**
 * src/services/adminBulkActions.ts `rescueOrphanData`: every document of the centres,
 * boxes, doctors and reservations collections whose `orgId` is missing, empty or another
 * organisation's is given the target organisation, 400 updates per committed batch.
 */
module OrphanRescue {
  import opened Wrappers
  import opened BulkImport

  /** A stored document as `getDocs` returned it: its id and its `orgId` field. */
  datatype StoredDoc = StoredDoc(id: string, orgId: Option<string>)

  /** The collections walked, in order. */
  const Collections: seq<string> := ["centers", "boxes", "doctors", "reservations"]

  /** Updates per committed batch. */
  const RescueBatch: nat := 400

  /** `!data.orgId || data.orgId !== orgId`. A document is left alone exactly when it
      already carries the target organisation and that is not empty; documents of other
      organisations are taken over too. */
  function NeedsRescue(d: StoredDoc, orgId: string): (b: bool)
    ensures !b <==> d.orgId == Some(orgId) && orgId != ""
  {
    d.orgId.None? || d.orgId.value == "" || d.orgId.value != orgId
  }

  /** The ids of the documents to update, in snapshot order. */
  function RescueIds(docs: seq<StoredDoc>, orgId: string): seq<string>
    decreases |docs|
  {
    if docs == [] then []
    else (if NeedsRescue(docs[0], orgId) then [docs[0].id] else []) + RescueIds(docs[1..], orgId)
  }

  lemma RescueIdsCons(docs: seq<StoredDoc>, orgId: string)
    requires docs != []
    ensures RescueIds(docs, orgId) == (if NeedsRescue(docs[0], orgId) then [docs[0].id] else []) + RescueIds(docs[1..], orgId)
  {
  }

  /** An id is updated exactly when some document with that id needs rescue. */
  lemma {:induction false} RescueIdsMeaning(docs: seq<StoredDoc>, orgId: string, id: string)
    ensures id in RescueIds(docs, orgId) <==> exists k :: 0 <= k < |docs| && docs[k].id == id && NeedsRescue(docs[k], orgId)
    decreases |docs|
  {
    if docs != [] {
      RescueIdsMeaning(docs[1..], orgId, id);
      if exists k :: 0 <= k < |docs[1..]| && docs[1..][k].id == id && NeedsRescue(docs[1..][k], orgId) {
        var k :| 0 <= k < |docs[1..]| && docs[1..][k].id == id && NeedsRescue(docs[1..][k], orgId);
        assert docs[k + 1] == docs[1..][k];
      }
      if exists k :: 0 <= k < |docs| && docs[k].id == id && NeedsRescue(docs[k], orgId) {
        var k :| 0 <= k < |docs| && docs[k].id == id && NeedsRescue(docs[k], orgId);
        if k > 0 {
          assert docs[1..][k - 1] == docs[k];
        }
      }
    }
  }

  /** The id lists committed for `collection`, in commit order. */
  function OrgBatches(es: seq<Effect>, collection: string): seq<seq<string>> {
    if es == [] then []
    else
      var last := es[|es| - 1];
      OrgBatches(es[..|es| - 1], collection)
      + (if last.CommitOrgUpdates? && last.collection == collection then [last.ids] else [])
  }

  lemma OrgBatchesSnoc(es: seq<Effect>, e: Effect, collection: string)
    ensures OrgBatches(es + [e], collection)
         == OrgBatches(es, collection) + (if e.CommitOrgUpdates? && e.collection == collection then [e.ids] else [])
  {
    assert (es + [e])[..|es|] == es;
  }

  /** What the rescue carries from document to document: the commits so far, the pending
      batch, the collection's and the overall count, the log and whether a commit threw. */
  datatype RescueRun = RescueRun(effects: seq<Effect>, batch: seq<string>, migrated: nat, total: nat,
                                 log: seq<LogLine>, failed: bool)

  /** One document: queue its update when it needs rescue, and commit a full batch. */
  function RescueDoc(orgId: string, failAt: nat, col: string, r: RescueRun, d: StoredDoc): RescueRun {
    var r1 := if NeedsRescue(d, orgId)
      then r.(batch := r.batch + [d.id], migrated := r.migrated + 1, total := r.total + 1)
      else r;
    if |r1.batch| >= RescueBatch then
      if |r1.effects| == failAt then r1.(failed := true)
      else r1.(effects := r1.effects + [CommitOrgUpdates(col, r1.batch)], batch := [])
    else r1
  }

  /** The loop over one collection's documents, stopping at a commit that throws. */
  function RescueDocs(orgId: string, failAt: nat, col: string, r: RescueRun, docs: seq<StoredDoc>): RescueRun
    decreases |docs|
  {
    if docs == [] || r.failed then r
    else RescueDocs(orgId, failAt, col, RescueDoc(orgId, failAt, col, r, docs[0]), docs[1..])
  }

  /** After a collection's documents: commit the partial batch, then report the count. */
  function RescueFlush(failAt: nat, col: string, r: RescueRun): RescueRun {
    if r.failed then r
    else if |r.batch| > 0 && |r.effects| == failAt then r.(failed := true)
    else
      var r2 := if |r.batch| > 0 then r.(effects := r.effects + [CommitOrgUpdates(col, r.batch)], batch := []) else r;
      r2.(log := r2.log + [Reassigned(r2.migrated, col)])
  }

  /** One collection, from `snapshot(col)`, the documents `getDocs` returned for it. */
  function RescueCollection(orgId: string, failAt: nat, snapshot: string -> seq<StoredDoc>,
                            r: RescueRun, col: string): RescueRun
  {
    var r0 := r.(batch := [], migrated := 0, log := r.log + [Analyzing(col)]);
    RescueFlush(failAt, col, RescueDocs(orgId, failAt, col, r0, snapshot(col)))
  }

  /** The loop over the collections, stopping at a commit that throws. */
  function RescueCollections(orgId: string, failAt: nat, snapshot: string -> seq<StoredDoc>,
                             r: RescueRun, cols: seq<string>): RescueRun
    decreases |cols|
  {
    if cols == [] || r.failed then r
    else RescueCollections(orgId, failAt, snapshot, RescueCollection(orgId, failAt, snapshot, r, cols[0]), cols[1..])
  }

  /** The whole rescue; its `total` is what the function returns. */
  function Rescue(orgId: string, snapshot: string -> seq<StoredDoc>, failAt: nat, log0: seq<LogLine>): RescueRun {
    RescueCollections(orgId, failAt, snapshot, RescueRun([], [], 0, 0, log0, false), Collections)
  }

  lemma RescueDocsAt(orgId: string, failAt: nat, col: string, r: RescueRun, docs: seq<StoredDoc>, j: nat)
    requires j < |docs| && !r.failed
    ensures RescueDocs(orgId, failAt, col, r, docs[j..])
         == RescueDocs(orgId, failAt, col, RescueDoc(orgId, failAt, col, r, docs[j]), docs[j + 1..])
  {
    assert docs[j..][0] == docs[j] && docs[j..][1..] == docs[j + 1..];
  }

  lemma RescueDocsDone(orgId: string, failAt: nat, col: string, r: RescueRun, docs: seq<StoredDoc>, j: nat)
    requires j <= |docs| && (j == |docs| || r.failed)
    ensures RescueDocs(orgId, failAt, col, r, docs[j..]) == r
  {
  }

  lemma RescueCollectionsAt(orgId: string, failAt: nat, snapshot: string -> seq<StoredDoc>, r: RescueRun,
                            cols: seq<string>, i: nat)
    requires i < |cols| && !r.failed
    ensures RescueCollections(orgId, failAt, snapshot, r, cols[i..])
         == RescueCollections(orgId, failAt, snapshot, RescueCollection(orgId, failAt, snapshot, r, cols[i]), cols[i + 1..])
  {
    assert cols[i..][0] == cols[i] && cols[i..][1..] == cols[i + 1..];
  }

  lemma RescueCollectionsDone(orgId: string, failAt: nat, snapshot: string -> seq<StoredDoc>, r: RescueRun,
                              cols: seq<string>, i: nat)
    requires i <= |cols| && (i == |cols| || r.failed)
    ensures RescueCollections(orgId, failAt, snapshot, r, cols[i..]) == r
  {
  }

  /** One collection as the source runs it: a loop over its documents, then the partial
      batch and the count. */
  method RescueOneCollection(orgId: string, failAt: nat, col: string, docs: seq<StoredDoc>,
                             effects0: seq<Effect>, total0: nat, log0: seq<LogLine>)
    returns (effects: seq<Effect>, batch: seq<string>, migrated: nat, total: nat, log: seq<LogLine>, failed: bool)
    ensures RescueRun(effects, batch, migrated, total, log, failed)
         == RescueFlush(failAt, col, RescueDocs(orgId, failAt, col,
                                                RescueRun(effects0, [], 0, total0, log0 + [Analyzing(col)], false), docs))
  {
    effects, batch, migrated, total, log, failed := effects0, [], 0, total0, log0 + [Analyzing(col)], false;
    ghost var start := RescueRun(effects, batch, migrated, total, log, failed);
    var j := 0;
    while j < |docs| && !failed
      invariant 0 <= j <= |docs|
      invariant RescueDocs(orgId, failAt, col, start, docs)
             == RescueDocs(orgId, failAt, col, RescueRun(effects, batch, migrated, total, log, failed), docs[j..])
      decreases |docs| - j, if failed then 0 else 1
    {
      RescueDocsAt(orgId, failAt, col, RescueRun(effects, batch, migrated, total, log, failed), docs, j);
      if NeedsRescue(docs[j], orgId) {
        batch := batch + [docs[j].id];
        migrated := migrated + 1;
        total := total + 1;
      }
      if |batch| >= RescueBatch {
        if |effects| == failAt {
          failed := true;
        } else {
          effects := effects + [CommitOrgUpdates(col, batch)];
          batch := [];
        }
      }
      if !failed {
        j := j + 1;
      }
    }
    RescueDocsDone(orgId, failAt, col, RescueRun(effects, batch, migrated, total, log, failed), docs, j);
    if !failed {
      if |batch| > 0 {
        if |effects| == failAt {
          failed := true;
          return;
        }
        effects := effects + [CommitOrgUpdates(col, batch)];
        batch := [];
      }
      log := log + [Reassigned(migrated, col)];
    }
  }

  /** `rescueOrphanData` as the source runs it. `snapshot(col)` is what `getDocs` returned
      for the collection `col`; `total` is the returned count when no commit threw. */
  method RescueOrphanData(orgId: string, snapshot: string -> seq<StoredDoc>, failAt: nat, log0: seq<LogLine>)
    returns (effects: seq<Effect>, log: seq<LogLine>, failed: bool, total: nat)
    ensures var r := Rescue(orgId, snapshot, failAt, log0);
      effects == r.effects && log == r.log && failed == r.failed && total == r.total
  {
    effects, log, failed, total := [], log0, false, 0;
    var batch: seq<string>, migrated: nat := [], 0;
    ghost var start := RescueRun(effects, batch, migrated, total, log, failed);
    var i := 0;
    while i < |Collections| && !failed
      invariant 0 <= i <= |Collections|
      invariant RescueCollections(orgId, failAt, snapshot, start, Collections)
             == RescueCollections(orgId, failAt, snapshot, RescueRun(effects, batch, migrated, total, log, failed),
                                  Collections[i..])
      decreases |Collections| - i, if failed then 0 else 1
    {
      RescueCollectionsAt(orgId, failAt, snapshot, RescueRun(effects, batch, migrated, total, log, failed),
                          Collections, i);
      var col := Collections[i];
      effects, batch, migrated, total, log, failed :=
        RescueOneCollection(orgId, failAt, col, snapshot(col), effects, total, log);
      if !failed {
        i := i + 1;
      }
    }
    RescueCollectionsDone(orgId, failAt, snapshot, RescueRun(effects, batch, migrated, total, log, failed),
                          Collections, i);
  }

  // ---------------------------------------------------------------------------
  // What the rescue does.
  // ---------------------------------------------------------------------------

  /** The log lines of a successful run over `cols`. */
  function RescueLog(orgId: string, snapshot: string -> seq<StoredDoc>, cols: seq<string>): seq<LogLine>
    decreases |cols|
  {
    if cols == [] then []
    else
      [Analyzing(cols[0]), Reassigned(|RescueIds(snapshot(cols[0]), orgId)|, cols[0])]
      + RescueLog(orgId, snapshot, cols[1..])
  }

  /** The number of documents a successful run over `cols` reassigns. */
  function RescuedCount(orgId: string, snapshot: string -> seq<StoredDoc>, cols: seq<string>): nat
    decreases |cols|
  {
    if cols == [] then 0 else |RescueIds(snapshot(cols[0]), orgId)| + RescuedCount(orgId, snapshot, cols[1..])
  }

  /** Every call is a commit of `col`. */
  predicate CommitsTo(es: seq<Effect>, col: string) {
    forall k :: 0 <= k < |es| ==> es[k].CommitOrgUpdates? && es[k].collection == col
  }

  /** Every call commits a full batch. */
  predicate FullCommits(es: seq<Effect>) {
    forall k :: 0 <= k < |es| ==> es[k].CommitOrgUpdates? && |es[k].ids| == RescueBatch
  }

  lemma {:induction false} OrgBatchesAppend(a: seq<Effect>, b: seq<Effect>, col: string)
    ensures OrgBatches(a + b, col) == OrgBatches(a, col) + OrgBatches(b, col)
    decreases |b|
  {
    if b != [] {
      var b' := b[..|b| - 1];
      assert a + b == (a + b') + [b[|b| - 1]];
      assert b == b' + [b[|b| - 1]];
      OrgBatchesSnoc(a + b', b[|b| - 1], col);
      OrgBatchesSnoc(b', b[|b| - 1], col);
      OrgBatchesAppend(a, b', col);
    } else {
      assert a + b == a;
    }
  }

  lemma {:induction false} OrgBatchesNone(es: seq<Effect>, col: string)
    requires forall k :: 0 <= k < |es| ==> es[k].CommitOrgUpdates? ==> es[k].collection != col
    ensures OrgBatches(es, col) == []
    decreases |es|
  {
    if es != [] {
      OrgBatchesNone(es[..|es| - 1], col);
    }
  }

  lemma {:induction false} OrgBatchesOf(es: seq<Effect>, col: string)
    requires CommitsTo(es, col)
    ensures |OrgBatches(es, col)| == |es|
    ensures forall k :: 0 <= k < |es| ==> OrgBatches(es, col)[k] == es[k].ids
    decreases |es|
  {
    if es != [] {
      OrgBatchesOf(es[..|es| - 1], col);
    }
  }

  /** One document, for a run that has not failed. */
  lemma RescueDocGood(orgId: string, failAt: nat, col: string, r: RescueRun, d: StoredDoc, r1: RescueRun)
    requires !r.failed && |r.batch| < RescueBatch && |r.effects| <= failAt
    requires r1 == RescueDoc(orgId, failAt, col, r, d)
    ensures r1.log == r.log
    ensures r1.failed ==> r1.effects == r.effects && |r1.effects| == failAt
    ensures !r1.failed ==> |r1.batch| < RescueBatch && |r1.effects| <= failAt
    ensures var ids := if NeedsRescue(d, orgId) then [d.id] else [];
      !r1.failed ==>
        r1.migrated == r.migrated + |ids| && r1.total == r.total + |ids|
        && ((r1.effects == r.effects && r1.batch == r.batch + ids)
            || (r1.effects == r.effects + [CommitOrgUpdates(col, r.batch + ids)]
                && |r.batch + ids| == RescueBatch && r1.batch == []))
  {
  }

  /** The loop over one collection's documents commits only full batches of that
      collection, at most `failAt` calls in all, and leaves the log alone. */
  lemma {:induction false} RescueDocsShape(orgId: string, failAt: nat, col: string, r: RescueRun,
                                           docs: seq<StoredDoc>, r': RescueRun)
    requires !r.failed && |r.batch| < RescueBatch && |r.effects| <= failAt
    requires r' == RescueDocs(orgId, failAt, col, r, docs)
    ensures |r.effects| <= |r'.effects| <= failAt && r'.effects[..|r.effects|] == r.effects
    ensures CommitsTo(r'.effects[|r.effects|..], col) && FullCommits(r'.effects[|r.effects|..])
    ensures r'.log == r.log
    ensures r'.failed ==> |r'.effects| == failAt
    ensures !r'.failed ==>
      |r'.batch| < RescueBatch
      && r'.migrated == r.migrated + |RescueIds(docs, orgId)|
      && r'.total == r.total + |RescueIds(docs, orgId)|
    decreases |docs|
  {
    if docs == [] {
      assert r'.effects[|r.effects|..] == [];
    } else {
      var r1 := RescueDoc(orgId, failAt, col, r, docs[0]);
      RescueDocGood(orgId, failAt, col, r, docs[0], r1);
      if !r1.failed {
        RescueDocsShape(orgId, failAt, col, r1, docs[1..], r');
        RescueIdsCons(docs, orgId);
        SliceJoin(r.effects, r1.effects, r'.effects);
      }
    }
  }

  /** What the loop over one collection's documents committed, followed by what is still
      pending, is, in order, the ids of the documents that need rescue. */
  lemma {:induction false} RescueDocsContent(orgId: string, failAt: nat, col: string, r: RescueRun,
                                             docs: seq<StoredDoc>, r': RescueRun)
    requires !r.failed && |r.batch| < RescueBatch && |r.effects| <= failAt
    requires r' == RescueDocs(orgId, failAt, col, r, docs)
    requires !r'.failed
    ensures |r.effects| <= |r'.effects|
    ensures Flatten(OrgBatches(r'.effects[|r.effects|..], col)) + r'.batch == r.batch + RescueIds(docs, orgId)
    decreases |docs|
  {
    RescueDocsShape(orgId, failAt, col, r, docs, r');
    if docs == [] {
      assert r'.effects[|r.effects|..] == [];
    } else {
      var r1 := RescueDoc(orgId, failAt, col, r, docs[0]);
      var ids := if NeedsRescue(docs[0], orgId) then [docs[0].id] else [];
      RescueDocGood(orgId, failAt, col, r, docs[0], r1);
      RescueDocsContent(orgId, failAt, col, r1, docs[1..], r');
      RescueDocsShape(orgId, failAt, col, r1, docs[1..], r');
      var new1 := r1.effects[|r.effects|..];
      var new2 := r'.effects[|r1.effects|..];
      SliceJoin(r.effects, r1.effects, r'.effects);
      BatchStart(new1, col, r.batch + ids, r1.batch);
      BatchJoin(new1, new2, col, r.batch, ids, r1.batch, RescueIds(docs[1..], orgId), r'.batch);
      RescueIdsCons(docs, orgId);
    }
  }

  /** After one document: either nothing was committed and the id joined the pending
      batch, or the batch with it was committed and nothing is pending. */
  lemma BatchStart(added: seq<Effect>, col: string, queued: seq<string>, pending: seq<string>)
    requires (added == [] && pending == queued) || (added == [CommitOrgUpdates(col, queued)] && pending == [])
    ensures Flatten(OrgBatches(added, col)) + pending == queued
  {
    if added != [] {
      assert added == [] + [CommitOrgUpdates(col, queued)];
      OrgBatchesSnoc([], CommitOrgUpdates(col, queued), col);
      FlattenSnoc([], queued);
    }
  }

  /** Two stretches of the loop, one after the other. */
  lemma BatchJoin(new1: seq<Effect>, new2: seq<Effect>, col: string,
                  batch: seq<string>, ids: seq<string>, mid: seq<string>, rest: seq<string>, pending: seq<string>)
    requires Flatten(OrgBatches(new1, col)) + mid == batch + ids
    requires Flatten(OrgBatches(new2, col)) + pending == mid + rest
    ensures Flatten(OrgBatches(new1 + new2, col)) + pending == batch + (ids + rest)
  {
    var f1, f2 := Flatten(OrgBatches(new1, col)), Flatten(OrgBatches(new2, col));
    OrgBatchesAppend(new1, new2, col);
    FlattenAppend(OrgBatches(new1, col), OrgBatches(new2, col));
    calc {
      Flatten(OrgBatches(new1 + new2, col)) + pending;
      (f1 + f2) + pending;
      { Associative(f1, f2, pending); }
      f1 + (mid + rest);
      { Associative(f1, mid, rest); }
      (batch + ids) + rest;
      { Associative(batch, ids, rest); }
      batch + (ids + rest);
    }
  }

  /** One collection: its commits are that collection's, the ids they carry are, in
      order, those of its documents that need rescue, and the log gains its two lines. */
  lemma RescueCollectionGood(orgId: string, failAt: nat, snapshot: string -> seq<StoredDoc>, r: RescueRun,
                             col: string, r': RescueRun)
    requires !r.failed && |r.effects| <= failAt
    requires r' == RescueCollection(orgId, failAt, snapshot, r, col)
    ensures |r.effects| <= |r'.effects| <= failAt && r'.effects[..|r.effects|] == r.effects
    ensures CommitsTo(r'.effects[|r.effects|..], col)
    ensures r'.failed ==> |r'.effects| == failAt
    ensures !r'.failed ==>
      r'.log == r.log + [Analyzing(col), Reassigned(|RescueIds(snapshot(col), orgId)|, col)]
      && r'.total == r.total + |RescueIds(snapshot(col), orgId)|
    ensures !r'.failed ==>
      Flatten(OrgBatches(r'.effects[|r.effects|..], col)) == RescueIds(snapshot(col), orgId)
      && FullBatches(OrgBatches(r'.effects[|r.effects|..], col), RescueBatch)
  {
    var r0 := r.(batch := [], migrated := 0, log := r.log + [Analyzing(col)]);
    var rd := RescueDocs(orgId, failAt, col, r0, snapshot(col));
    RescueDocsShape(orgId, failAt, col, r0, snapshot(col), rd);
    if !rd.failed {
      RescueDocsContent(orgId, failAt, col, r0, snapshot(col), rd);
    }
    RescueFlushGood(failAt, col, r, rd, RescueIds(snapshot(col), orgId), r');
  }

  /** The end of a collection, from what the loop over its documents is known to leave. */
  lemma RescueFlushGood(failAt: nat, col: string, r: RescueRun, rd: RescueRun, ids: seq<string>, r': RescueRun)
    requires |r.effects| <= |rd.effects| <= failAt && rd.effects[..|r.effects|] == r.effects
    requires CommitsTo(rd.effects[|r.effects|..], col) && FullCommits(rd.effects[|r.effects|..])
    requires rd.log == r.log + [Analyzing(col)]
    requires rd.failed ==> |rd.effects| == failAt
    requires !rd.failed ==>
      |rd.batch| < RescueBatch && rd.migrated == |ids| && rd.total == r.total + |ids|
      && Flatten(OrgBatches(rd.effects[|r.effects|..], col)) + rd.batch == [] + ids
    requires r' == RescueFlush(failAt, col, rd)
    ensures |r.effects| <= |r'.effects| <= failAt && r'.effects[..|r.effects|] == r.effects
    ensures CommitsTo(r'.effects[|r.effects|..], col)
    ensures r'.failed ==> |r'.effects| == failAt
    ensures !r'.failed ==>
      r'.log == r.log + [Analyzing(col), Reassigned(|ids|, col)] && r'.total == r.total + |ids|
    ensures !r'.failed ==>
      Flatten(OrgBatches(r'.effects[|r.effects|..], col)) == ids
      && FullBatches(OrgBatches(r'.effects[|r.effects|..], col), RescueBatch)
  {
    var newD := rd.effects[|r.effects|..];
    if rd.failed || (|rd.batch| > 0 && |rd.effects| == failAt) {
      assert r'.effects == rd.effects;
    } else if |rd.batch| > 0 {
      var e := CommitOrgUpdates(col, rd.batch);
      assert r'.effects == rd.effects + [e];
      assert r'.effects[|r.effects|..] == newD + [e];
      CommitsToSnoc(newD, col, rd.batch);
      FlushBatches(newD, col, rd.batch, ids);
    } else {
      assert r'.effects == rd.effects;
      FlushBatches(newD, col, rd.batch, ids);
    }
  }

  lemma CommitsToSnoc(es: seq<Effect>, col: string, ids: seq<string>)
    requires CommitsTo(es, col)
    ensures CommitsTo(es + [CommitOrgUpdates(col, ids)], col)
  {
  }

  /** The partial batch committed last completes the collection's batches. */
  lemma FlushBatches(added: seq<Effect>, col: string, pending: seq<string>, ids: seq<string>)
    requires CommitsTo(added, col) && FullCommits(added)
    requires Flatten(OrgBatches(added, col)) + pending == [] + ids && |pending| < RescueBatch
    ensures var all := if |pending| > 0 then added + [CommitOrgUpdates(col, pending)] else added;
      Flatten(OrgBatches(all, col)) == ids && FullBatches(OrgBatches(all, col), RescueBatch)
  {
    assert [] + ids == ids;
    if |pending| > 0 {
      var e := CommitOrgUpdates(col, pending);
      OrgBatchesSnoc(added, e, col);
      FlattenSnoc(OrgBatches(added, col), pending);
      OrgBatchesOf(added + [e], col);
    } else {
      assert pending == [];
      OrgBatchesOf(added, col);
    }
  }

  /** No two of the names are the same. */
  predicate Distinct(cols: seq<string>) {
    forall i, j :: 0 <= i < j < |cols| ==> cols[i] != cols[j]
  }

  /** The loop over the collections: every call is a commit of one of them, at most
      `failAt` calls are made, and the log and the total grow collection by collection. */
  lemma {:induction false} RescueCollectionsShape(orgId: string, failAt: nat, snapshot: string -> seq<StoredDoc>,
                                                  r: RescueRun, cols: seq<string>, r': RescueRun)
    requires !r.failed && |r.effects| <= failAt
    requires r' == RescueCollections(orgId, failAt, snapshot, r, cols)
    ensures |r.effects| <= |r'.effects| <= failAt && r'.effects[..|r.effects|] == r.effects
    ensures forall k :: |r.effects| <= k < |r'.effects| ==>
      r'.effects[k].CommitOrgUpdates? && r'.effects[k].collection in cols
    ensures r'.failed ==> |r'.effects| == failAt
    ensures !r'.failed ==>
      r'.log == r.log + RescueLog(orgId, snapshot, cols)
      && r'.total == r.total + RescuedCount(orgId, snapshot, cols)
    decreases |cols|
  {
    if cols != [] {
      var r1 := RescueCollection(orgId, failAt, snapshot, r, cols[0]);
      RescueCollectionGood(orgId, failAt, snapshot, r, cols[0], r1);
      if !r1.failed {
        RescueCollectionsShape(orgId, failAt, snapshot, r1, cols[1..], r');
        forall k | |r.effects| <= k < |r'.effects|
          ensures r'.effects[k].CommitOrgUpdates? && r'.effects[k].collection in cols
        {
          if k >= |r1.effects| {
            assert r'.effects[k].collection in cols[1..];
          } else {
            assert r'.effects[k] == r1.effects[|r.effects|..][k - |r.effects|];
          }
        }
      }
    }
  }

  /** The loop over the collections: each collection's commits carry, in order, the ids
      of its documents that need rescue, in full batches but for the last. */
  lemma {:induction false} RescueCollectionsContent(orgId: string, failAt: nat, snapshot: string -> seq<StoredDoc>,
                                                    r: RescueRun, cols: seq<string>, r': RescueRun)
    requires !r.failed && |r.effects| <= failAt && Distinct(cols)
    requires r' == RescueCollections(orgId, failAt, snapshot, r, cols)
    requires !r'.failed
    ensures |r.effects| <= |r'.effects|
    ensures forall i :: 0 <= i < |cols| ==>
      Flatten(OrgBatches(r'.effects[|r.effects|..], cols[i])) == RescueIds(snapshot(cols[i]), orgId)
      && FullBatches(OrgBatches(r'.effects[|r.effects|..], cols[i]), RescueBatch)
    decreases |cols|
  {
    RescueCollectionsShape(orgId, failAt, snapshot, r, cols, r');
    if cols != [] {
      var r1 := RescueCollection(orgId, failAt, snapshot, r, cols[0]);
      RescueCollectionGood(orgId, failAt, snapshot, r, cols[0], r1);
      RescueCollectionsShape(orgId, failAt, snapshot, r1, cols[1..], r');
      RescueCollectionsContent(orgId, failAt, snapshot, r1, cols[1..], r');
      var new1 := r1.effects[|r.effects|..];
      var new2 := r'.effects[|r1.effects|..];
      SliceJoin(r.effects, r1.effects, r'.effects);
      forall k | 0 <= k < |new2|
        ensures new2[k].CommitOrgUpdates? && new2[k].collection in cols[1..]
      {
        assert new2[k] == r'.effects[|r1.effects| + k];
      }
      JoinCollections(orgId, snapshot, cols, new1, new2);
    }
  }

  /** The first collection's commits followed by the others'. */
  lemma JoinCollections(orgId: string, snapshot: string -> seq<StoredDoc>, cols: seq<string>,
                        new1: seq<Effect>, new2: seq<Effect>)
    requires cols != [] && Distinct(cols)
    requires CommitsTo(new1, cols[0])
    requires forall k :: 0 <= k < |new2| ==> new2[k].CommitOrgUpdates? && new2[k].collection in cols[1..]
    requires Flatten(OrgBatches(new1, cols[0])) == RescueIds(snapshot(cols[0]), orgId)
      && FullBatches(OrgBatches(new1, cols[0]), RescueBatch)
    requires forall i :: 0 <= i < |cols[1..]| ==>
      Flatten(OrgBatches(new2, cols[1..][i])) == RescueIds(snapshot(cols[1..][i]), orgId)
      && FullBatches(OrgBatches(new2, cols[1..][i]), RescueBatch)
    ensures forall i :: 0 <= i < |cols| ==>
      Flatten(OrgBatches(new1 + new2, cols[i])) == RescueIds(snapshot(cols[i]), orgId)
      && FullBatches(OrgBatches(new1 + new2, cols[i]), RescueBatch)
  {
    forall i | 0 <= i < |cols|
      ensures Flatten(OrgBatches(new1 + new2, cols[i])) == RescueIds(snapshot(cols[i]), orgId)
           && FullBatches(OrgBatches(new1 + new2, cols[i]), RescueBatch)
    {
      OrgBatchesAppend(new1, new2, cols[i]);
      if i == 0 {
        forall k | 0 <= k < |new2|
          ensures new2[k].CommitOrgUpdates? ==> new2[k].collection != cols[0]
        {
          var c := new2[k].collection;
          assert c in cols[1..];
          var j :| 0 <= j < |cols[1..]| && cols[1..][j] == c;
          assert cols[j + 1] == c;
        }
        OrgBatchesNone(new2, cols[0]);
        assert OrgBatches(new1, cols[0]) + [] == OrgBatches(new1, cols[0]);
      } else {
        assert cols[i] == cols[1..][i - 1];
        forall k | 0 <= k < |new1|
          ensures new1[k].CommitOrgUpdates? ==> new1[k].collection != cols[i]
        {
        }
        OrgBatchesNone(new1, cols[i]);
        assert [] + OrgBatches(new2, cols[i]) == OrgBatches(new2, cols[i]);
      }
    }
  }

  /** `rescueOrphanData` end to end. Every call is a commit of one of the four
      collections; at most `failAt` are made, and exactly that many when one throws. When
      none throws, each collection's commits carry, in order, the ids of its documents
      that need rescue, in batches of 400 but for the last, the log gains two lines per
      collection and the returned total is the number of documents reassigned. */
  lemma RescueOutcome(orgId: string, snapshot: string -> seq<StoredDoc>, failAt: nat, log0: seq<LogLine>,
                      r: RescueRun)
    requires r == Rescue(orgId, snapshot, failAt, log0)
    ensures |r.effects| <= failAt && (r.failed ==> |r.effects| == failAt)
    ensures forall k :: 0 <= k < |r.effects| ==>
      r.effects[k].CommitOrgUpdates? && r.effects[k].collection in Collections
    ensures !r.failed ==>
      r.log == log0 + RescueLog(orgId, snapshot, Collections)
      && r.total == RescuedCount(orgId, snapshot, Collections)
    ensures !r.failed ==> forall i :: 0 <= i < |Collections| ==>
      Flatten(OrgBatches(r.effects, Collections[i])) == RescueIds(snapshot(Collections[i]), orgId)
      && FullBatches(OrgBatches(r.effects, Collections[i]), RescueBatch)
  {
    var r0 := RescueRun([], [], 0, 0, log0, false);
    assert Distinct(Collections) by {
      assert Collections[0] != Collections[1] && Collections[0] != Collections[2] && Collections[0] != Collections[3];
      assert Collections[1] != Collections[2] && Collections[1] != Collections[3] && Collections[2] != Collections[3];
    }
    RescueCollectionsShape(orgId, failAt, snapshot, r0, Collections, r);
    if !r.failed {
      RescueCollectionsContent(orgId, failAt, snapshot, r0, Collections, r);
    }
    assert r.effects[|r0.effects|..] == r.effects;
  }

  /** The documents as they stand after a successful rescue. */
  function AfterRescue(docs: seq<StoredDoc>, orgId: string): seq<StoredDoc> {
    seq(|docs|, k requires 0 <= k < |docs| =>
      if NeedsRescue(docs[k], orgId) then docs[k].(orgId := Some(orgId)) else docs[k])
  }

  /** With a non-empty organisation, a second rescue reassigns nothing. */
  lemma {:induction false} RescueSettles(docs: seq<StoredDoc>, orgId: string)
    requires orgId != ""
    ensures RescueIds(AfterRescue(docs, orgId), orgId) == []
    decreases |docs|
  {
    if docs != [] {
      assert AfterRescue(docs, orgId)[1..] == AfterRescue(docs[1..], orgId);
      RescueSettles(docs[1..], orgId);
    }
  }

  /** With an empty organisation every document is rewritten, on every run. */
  lemma {:induction false} RescueEmptyOrgTakesAll(docs: seq<StoredDoc>)
    ensures |RescueIds(docs, "")| == |docs|
    decreases |docs|
  {
    if docs != [] {
      RescueEmptyOrgTakesAll(docs[1..]);
    }
  }
}
