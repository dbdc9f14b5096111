/**
 * src/types.ts and src/services/db.ts: reservation records, the store of reservation
 * documents with its single-record writes (create, soft cancel, note update), the
 * range cancellation, the day filter and the per-box occupancy grid.
 *
 * `getChileTime` (the Santiago wall-clock `HH:mm` of a timestamp, computed through the
 * Intl time-zone database) is passed to the operations that need it as `localTime`.
 */
module Reservations {
  import opened Text
  import opened Calendar
  import opened Wrappers

  /** The directory records: a medical centre (CAE), a consulting room (box) and a doctor. */
  datatype Center = Center(id: string, name: string, orgId: string)
  datatype Box = Box(id: string, name: string, centerId: string, orgId: string)
  datatype Doctor = Doctor(id: string, name: string, centerId: string, orgId: string)

  datatype Status = Active | Cancelled

  /** A reservation document; an absent `status` is read as active (legacy data). */
  datatype Reservation = Reservation(
    id: string,
    orgId: string,
    centerId: string,
    boxId: string,
    boxName: string,
    doctorName: string,
    observation: Option<string>,
    startTime: string,
    endTime: string,
    userId: string,
    originalEventId: Option<string>,
    createdAt: int,
    status: Option<Status>,
    cancelledAt: Option<int>)

  /** What `createReservationDB` is given: a reservation without `id` and `createdAt`. */
  datatype Draft = Draft(
    orgId: string,
    centerId: string,
    boxId: string,
    boxName: string,
    doctorName: string,
    observation: Option<string>,
    startTime: string,
    endTime: string,
    userId: string,
    originalEventId: Option<string>,
    status: Option<Status>,
    cancelledAt: Option<int>)

  /** `OccupiedSlotInfo`: what the grid keeps about the reservation in a cell. */
  datatype SlotInfo = SlotInfo(
    eventId: string,
    summary: string,
    observation: Option<string>,
    boxId: string,
    startIso: string)

  /** Box name to (`HH:mm` to occupant). */
  type Grid = map<string, map<string, SlotInfo>>

  predicate IsCancelled(r: Reservation) {
    r.status == Some(Cancelled)
  }

  // ---------------------------------------------------------------------------
  // Single-record writes.
  // ---------------------------------------------------------------------------

  /** The document `createReservationDB` writes: the draft's fields, then `status: 'active'`
      and `createdAt`, under the id the store assigned. */
  function Stored(d: Draft, id: string, now: int): Reservation {
    Reservation(id, d.orgId, d.centerId, d.boxId, d.boxName, d.doctorName, d.observation,
      d.startTime, d.endTime, d.userId, d.originalEventId, now, Some(Active), d.cancelledAt)
  }

  /** The stored record is active whatever status the caller supplied, carries the creation
      time, and keeps every other field of the draft. */
  lemma StoredIsActive(d: Draft, id: string, now: int)
    ensures var r := Stored(d, id, now);
      && r.status == Some(Active) && r.createdAt == now && r.id == id
      && r.orgId == d.orgId && r.centerId == d.centerId && r.boxId == d.boxId
      && r.boxName == d.boxName && r.doctorName == d.doctorName && r.observation == d.observation
      && r.startTime == d.startTime && r.endTime == d.endTime && r.userId == d.userId
      && r.originalEventId == d.originalEventId && r.cancelledAt == d.cancelledAt
    ensures forall s :: Stored(d.(status := s), id, now) == Stored(d, id, now)
  {
  }

  /** The fields `deleteReservationDB` writes: status cancelled and the cancellation time. */
  function CancelRecord(r: Reservation, now: int): (c: Reservation)
    ensures IsCancelled(c) && c.cancelledAt == Some(now)
    ensures c.(status := r.status, cancelledAt := r.cancelledAt) == r
  {
    r.(status := Some(Cancelled), cancelledAt := Some(now))
  }

  /** Cancelling again keeps the reservation cancelled and only refreshes `cancelledAt`. */
  lemma CancelAgain(r: Reservation, first: int, second: int)
    ensures CancelRecord(CancelRecord(r, first), second) == CancelRecord(r, second)
  {
  }

  /** The field `updateReservationNote` writes. */
  function WithNote(r: Reservation, note: string): (n: Reservation)
    ensures n.observation == Some(note)
    ensures n.(observation := r.observation) == r
  {
    r.(observation := Some(note))
  }

  /** Every document of the map `m` whose id is in `ids` cancelled at `now`. */
  function CancelAll(m: map<string, Reservation>, ids: set<string>, now: int): (r: map<string, Reservation>)
    ensures r.Keys == m.Keys
    ensures forall id :: id in m && id in ids ==> r[id] == CancelRecord(m[id], now)
    ensures forall id :: id in m && id !in ids ==> r[id] == m[id]
  {
    map id | id in m :: if id in ids then CancelRecord(m[id], now) else m[id]
  }

  // ---------------------------------------------------------------------------
  // Range cancellation.
  // ---------------------------------------------------------------------------

  /** The arguments of `deleteReservationsInRange`; `startIso` and `endIso` are the
      `toISOString()` instants of the first day's start and the last day's end. */
  datatype RangeQuery = RangeQuery(
    orgId: string,
    centerId: string,
    boxId: string,
    doctorName: string,
    targetTime: string,
    startIso: string,
    endIso: string)

  /** The server-side query: equal signature fields and a `status` field present and not
      'cancelled' (Firestore's not-equal filter skips documents lacking the field). */
  predicate QueryHit(r: Reservation, q: RangeQuery) {
    r.orgId == q.orgId && r.centerId == q.centerId && r.boxId == q.boxId
    && r.doctorName == q.doctorName && r.status == Some(Active)
  }

  /** The client-side test: start time between the bounds by string order, and the local
      wall-clock time of the start equal to the target slot. */
  predicate InRange(r: Reservation, q: RangeQuery, localTime: string -> string) {
    LessEq(q.startIso, r.startTime) && LessEq(r.startTime, q.endIso)
    && localTime(r.startTime) == q.targetTime
  }

  function RangeMatches(m: map<string, Reservation>, q: RangeQuery, localTime: string -> string): (ids: set<string>)
    ensures forall id :: id in ids <==> id in m && QueryHit(m[id], q) && InRange(m[id], q, localTime)
  {
    set id | id in m && QueryHit(m[id], q) && InRange(m[id], q, localTime)
  }

  /** The batch built after visiting the snapshot ids in `seen`: a cancelled copy of each
      one in range. */
  function Batch(m: map<string, Reservation>, seen: set<string>, q: RangeQuery, localTime: string -> string,
                 now: int): (b: map<string, Reservation>)
    requires seen <= m.Keys
    ensures forall id :: id in b <==> id in seen && InRange(m[id], q, localTime)
  {
    map id | id in seen && InRange(m[id], q, localTime) :: CancelRecord(m[id], now)
  }

  /** Visiting one more id adds it to the batch exactly when it is in range. */
  lemma BatchStep(m: map<string, Reservation>, seen: set<string>, id: string, q: RangeQuery,
                  localTime: string -> string, now: int)
    requires seen <= m.Keys && id in m && id !in seen
    ensures Batch(m, seen + {id}, q, localTime, now)
      == if InRange(m[id], q, localTime) then Batch(m, seen, q, localTime, now)[id := CancelRecord(m[id], now)]
         else Batch(m, seen, q, localTime, now)
  {
  }

  /** Once the whole snapshot is visited, the batch holds exactly the range matches. */
  lemma BatchKeys(m: map<string, Reservation>, snapshot: set<string>, q: RangeQuery,
                  localTime: string -> string, now: int)
    requires snapshot == set id | id in m && QueryHit(m[id], q)
    ensures Batch(m, snapshot, q, localTime, now).Keys == RangeMatches(m, q, localTime)
  {
  }

  /** Writing a batch of cancelled copies over the store cancels exactly the batch's ids;
      an empty batch changes nothing. */
  lemma BatchIsCancelAll(m: map<string, Reservation>, b: map<string, Reservation>, ids: set<string>, now: int)
    requires b.Keys == ids && ids <= m.Keys
    requires forall id :: id in b ==> b[id] == CancelRecord(m[id], now)
    ensures |b| == |ids|
    ensures m + b == CancelAll(m, ids, now)
    ensures |b| == 0 ==> m == CancelAll(m, ids, now)
  {
    if |b| == 0 {
      assert ids == {};
    }
  }

  /** Cancelling keeps every document under its own id. */
  lemma CancelAllKeepsIds(m: map<string, Reservation>, ids: set<string>, now: int)
    requires forall id :: id in m ==> m[id].id == id
    ensures forall id :: id in CancelAll(m, ids, now) ==> CancelAll(m, ids, now)[id].id == id
  {
  }

  /** A reservation without a `status` field is never range-cancelled. */
  lemma LegacyNeverRangeCancelled(m: map<string, Reservation>, q: RangeQuery, localTime: string -> string, id: string)
    requires id in m && m[id].status == None
    ensures id !in RangeMatches(m, q, localTime)
  {
  }

  /** A range cancellation leaves nothing for the same request to cancel a second time. */
  lemma RangeCancelIdempotent(m: map<string, Reservation>, q: RangeQuery, localTime: string -> string, now: int)
    ensures RangeMatches(CancelAll(m, RangeMatches(m, q, localTime), now), q, localTime) == {}
  {
  }

  /** The `forEach` over the snapshot: queue a cancelled copy of each document in range and
      count it. */
  method CollectBatch(m: map<string, Reservation>, snapshot: set<string>, q: RangeQuery,
                      localTime: string -> string, now: int)
    returns (batch: map<string, Reservation>, count: nat)
    requires snapshot <= m.Keys
    ensures batch == Batch(m, snapshot, q, localTime, now)
    ensures count == |batch|
  {
    batch := map[];
    count := 0;
    var rest := snapshot;
    while rest != {}
      invariant rest <= snapshot
      invariant batch == Batch(m, snapshot - rest, q, localTime, now)
      invariant count == |batch|
      decreases |rest|
    {
      var id :| id in rest;
      BatchStep(m, snapshot - rest, id, q, localTime, now);
      assert (snapshot - rest) + {id} == snapshot - (rest - {id});
      if InRange(m[id], q, localTime) {
        batch := batch[id := CancelRecord(m[id], now)];
        count := count + 1;
      }
      rest := rest - {id};
    }
    assert snapshot - rest == snapshot;
  }

  // ---------------------------------------------------------------------------
  // The store.
  // ---------------------------------------------------------------------------

  /** The `reservations` collection: document id to document. */
  class ReservationStore {
    var docs: map<string, Reservation>

    /** Every document's `id` is the id it is stored under. */
    ghost predicate Valid()
      reads this
    {
      forall id :: id in docs ==> docs[id].id == id
    }

    constructor()
      ensures docs == map[] && Valid()
    {
      docs := map[];
    }

    /** `createReservationDB`: `addDoc` under a fresh id. */
    method Create(d: Draft, id: string, now: int)
      requires Valid() && id !in docs
      modifies this
      ensures Valid()
      ensures docs == old(docs)[id := Stored(d, id, now)]
    {
      docs := docs[id := Stored(d, id, now)];
    }

    /** `deleteReservationDB`: a soft delete. `updateDoc` fails on a missing document. */
    method Cancel(id: string, now: int) returns (ok: bool)
      requires Valid()
      modifies this
      ensures Valid()
      ensures ok <==> id in old(docs)
      ensures ok ==> docs == old(docs)[id := CancelRecord(old(docs)[id], now)]
      ensures !ok ==> docs == old(docs)
    {
      if id in docs {
        docs := docs[id := CancelRecord(docs[id], now)];
        ok := true;
      } else {
        ok := false;
      }
    }

    /** `updateReservationNote`: only `observation` changes; a missing document is an error
        that the caller sees. */
    method UpdateNote(id: string, note: string) returns (ok: bool)
      requires Valid()
      modifies this
      ensures Valid()
      ensures ok <==> id in old(docs)
      ensures ok ==> docs == old(docs)[id := WithNote(old(docs)[id], note)]
      ensures !ok ==> docs == old(docs)
    {
      if id in docs {
        docs := docs[id := WithNote(docs[id], note)];
        ok := true;
      } else {
        ok := false;
      }
    }

    /** `deleteReservationsInRange`: the query's documents are visited one at a time; each
        in-range one is queued in the batch and counted; the batch is committed only when
        the count is positive. */
    method CancelInRange(q: RangeQuery, now: int, localTime: string -> string) returns (count: nat)
      requires Valid()
      modifies this
      ensures Valid()
      ensures count == |RangeMatches(old(docs), q, localTime)|
      ensures count == 0 ==> docs == old(docs)
      ensures docs == CancelAll(old(docs), RangeMatches(old(docs), q, localTime), now)
    {
      var m := docs;
      var snapshot := set id | id in m && QueryHit(m[id], q);
      var batch;
      batch, count := CollectBatch(m, snapshot, q, localTime, now);
      BatchKeys(m, snapshot, q, localTime, now);
      BatchIsCancelAll(m, batch, RangeMatches(m, q, localTime), now);
      CancelAllKeepsIds(m, RangeMatches(m, q, localTime), now);
      if count > 0 {
        docs := m + batch;
      }
    }
  }

  // ---------------------------------------------------------------------------
  // Reading a day and building the grid.
  // ---------------------------------------------------------------------------

  /** The day view keeps a reservation when its start begins with the day's `YYYY-MM-DD`
      and it is not cancelled (a missing status counts as active). */
  predicate ShownOn(r: Reservation, date: Date)
    requires ValidDate(date)
  {
    StartsWith(r.startTime, DateLabel(date)) && !IsCancelled(r)
  }

  function FilterShown(rs: seq<Reservation>, date: Date): (r: seq<Reservation>)
    requires ValidDate(date)
    ensures |r| <= |rs|
    ensures forall x :: x in r <==> x in rs && ShownOn(x, date)
  {
    if rs == [] then []
    else FilterShown(rs[..|rs| - 1], date) + (if ShownOn(rs[|rs| - 1], date) then [rs[|rs| - 1]] else [])
  }

  /** The filter keeps the snapshot's order: it distributes over concatenation. */
  lemma {:induction false} FilterShownAppend(a: seq<Reservation>, b: seq<Reservation>, date: Date)
    requires ValidDate(date)
    ensures FilterShown(a + b, date) == FilterShown(a, date) + FilterShown(b, date)
    decreases |b|
  {
    if b == [] {
      assert a + b == a;
    } else {
      var n := |b| - 1;
      assert (a + b)[..|a + b| - 1] == a + b[..n];
      FilterShownAppend(a, b[..n], date);
    }
  }

  /** `getReservationsForDate` after the query: no organisation gives no reservations;
      otherwise the snapshot's reservations shown on that day. */
  function ReservationsForDate(orgId: string, snapshot: seq<Reservation>, date: Date): (r: seq<Reservation>)
    requires ValidDate(date)
    ensures orgId == "" ==> r == []
    ensures orgId != "" ==> forall x :: x in r <==> x in snapshot && ShownOn(x, date)
  {
    if orgId == "" then [] else FilterShown(snapshot, date)
  }

  /** What a cell records about its reservation. */
  function InfoOf(r: Reservation): (i: SlotInfo)
    ensures i.eventId == r.id && i.summary == r.doctorName && i.observation == r.observation
    ensures i.boxId == r.boxId && i.startIso == r.startTime
  {
    SlotInfo(r.id, r.doctorName, r.observation, r.boxId, r.startTime)
  }

  /** One step of `mapReservationsToSlots`: make sure the box row exists, then overwrite
      the cell at the reservation's local time. */
  function Place(g: Grid, r: Reservation, localTime: string -> string): Grid {
    var row := if r.boxName in g then g[r.boxName] else map[];
    g[r.boxName := row[localTime(r.startTime) := InfoOf(r)]]
  }

  /** The grid after placing the reservations in list order. */
  function GridOf(rs: seq<Reservation>, localTime: string -> string): Grid {
    if rs == [] then map[] else Place(GridOf(rs[..|rs| - 1], localTime), rs[|rs| - 1], localTime)
  }

  /** `mapReservationsToSlots`. */
  method MapReservationsToSlots(rs: seq<Reservation>, localTime: string -> string) returns (grid: Grid)
    ensures grid == GridOf(rs, localTime)
  {
    grid := map[];
    for i := 0 to |rs|
      invariant grid == GridOf(rs[..i], localTime)
    {
      assert rs[..i + 1][..i] == rs[..i];
      var r := rs[i];
      var row := if r.boxName in grid then grid[r.boxName] else map[];
      grid := grid[r.boxName := row[localTime(r.startTime) := InfoOf(r)]];
    }
    assert rs[..|rs|] == rs;
  }

  /** The grid has a row for exactly the box names of the input. */
  lemma {:induction false} GridRows(rs: seq<Reservation>, localTime: string -> string)
    ensures GridOf(rs, localTime).Keys == set r | r in rs :: r.boxName
  {
    if rs != [] {
      var init := rs[..|rs| - 1];
      GridRows(init, localTime);
      assert forall r :: r in rs <==> r in init || r == rs[|rs| - 1];
    }
  }

  /** A reservation that no later one shares a box and local time with occupies its cell:
      among collisions the later reservation in list order wins. */
  lemma {:induction false} GridLastWins(rs: seq<Reservation>, localTime: string -> string, i: int)
    requires 0 <= i < |rs|
    requires forall j :: i < j < |rs| ==>
      rs[j].boxName != rs[i].boxName || localTime(rs[j].startTime) != localTime(rs[i].startTime)
    ensures var g := GridOf(rs, localTime);
      rs[i].boxName in g && localTime(rs[i].startTime) in g[rs[i].boxName]
      && g[rs[i].boxName][localTime(rs[i].startTime)] == InfoOf(rs[i])
  {
    if i < |rs| - 1 {
      var init := rs[..|rs| - 1];
      assert forall j :: i < j < |init| ==> init[j] == rs[j];
      GridLastWins(init, localTime, i);
    }
  }

  /** Every cell holds the information of some input reservation with that box and time. */
  lemma {:induction false} GridCellsFromInput(rs: seq<Reservation>, localTime: string -> string, box: string, time: string)
    requires box in GridOf(rs, localTime) && time in GridOf(rs, localTime)[box]
    ensures exists i :: 0 <= i < |rs| && rs[i].boxName == box && localTime(rs[i].startTime) == time
                     && GridOf(rs, localTime)[box][time] == InfoOf(rs[i])
  {
    var n := |rs| - 1;
    var last := rs[n];
    if !(last.boxName == box && localTime(last.startTime) == time) {
      var init := rs[..n];
      GridCellsFromInput(init, localTime, box, time);
      var i :| 0 <= i < |init| && init[i].boxName == box && localTime(init[i].startTime) == time
        && GridOf(init, localTime)[box][time] == InfoOf(init[i]);
      assert rs[i] == init[i];
    }
  }

  /** Two reservations for the same box and local time leave one cell, holding the second. */
  lemma CollisionKeepsSecond(a: Reservation, b: Reservation, localTime: string -> string)
    requires a.boxName == b.boxName && localTime(a.startTime) == localTime(b.startTime)
    ensures GridOf([a, b], localTime) == map[b.boxName := map[localTime(b.startTime) := InfoOf(b)]]
  {
    assert [a, b][..1] == [a];
    assert [a][..0] == [];
    var g0: Grid := map[];
    assert GridOf([], localTime) == g0;
    var g1 := GridOf([a], localTime);
    assert g1 == Place(g0, a, localTime);
    var t := localTime(b.startTime);
    assert g1[b.boxName] == map[t := InfoOf(a)];
    assert g1[b.boxName][t := InfoOf(b)] == map[t := InfoOf(b)];
    assert GridOf([a, b], localTime) == Place(g1, b, localTime);
  }
}
