/**
 * src/services/adminBulkActions.ts and its copy inside src/components/AdminPanel.tsx: the
 * CSV importers that resolve-or-create centres, boxes and doctors through per-run lookup
 * maps, upsert imported reservations in fixed-size write batches, and the orphan-data
 * rescue.
 *
 * The remote calls (`addCenter`, `addBox`, `addDoctor`, a batch `commit`) are recorded, in
 * order, as the run's `effects`. Call number `failAt` (counting from 0) throws; every call
 * before it has taken effect and stays (there is no rollback). The id the store assigns to
 * the document made by effect number k is `newId(k)`.
 */
module BulkImport {
  import opened Text
  import opened Wrappers
  import opened Reservations
  import opened ImportTime

  /** Which copy of the importer runs: the service module or the admin panel's own. */
  datatype Variant = Service | Panel

  /** Writes per committed batch: 400 in the service, 100 in the panel. */
  function BatchSize(v: Variant): (n: nat)
    ensures v == Service ==> n == 400
    ensures v == Panel ==> n == 100
  {
    match v
    case Service => 400
    case Panel => 100
  }

  /** The fields of one imported reservation document (written with `merge: true`). */
  datatype ImportFields = ImportFields(
    orgId: string,
    centerId: string,
    boxId: string,
    boxName: string,
    doctorName: string,
    observation: string,
    startTime: string,
    endTime: string,
    userId: string,
    originalEventId: string,
    createdAt: int)

  /** One `batch.set(ref, fields, { merge: true })`. */
  datatype ImportWrite = ImportWrite(docId: string, fields: ImportFields)

  /** A remote call that returned. */
  datatype Effect =
    | AddCenter(center: Center)
    | AddBox(box: Box)
    | AddDoctor(doctor: Doctor)
    | CommitWrites(writes: seq<ImportWrite>)
    | CommitOrgUpdates(collection: string, ids: seq<string>)

  /** The progress messages, by meaning rather than wording. */
  datatype LogLine =
    | Processing(rows: nat)
    | ProcessingDoctors(rows: nat)
    | NewCenter(name: string)
    | NewCenterForDoctor(name: string)
    | BoxesAdded(count: nat)
    | DoctorsAdded(count: nat)
    | InfrastructureDone(centers: nat, boxes: nat)
    | DoctorsDone(doctors: nat)
    | Starting(rows: nat, orgId: string)
    | Progress(saved: nat, rows: nat)
    | Success(imported: nat)
    | ImportError
    | Analyzing(collection: string)
    | Reassigned(count: nat, collection: string)

  // ---------------------------------------------------------------------------
  // Lookup keys and the per-run maps.
  // ---------------------------------------------------------------------------

  /** A stored name's key, `name.toLowerCase().trim()`: the outer white space is dropped
      one character at a time and what is left is lower-cased (`NameKeyMeaning`). */
  function NameKey(name: string): string
    decreases |name|
  {
    if name != [] && IsSpace(name[0]) then NameKey(name[1..])
    else if name != [] && IsSpace(name[|name| - 1]) then NameKey(name[..|name| - 1])
    else Lower(name)
  }

  /** The key is the source's `name.toLowerCase().trim()`, and equally the row lookup's
      `name.trim().toLowerCase()`. */
  lemma NameKeyMeaning(name: string)
    ensures NameKey(name) == Trim(Lower(name))
    ensures NameKey(name) == Lower(Trim(name))
  {
    NameKeyTrimmed(name);
    LowerTrimCommute(name);
  }

  lemma {:induction false} NameKeyTrimmed(name: string)
    ensures NameKey(name) == Lower(Trim(name))
    decreases |name|
  {
    if name != [] && IsSpace(name[0]) {
      NameKeyTrimmed(name[1..]);
      assert TrimStart(name) == TrimStart(name[1..]);
    } else if name != [] && IsSpace(name[|name| - 1]) {
      var n := |name| - 1;
      NameKeyTrimmed(name[..n]);
      assert TrimStart(name) == name;
      assert TrimStart(name[..n]) == name[..n];
      assert TrimEnd(name) == TrimEnd(name[..n]);
    } else {
      TrimOfTrimmed(name);
    }
  }

  /** A trimmed row value is looked up by `raw.toLowerCase()`, which is its name key: names
      differing only in letter case or outer whitespace share one key. */
  lemma RowKey(raw: string)
    ensures Lower(Trim(raw)) == NameKey(Trim(raw))
    ensures NameKey(Trim(raw)) == NameKey(raw)
  {
    NameKeyTrimmed(raw);
    NameKeyTrimmed(Trim(raw));
    TrimIdempotent(raw);
  }

  /** Two names that differ only in the case of their letters share one key. */
  lemma NameKeyIgnoresCase(a: string, b: string)
    requires |a| == |b|
    requires forall k :: 0 <= k < |a| ==> LowerChar(a[k]) == LowerChar(b[k])
    ensures NameKey(a) == NameKey(b)
  {
    LowerMeaning(a);
    LowerMeaning(b);
    assert Lower(a) == Lower(b);
    NameKeyMeaning(a);
    NameKeyMeaning(b);
  }

  /** Boxes and doctors are keyed by `${centerId}_${name key}`. */
  function MemberKey(centerId: string, name: string): string {
    centerId + "_" + NameKey(name)
  }

  /** The key of a stored centre. */
  function CenterKey(c: Center): string {
    NameKey(c.name)
  }

  /** The key of a stored box. */
  function BoxKey(b: Box): string {
    MemberKey(b.centerId, b.name)
  }

  /** The key of a stored doctor. */
  function DoctorKey(d: Doctor): string {
    MemberKey(d.centerId, d.name)
  }

  /** `new Map(records.map(r => [key(r), r]))`: every record's key is present, and a later
      record with the same key replaces an earlier one. */
  function Index<T>(xs: seq<T>, key: T -> string): (m: map<string, T>)
    ensures forall n :: 0 <= n < |xs| ==> key(xs[n]) in m
  {
    if xs == [] then map[]
    else
      var n := |xs| - 1;
      Index(xs[..n], key)[key(xs[n]) := xs[n]]
  }

  /** Every entry of an index is one of the indexed records, filed under its own key. */
  lemma {:induction false} IndexValue<T>(xs: seq<T>, key: T -> string, k: string)
    requires k in Index(xs, key)
    ensures Index(xs, key)[k] in xs && key(Index(xs, key)[k]) == k
  {
    var n := |xs| - 1;
    if k != key(xs[n]) {
      IndexValue(xs[..n], key, k);
    }
  }

  /** Indexing one more record is one more `map.set`. */
  lemma IndexSnoc<T>(xs: seq<T>, key: T -> string, x: T)
    ensures Index(xs + [x], key) == Index(xs, key)[key(x) := x]
  {
    assert (xs + [x])[..|xs|] == xs;
  }

  /** Indexing more records keeps every key known before. */
  lemma IndexKeys<T>(a: seq<T>, b: seq<T>, key: T -> string)
    ensures forall k :: k in Index(a, key) ==> k in Index(a + b, key)
  {
    forall k | k in Index(a, key)
      ensures k in Index(a + b, key)
    {
      IndexValue(a, key, k);
      var x := Index(a, key)[k];
      var n :| 0 <= n < |a| && a[n] == x;
      assert (a + b)[n] == x;
    }
  }

  /** Each created record was created under a key the lookup map did not hold at the
      time: absent from the stored records and from the records created before it. */
  predicate Fresh<T>(created: seq<T>, stored: seq<T>, key: T -> string)
    decreases |created|
  {
    created == [] ||
    var n := |created| - 1;
    Fresh(created[..n], stored, key) && key(created[n]) !in Index(stored + created[..n], key)
  }

  /** One record per key and run: the created records' keys are new to the stored records
      and pairwise different. */
  predicate Unique<T>(created: seq<T>, stored: seq<T>, key: T -> string) {
    (forall i :: 0 <= i < |created| ==> key(created[i]) !in Index(stored, key))
    && (forall i, j :: 0 <= i < j < |created| ==> key(created[i]) != key(created[j]))
  }

  /** Creating a record only for a key absent from the lookup map keeps the run fresh. */
  lemma FreshSnoc<T>(created: seq<T>, stored: seq<T>, key: T -> string, x: T)
    requires Fresh(created, stored, key)
    requires key(x) !in Index(stored + created, key)
    ensures Fresh(created + [x], stored, key)
  {
    assert (created + [x])[..|created|] == created;
  }

  /** Records created only under absent keys are unique. */
  lemma {:induction false} FreshUnique<T>(created: seq<T>, stored: seq<T>, key: T -> string)
    requires Fresh(created, stored, key)
    ensures Unique(created, stored, key)
    decreases |created|
  {
    if created != [] {
      var n := |created| - 1;
      var before := created[..n];
      FreshUnique(before, stored, key);
      IndexKeys(stored, before, key);
      forall i | 0 <= i < n
        ensures key(created[i]) != key(created[n])
      {
        assert (stored + before)[|stored| + i] == created[i];
      }
    }
  }

  // ---------------------------------------------------------------------------
  // What a run did, read off its effects.
  // ---------------------------------------------------------------------------

  function CentersCreated(es: seq<Effect>): seq<Center> {
    if es == [] then []
    else
      var last := es[|es| - 1];
      CentersCreated(es[..|es| - 1]) + (if last.AddCenter? then [last.center] else [])
  }

  function BoxesCreated(es: seq<Effect>): seq<Box> {
    if es == [] then []
    else
      var last := es[|es| - 1];
      BoxesCreated(es[..|es| - 1]) + (if last.AddBox? then [last.box] else [])
  }

  function DoctorsCreated(es: seq<Effect>): seq<Doctor> {
    if es == [] then []
    else
      var last := es[|es| - 1];
      DoctorsCreated(es[..|es| - 1]) + (if last.AddDoctor? then [last.doctor] else [])
  }

  /** The committed write batches, in commit order. */
  function Batches(es: seq<Effect>): seq<seq<ImportWrite>> {
    if es == [] then []
    else
      var last := es[|es| - 1];
      Batches(es[..|es| - 1]) + (if last.CommitWrites? then [last.writes] else [])
  }

  /** Reading the effects one call at a time. */
  lemma EffectsSnoc(es: seq<Effect>, e: Effect)
    ensures CentersCreated(es + [e]) == CentersCreated(es) + (if e.AddCenter? then [e.center] else [])
    ensures BoxesCreated(es + [e]) == BoxesCreated(es) + (if e.AddBox? then [e.box] else [])
    ensures DoctorsCreated(es + [e]) == DoctorsCreated(es) + (if e.AddDoctor? then [e.doctor] else [])
    ensures Batches(es + [e]) == Batches(es) + (if e.CommitWrites? then [e.writes] else [])
  {
    assert (es + [e])[..|es|] == es;
  }

  lemma CenterCall(es: seq<Effect>, c: Center)
    ensures CentersCreated(es + [AddCenter(c)]) == CentersCreated(es) + [c]
    ensures BoxesCreated(es + [AddCenter(c)]) == BoxesCreated(es)
    ensures DoctorsCreated(es + [AddCenter(c)]) == DoctorsCreated(es)
    ensures Batches(es + [AddCenter(c)]) == Batches(es)
  {
    EffectsSnoc(es, AddCenter(c));
  }

  lemma BoxCall(es: seq<Effect>, b: Box)
    ensures CentersCreated(es + [AddBox(b)]) == CentersCreated(es)
    ensures BoxesCreated(es + [AddBox(b)]) == BoxesCreated(es) + [b]
    ensures Batches(es + [AddBox(b)]) == Batches(es)
  {
    EffectsSnoc(es, AddBox(b));
  }

  lemma DoctorCall(es: seq<Effect>, d: Doctor)
    ensures CentersCreated(es + [AddDoctor(d)]) == CentersCreated(es)
    ensures DoctorsCreated(es + [AddDoctor(d)]) == DoctorsCreated(es) + [d]
  {
    EffectsSnoc(es, AddDoctor(d));
  }

  /** Only the listed kinds of remote call were made. */
  predicate OnlyCalls(es: seq<Effect>, centers: bool, boxes: bool, doctors: bool, commits: bool) {
    forall k :: 0 <= k < |es| ==>
      (es[k].AddCenter? && centers) || (es[k].AddBox? && boxes)
      || (es[k].AddDoctor? && doctors) || (es[k].CommitWrites? && commits)
  }

  lemma OnlyCallsSnoc(es: seq<Effect>, e: Effect, centers: bool, boxes: bool, doctors: bool, commits: bool)
    requires OnlyCalls(es, centers, boxes, doctors, commits)
    requires (e.AddCenter? && centers) || (e.AddBox? && boxes)
      || (e.AddDoctor? && doctors) || (e.CommitWrites? && commits)
    ensures OnlyCalls(es + [e], centers, boxes, doctors, commits)
  {
  }

  function Flatten<T>(bs: seq<seq<T>>): seq<T> {
    if bs == [] then [] else Flatten(bs[..|bs| - 1]) + bs[|bs| - 1]
  }

  lemma FlattenSnoc<T>(bs: seq<seq<T>>, b: seq<T>)
    ensures Flatten(bs + [b]) == Flatten(bs) + b
  {
    assert (bs + [b])[..|bs|] == bs;
  }

  lemma {:induction false} FlattenAppend<T>(a: seq<seq<T>>, b: seq<seq<T>>)
    ensures Flatten(a + b) == Flatten(a) + Flatten(b)
    decreases |b|
  {
    if b != [] {
      var b' := b[..|b| - 1];
      assert a + b == (a + b') + [b[|b| - 1]];
      FlattenSnoc(a + b', b[|b| - 1]);
      FlattenAppend(a, b');
      FlattenSnoc(b', b[|b| - 1]);
      assert b == b' + [b[|b| - 1]];
    } else {
      assert a + b == a;
    }
  }

  /** Every batch holds 1 to `size` writes and every batch but the last exactly `size`. */
  predicate FullBatches<T>(bs: seq<seq<T>>, size: nat) {
    forall i :: 0 <= i < |bs| ==> 1 <= |bs[i]| <= size && (i < |bs| - 1 ==> |bs[i]| == size)
  }

  // ---------------------------------------------------------------------------
  // Ownership of the created records.
  // ---------------------------------------------------------------------------

  /** The set of ids of some centres. */
  function CenterIds(cs: seq<Center>): set<string> {
    set c | c in cs :: c.id
  }

  lemma CenterIdsSnoc(cs: seq<Center>, c: Center)
    ensures CenterIds(cs + [c]) == CenterIds(cs) + {c.id}
  {
  }

  /** Every created centre belongs to the organisation. */
  predicate CentersOwned(cs: seq<Center>, orgId: string) {
    forall k :: 0 <= k < |cs| ==> cs[k].orgId == orgId
  }

  lemma CentersOwnedSnoc(cs: seq<Center>, orgId: string, c: Center)
    requires CentersOwned(cs, orgId) && c.orgId == orgId
    ensures CentersOwned(cs + [c], orgId)
  {
  }

  /** Every created box belongs to the organisation and hangs off a known centre. */
  predicate BoxesPlaced(bs: seq<Box>, orgId: string, cs: seq<Center>) {
    forall k :: 0 <= k < |bs| ==> bs[k].orgId == orgId && bs[k].centerId in CenterIds(cs)
  }

  lemma BoxesPlacedSnoc(bs: seq<Box>, orgId: string, cs: seq<Center>, b: Box)
    requires BoxesPlaced(bs, orgId, cs) && b.orgId == orgId && b.centerId in CenterIds(cs)
    ensures BoxesPlaced(bs + [b], orgId, cs)
  {
  }

  lemma BoxesPlacedGrow(bs: seq<Box>, orgId: string, cs: seq<Center>, c: Center)
    requires BoxesPlaced(bs, orgId, cs)
    ensures BoxesPlaced(bs, orgId, cs + [c])
  {
    CenterIdsSnoc(cs, c);
  }

  /** Every created doctor belongs to the organisation and hangs off a known centre. */
  predicate DoctorsPlaced(ds: seq<Doctor>, orgId: string, cs: seq<Center>) {
    forall k :: 0 <= k < |ds| ==> ds[k].orgId == orgId && ds[k].centerId in CenterIds(cs)
  }

  lemma DoctorsPlacedSnoc(ds: seq<Doctor>, orgId: string, cs: seq<Center>, d: Doctor)
    requires DoctorsPlaced(ds, orgId, cs) && d.orgId == orgId && d.centerId in CenterIds(cs)
    ensures DoctorsPlaced(ds + [d], orgId, cs)
  {
  }

  lemma DoctorsPlacedGrow(ds: seq<Doctor>, orgId: string, cs: seq<Center>, c: Center)
    requires DoctorsPlaced(ds, orgId, cs)
    ensures DoctorsPlaced(ds, orgId, cs + [c])
  {
    CenterIdsSnoc(cs, c);
  }

  /** A centre found in the lookup map is a stored or created one. */
  lemma FoundCenter(cs: seq<Center>, k: string)
    requires k in Index(cs, CenterKey)
    ensures Index(cs, CenterKey)[k].id in CenterIds(cs)
  {
    IndexValue(cs, CenterKey, k);
  }

  // ---------------------------------------------------------------------------
  // Rows and logs.
  // ---------------------------------------------------------------------------

  /** A CSV cell as read by `row.x ? row.x.trim() : ''`; an absent cell reads as empty. */
  function Cell(x: Option<string>): string {
    if x.Some? then Trim(x.value) else ""
  }

  /** Looking up a trimmed cell with `toLowerCase()` finds the cell's name key. */
  lemma CellKey(x: Option<string>)
    ensures Lower(Cell(x)) == NameKey(Cell(x))
  {
    if x.Some? {
      RowKey(x.value);
    }
  }

  /** `log` starts with `prefix`. */
  predicate Extends(log: seq<LogLine>, prefix: seq<LogLine>) {
    |prefix| <= |log| && log[..|prefix|] == prefix
  }

  lemma ExtendsSnoc(log: seq<LogLine>, prefix: seq<LogLine>, line: LogLine)
    requires Extends(log, prefix)
    ensures Extends(log + [line], prefix)
  {
    assert (log + [line])[..|prefix|] == log[..|prefix|];
  }
  lemma ExtendsSelf(log: seq<LogLine>)
    ensures Extends(log, log)
  {
  }

  lemma ExtendsTrans(a: seq<LogLine>, b: seq<LogLine>, c: seq<LogLine>)
    requires Extends(a, b) && Extends(b, c)
    ensures Extends(a, c)
  {
    assert a[..|c|] == a[..|b|][..|c|];
  }

  // ---------------------------------------------------------------------------
  // Resolve-or-create: the lookups every importer makes for a row.
  // ---------------------------------------------------------------------------

  /** `m2` keeps every entry of `m1`. */
  predicate Keeps<T(==)>(m1: map<string, T>, m2: map<string, T>) {
    forall k :: k in m1 ==> k in m2 && m2[k] == m1[k]
  }

  lemma KeepsInsert<T>(m: map<string, T>, key: string, v: T)
    requires key !in m
    ensures Keeps(m, m[key := v])
  {
  }

  lemma KeepsTrans<T>(m1: map<string, T>, m2: map<string, T>, m3: map<string, T>)
    requires Keeps(m1, m2) && Keeps(m2, m3)
    ensures Keeps(m1, m3)
  {
  }

  /** The outcome of one lookup that did not throw: the calls and the map after it, the
      record found or created, and whether it was created. */
  datatype Found<T> = Found(effects: seq<Effect>, index: map<string, T>, record: T, created: bool)

  /** `map.has(key) ? map.get(key) : await addCenter(name, orgId)` followed by `map.set`;
      `None` when the call throws. */
  function LookupCenter(effects: seq<Effect>, centerMap: map<string, Center>, key: string, name: string,
                        orgId: string, newId: nat -> string, failAt: nat): Option<Found<Center>>
  {
    if key in centerMap then Some(Found(effects, centerMap, centerMap[key], false))
    else if |effects| == failAt then None
    else
      var c := Center(newId(|effects|), name, orgId);
      Some(Found(effects + [AddCenter(c)], centerMap[key := c], c, true))
  }

  /** The same for a box of the centre `centerId`. */
  function LookupBox(effects: seq<Effect>, boxMap: map<string, Box>, key: string, name: string,
                     centerId: string, orgId: string, newId: nat -> string, failAt: nat): Option<Found<Box>>
  {
    if key in boxMap then Some(Found(effects, boxMap, boxMap[key], false))
    else if |effects| == failAt then None
    else
      var b := Box(newId(|effects|), name, centerId, orgId);
      Some(Found(effects + [AddBox(b)], boxMap[key := b], b, true))
  }

  /** The same for a doctor of the centre `centerId`. */
  function LookupDoctor(effects: seq<Effect>, doctorMap: map<string, Doctor>, key: string, name: string,
                        centerId: string, orgId: string, newId: nat -> string, failAt: nat): Option<Found<Doctor>>
  {
    if key in doctorMap then Some(Found(effects, doctorMap, doctorMap[key], false))
    else if |effects| == failAt then None
    else
      var d := Doctor(newId(|effects|), name, centerId, orgId);
      Some(Found(effects + [AddDoctor(d)], doctorMap[key := d], d, true))
  }

  /** The centre map indexes the stored centres and those the run created, which are fresh
      and belong to the organisation. */
  predicate CentersTracked(centers: seq<Center>, orgId: string, effects: seq<Effect>, centerMap: map<string, Center>) {
    centerMap == Index(centers + CentersCreated(effects), CenterKey)
    && Fresh(CentersCreated(effects), centers, CenterKey)
    && CentersOwned(CentersCreated(effects), orgId)
  }

  /** The box map indexes the stored boxes and those the run created, which are fresh,
      belong to the organisation and hang off stored or created centres. */
  predicate BoxesTracked(centers: seq<Center>, boxes: seq<Box>, orgId: string, effects: seq<Effect>,
                         boxMap: map<string, Box>) {
    boxMap == Index(boxes + BoxesCreated(effects), BoxKey)
    && Fresh(BoxesCreated(effects), boxes, BoxKey)
    && BoxesPlaced(BoxesCreated(effects), orgId, centers + CentersCreated(effects))
  }

  /** The same for doctors. */
  predicate DoctorsTracked(centers: seq<Center>, doctors: seq<Doctor>, orgId: string, effects: seq<Effect>,
                           doctorMap: map<string, Doctor>) {
    doctorMap == Index(doctors + DoctorsCreated(effects), DoctorKey)
    && Fresh(DoctorsCreated(effects), doctors, DoctorKey)
    && DoctorsPlaced(DoctorsCreated(effects), orgId, centers + CentersCreated(effects))
  }

  /** A centre lookup under the name's key finds or creates the one centre for that key,
      creating it only when the key is new, and throws only at call number `failAt`. */
  lemma LookupCenterTracked(centers: seq<Center>, orgId: string, effects: seq<Effect>,
                            centerMap: map<string, Center>, key: string, name: string,
                            newId: nat -> string, failAt: nat)
    requires CentersTracked(centers, orgId, effects, centerMap)
    requires key == NameKey(name)
    ensures match LookupCenter(effects, centerMap, key, name, orgId, newId, failAt)
      case None => key !in centerMap && |effects| == failAt
      case Some(f) =>
        && CentersTracked(centers, orgId, f.effects, f.index)
        && key in f.index && f.index[key] == f.record
        && f.record.id in CenterIds(centers + CentersCreated(f.effects))
        && Keeps(centerMap, f.index)
        && (f.created ==> f.effects == effects + [AddCenter(f.record)] && |effects| != failAt)
        && (!f.created ==> f.effects == effects)
  {
    var cs := centers + CentersCreated(effects);
    if key in centerMap {
      FoundCenter(cs, key);
    } else if |effects| != failAt {
      var c := Center(newId(|effects|), name, orgId);
      CenterCall(effects, c);
      KeepsInsert(centerMap, key, c);
      IndexSnoc(cs, CenterKey, c);
      FreshSnoc(CentersCreated(effects), centers, CenterKey, c);
      CentersOwnedSnoc(CentersCreated(effects), orgId, c);
      CenterIdsSnoc(cs, c);
      Associative(centers, CentersCreated(effects), [c]);
    }
  }

  /** Creating a centre keeps the box map tracked. */
  lemma BoxesTrackedAfterCenter(centers: seq<Center>, boxes: seq<Box>, orgId: string, effects: seq<Effect>,
                                boxMap: map<string, Box>, c: Center)
    requires BoxesTracked(centers, boxes, orgId, effects, boxMap)
    ensures BoxesTracked(centers, boxes, orgId, effects + [AddCenter(c)], boxMap)
  {
    CenterCall(effects, c);
    BoxesPlacedGrow(BoxesCreated(effects), orgId, centers + CentersCreated(effects), c);
    Associative(centers, CentersCreated(effects), [c]);
  }

  /** Creating a centre keeps the doctor map tracked. */
  lemma DoctorsTrackedAfterCenter(centers: seq<Center>, doctors: seq<Doctor>, orgId: string, effects: seq<Effect>,
                                  doctorMap: map<string, Doctor>, c: Center)
    requires DoctorsTracked(centers, doctors, orgId, effects, doctorMap)
    ensures DoctorsTracked(centers, doctors, orgId, effects + [AddCenter(c)], doctorMap)
  {
    CenterCall(effects, c);
    DoctorsPlacedGrow(DoctorsCreated(effects), orgId, centers + CentersCreated(effects), c);
    Associative(centers, CentersCreated(effects), [c]);
  }

  /** A box lookup under the member key finds or creates the one box for that key. */
  lemma LookupBoxTracked(centers: seq<Center>, boxes: seq<Box>, orgId: string,
                         effects: seq<Effect>, centerMap: map<string, Center>, boxMap: map<string, Box>,
                         key: string, name: string, centerId: string, newId: nat -> string, failAt: nat)
    requires CentersTracked(centers, orgId, effects, centerMap)
    requires BoxesTracked(centers, boxes, orgId, effects, boxMap)
    requires key == MemberKey(centerId, name)
    requires centerId in CenterIds(centers + CentersCreated(effects))
    ensures match LookupBox(effects, boxMap, key, name, centerId, orgId, newId, failAt)
      case None => key !in boxMap && |effects| == failAt
      case Some(f) =>
        && CentersTracked(centers, orgId, f.effects, centerMap)
        && BoxesTracked(centers, boxes, orgId, f.effects, f.index)
        && key in f.index
        && Keeps(boxMap, f.index)
        && (f.created ==> f.effects == effects + [AddBox(f.record)] && |effects| != failAt)
        && (!f.created ==> f.effects == effects)
  {
    if key !in boxMap && |effects| != failAt {
      var b := Box(newId(|effects|), name, centerId, orgId);
      BoxCall(effects, b);
      KeepsInsert(boxMap, key, b);
      IndexSnoc(boxes + BoxesCreated(effects), BoxKey, b);
      FreshSnoc(BoxesCreated(effects), boxes, BoxKey, b);
      BoxesPlacedSnoc(BoxesCreated(effects), orgId, centers + CentersCreated(effects), b);
      Associative(boxes, BoxesCreated(effects), [b]);
    }
  }

  /** A doctor lookup under the member key finds or creates the one doctor for that key. */
  lemma LookupDoctorTracked(centers: seq<Center>, doctors: seq<Doctor>, orgId: string,
                            effects: seq<Effect>, centerMap: map<string, Center>, doctorMap: map<string, Doctor>,
                            key: string, name: string, centerId: string, newId: nat -> string, failAt: nat)
    requires CentersTracked(centers, orgId, effects, centerMap)
    requires DoctorsTracked(centers, doctors, orgId, effects, doctorMap)
    requires key == MemberKey(centerId, name)
    requires centerId in CenterIds(centers + CentersCreated(effects))
    ensures match LookupDoctor(effects, doctorMap, key, name, centerId, orgId, newId, failAt)
      case None => key !in doctorMap && |effects| == failAt
      case Some(f) =>
        && CentersTracked(centers, orgId, f.effects, centerMap)
        && DoctorsTracked(centers, doctors, orgId, f.effects, f.index)
        && key in f.index
        && Keeps(doctorMap, f.index)
        && (f.created ==> f.effects == effects + [AddDoctor(f.record)] && |effects| != failAt)
        && (!f.created ==> f.effects == effects)
  {
    if key !in doctorMap && |effects| != failAt {
      var d := Doctor(newId(|effects|), name, centerId, orgId);
      DoctorCall(effects, d);
      KeepsInsert(doctorMap, key, d);
      IndexSnoc(doctors + DoctorsCreated(effects), DoctorKey, d);
      FreshSnoc(DoctorsCreated(effects), doctors, DoctorKey, d);
      DoctorsPlacedSnoc(DoctorsCreated(effects), orgId, centers + CentersCreated(effects), d);
      Associative(doctors, DoctorsCreated(effects), [d]);
    }
  }

  // ---------------------------------------------------------------------------
  // processInfrastructureCSV / processInfrastructure.
  // ---------------------------------------------------------------------------

  datatype InfraRow = InfraRow(cae: Option<string>, box: Option<string>)

  /** Rows with an empty trimmed centre or box are skipped. */
  predicate InfraAccepted(row: InfraRow) {
    Cell(row.cae) != "" && Cell(row.box) != ""
  }

  /** The row's centre key is in the centre map and the box key under that centre's id is
      in the box map. */
  predicate InfraResolved(row: InfraRow, centerMap: map<string, Center>, boxMap: map<string, Box>) {
    var key := NameKey(Cell(row.cae));
    key in centerMap && MemberKey(centerMap[key].id, Cell(row.box)) in boxMap
  }

  /** Every accepted row among `rows` is resolved. */
  predicate InfraRowsResolved(rows: seq<InfraRow>, centerMap: map<string, Center>, boxMap: map<string, Box>) {
    forall j :: 0 <= j < |rows| && InfraAccepted(rows[j]) ==> InfraResolved(rows[j], centerMap, boxMap)
  }

  /** Resolved rows stay resolved while the maps only gain entries. */
  lemma InfraResolvedKept(row: InfraRow, centerMap: map<string, Center>, boxMap: map<string, Box>,
                          centerMap': map<string, Center>, boxMap': map<string, Box>)
    requires InfraResolved(row, centerMap, boxMap)
    requires Keeps(centerMap, centerMap') && Keeps(boxMap, boxMap')
    ensures InfraResolved(row, centerMap', boxMap')
  {
  }

  /** What the infrastructure loop carries from row to row. */
  datatype InfraRun = InfraRun(effects: seq<Effect>, centerMap: map<string, Center>, boxMap: map<string, Box>,
                               newCenters: nat, newBoxes: nat, log: seq<LogLine>, failed: bool)

  /** After the centre lookup: a created centre is counted and logged. */
  function InfraWithCenter(r: InfraRun, f: Found<Center>, rawCae: string): InfraRun {
    if f.created then
      r.(effects := f.effects, centerMap := f.index, newCenters := r.newCenters + 1,
         log := r.log + [NewCenter(rawCae)])
    else r
  }

  /** After the box lookup: a created box is counted, and every tenth one logged by the service. */
  function InfraWithBox(v: Variant, r: InfraRun, f: Found<Box>): InfraRun {
    if f.created then
      var n := r.newBoxes + 1;
      r.(effects := f.effects, boxMap := f.index, newBoxes := n,
         log := if v == Service && n % 10 == 0 then r.log + [BoxesAdded(n)] else r.log)
    else r
  }

  /** One row of the loop. */
  function InfraStep(v: Variant, orgId: string, newId: nat -> string, failAt: nat,
                     r: InfraRun, row: InfraRow): InfraRun
  {
    InfraCells(v, orgId, newId, failAt, r, Cell(row.cae), Cell(row.box))
  }

  /** One row of the loop, from its trimmed centre and box cells. */
  function InfraCells(v: Variant, orgId: string, newId: nat -> string, failAt: nat,
                      r: InfraRun, rawCae: string, rawBox: string): InfraRun
  {
    if rawCae == "" || rawBox == "" then r
    else
      match LookupCenter(r.effects, r.centerMap, Lower(rawCae), rawCae, orgId, newId, failAt)
      case None => r.(failed := true)
      case Some(fc) =>
        var r1 := InfraWithCenter(r, fc, rawCae);
        match LookupBox(r1.effects, r1.boxMap, fc.record.id + "_" + Lower(rawBox), rawBox,
                        fc.record.id, orgId, newId, failAt)
        case None => r1.(failed := true)
        case Some(fb) => InfraWithBox(v, r1, fb)
  }

  /** The loop over the rows, stopping at the first call that throws. */
  function InfraRows(v: Variant, orgId: string, newId: nat -> string, failAt: nat,
                     r: InfraRun, rows: seq<InfraRow>): InfraRun
    decreases |rows|
  {
    if rows == [] || r.failed then r
    else InfraRows(v, orgId, newId, failAt, InfraStep(v, orgId, newId, failAt, r, rows[0]), rows[1..])
  }

  /** The whole import: the panel's copy returns at once without an organisation; the
      closing line reports the counts, and a throw ends the panel's log with an error line
      (the service's throw reaches its caller). */
  function InfraImport(v: Variant, rows: seq<InfraRow>, orgId: string, centers: seq<Center>, boxes: seq<Box>,
                       newId: nat -> string, failAt: nat, log0: seq<LogLine>): InfraRun
  {
    if v == Panel && orgId == "" then InfraRun([], map[], map[], 0, 0, log0, false)
    else
      var start := InfraRun([], Index(centers, CenterKey), Index(boxes, BoxKey), 0, 0,
                            log0 + [Processing(|rows|)], false);
      InfraClose(v, InfraRows(v, orgId, newId, failAt, start, rows))
  }

  /** The line after the loop. */
  function InfraClose(v: Variant, r: InfraRun): InfraRun {
    if !r.failed then r.(log := r.log + [InfrastructureDone(r.newCenters, r.newBoxes)])
    else if v == Panel then r.(log := r.log + [ImportError])
    else r
  }

  /** The fold from row `i` on: one step, then the fold from row `i + 1`. */
  lemma InfraRowsAt(v: Variant, orgId: string, newId: nat -> string, failAt: nat, r: InfraRun, rows: seq<InfraRow>, i: nat)
    requires i < |rows| && !r.failed
    ensures InfraRows(v, orgId, newId, failAt, r, rows[i..]) == InfraRows(v, orgId, newId, failAt, InfraStep(v, orgId, newId, failAt, r, rows[i]), rows[i + 1..])
  {
    assert rows[i..][0] == rows[i] && rows[i..][1..] == rows[i + 1..];
  }

  /** The fold from row `i` on, by position. */
  function InfraRowsFrom(v: Variant, orgId: string, newId: nat -> string, failAt: nat,
                         r: InfraRun, rows: seq<InfraRow>, i: nat): InfraRun
    decreases |rows| - i
  {
    if i >= |rows| || r.failed then r
    else InfraRowsFrom(v, orgId, newId, failAt, InfraStep(v, orgId, newId, failAt, r, rows[i]), rows, i + 1)
  }

  /** Folding from position `i` is folding the rows from `i` on. */
  lemma {:induction false} InfraRowsFromIs(v: Variant, orgId: string, newId: nat -> string, failAt: nat,
                                           r: InfraRun, rows: seq<InfraRow>, i: nat)
    requires i <= |rows|
    ensures InfraRowsFrom(v, orgId, newId, failAt, r, rows, i) == InfraRows(v, orgId, newId, failAt, r, rows[i..])
    decreases |rows| - i
  {
    if i < |rows| && !r.failed {
      InfraRowsFromIs(v, orgId, newId, failAt, InfraStep(v, orgId, newId, failAt, r, rows[i]), rows, i + 1);
      InfraRowsAt(v, orgId, newId, failAt, r, rows, i);
    }
  }

  /** The body of the loop for one row: resolve or create the row's centre, then its box. */
  method ImportInfraRow(v: Variant, orgId: string, newId: nat -> string, failAt: nat,
                        row: InfraRow,
                        effects0: seq<Effect>, centerMap0: map<string, Center>, boxMap0: map<string, Box>,
                        newCenters0: nat, newBoxes0: nat, log0: seq<LogLine>)
    returns (effects: seq<Effect>, centerMap: map<string, Center>, boxMap: map<string, Box>,
             newCenters: nat, newBoxes: nat, log: seq<LogLine>, failed: bool)
    ensures InfraRun(effects, centerMap, boxMap, newCenters, newBoxes, log, failed)
         == InfraStep(v, orgId, newId, failAt,
                      InfraRun(effects0, centerMap0, boxMap0, newCenters0, newBoxes0, log0, false), row)
  {
    var rawCae, rawBox := Cell(row.cae), Cell(row.box);
    ghost var before := InfraRun(effects0, centerMap0, boxMap0, newCenters0, newBoxes0, log0, false);
    effects, centerMap, boxMap, newCenters, newBoxes, log, failed :=
      effects0, centerMap0, boxMap0, newCenters0, newBoxes0, log0, false;
    if rawCae != "" && rawBox != "" {
      var centerId := "";
      var centerKey := Lower(rawCae);
      ghost var fc := LookupCenter(effects, centerMap, centerKey, rawCae, orgId, newId, failAt);
      if centerKey in centerMap {
        centerId := centerMap[centerKey].id;
      } else if |effects| == failAt {
        failed := true;
      } else {
        var c := Center(newId(|effects|), rawCae, orgId);
        effects := effects + [AddCenter(c)];
        centerMap := centerMap[centerKey := c];
        centerId := c.id;
        newCenters := newCenters + 1;
        log := log + [NewCenter(rawCae)];
      }
      if !failed {
        ghost var r1 := InfraRun(effects, centerMap, boxMap, newCenters, newBoxes, log, failed);
        assert r1 == InfraWithCenter(before, fc.value, rawCae) && centerId == fc.value.record.id;
        var boxKey := centerId + "_" + Lower(rawBox);
        ghost var fb := LookupBox(effects, boxMap, boxKey, rawBox, centerId, orgId, newId, failAt);
        if boxKey !in boxMap {
          if |effects| == failAt {
            assert fb.None?;
            failed := true;
          } else {
            var b := Box(newId(|effects|), rawBox, centerId, orgId);
            effects := effects + [AddBox(b)];
            boxMap := boxMap[boxKey := b];
            newBoxes := newBoxes + 1;
            assert fb.value.created && r1.newBoxes + 1 == newBoxes;
            if v == Service && newBoxes % 10 == 0 {
              log := log + [BoxesAdded(newBoxes)];
            }
            assert InfraWithBox(v, r1, fb.value)
                == InfraRun(effects, centerMap, boxMap, newCenters, newBoxes, log, failed);
          }
        } else {
          assert InfraWithBox(v, r1, fb.value) == r1;
        }
      }
    }
  }

  /** The loop over the rows: one row at a time until the rows run out or a call throws. */
  method ImportInfraRows(v: Variant, orgId: string, newId: nat -> string, failAt: nat, rows: seq<InfraRow>,
                         effects0: seq<Effect>, centerMap0: map<string, Center>, boxMap0: map<string, Box>,
                         newCenters0: nat, newBoxes0: nat, log0: seq<LogLine>)
    returns (effects: seq<Effect>, centerMap: map<string, Center>, boxMap: map<string, Box>,
             newCenters: nat, newBoxes: nat, log: seq<LogLine>, failed: bool)
    ensures InfraRun(effects, centerMap, boxMap, newCenters, newBoxes, log, failed)
         == InfraRowsFrom(v, orgId, newId, failAt,
                          InfraRun(effects0, centerMap0, boxMap0, newCenters0, newBoxes0, log0, false), rows, 0)
  {
    var r := InfraRun(effects0, centerMap0, boxMap0, newCenters0, newBoxes0, log0, false);
    ghost var start := r;
    var i := 0;
    while i < |rows| && !r.failed
      invariant 0 <= i <= |rows|
      invariant InfraRowsFrom(v, orgId, newId, failAt, start, rows, 0)
             == InfraRowsFrom(v, orgId, newId, failAt, r, rows, i)
    {
      var e, cm, bm, nc, nb, l, f :=
        ImportInfraRow(v, orgId, newId, failAt, rows[i],
                       r.effects, r.centerMap, r.boxMap, r.newCenters, r.newBoxes, r.log);
      r := InfraRun(e, cm, bm, nc, nb, l, f);
      i := i + 1;
    }
    effects, centerMap, boxMap, newCenters, newBoxes, log, failed :=
      r.effects, r.centerMap, r.boxMap, r.newCenters, r.newBoxes, r.log, r.failed;
  }

  /** The infrastructure import as the source runs it: one pass over the rows, updating the
      two lookup maps and the counters in place. `centers` and `boxes` are what `getCenters`
      and `getBoxes` returned for the organisation. */
  method ProcessInfrastructure(v: Variant, rows: seq<InfraRow>, orgId: string,
                               centers: seq<Center>, boxes: seq<Box>,
                               newId: nat -> string, failAt: nat, log0: seq<LogLine>)
    returns (effects: seq<Effect>, log: seq<LogLine>, failed: bool)
    ensures var r := InfraImport(v, rows, orgId, centers, boxes, newId, failAt, log0);
      effects == r.effects && log == r.log && failed == r.failed
  {
    effects, log, failed := [], log0, false;
    if v == Panel && orgId == "" {
      return;
    }
    log := log + [Processing(|rows|)];
    var centerMap := Index(centers, CenterKey);
    var boxMap := Index(boxes, BoxKey);
    var newCenters: nat, newBoxes: nat := 0, 0;
    ghost var start := InfraRun(effects, centerMap, boxMap, newCenters, newBoxes, log, failed);
    effects, centerMap, boxMap, newCenters, newBoxes, log, failed :=
      ImportInfraRows(v, orgId, newId, failAt, rows, effects, centerMap, boxMap, newCenters, newBoxes, log);
    InfraRowsFromIs(v, orgId, newId, failAt, start, rows, 0);
    assert rows[0..] == rows;
    if failed {
      if v == Panel {
        log := log + [ImportError];
      }
    } else {
      log := log + [InfrastructureDone(newCenters, newBoxes)];
    }
  }

  // ---------------------------------------------------------------------------
  // What an infrastructure import promises.
  // ---------------------------------------------------------------------------

  /** The loop's invariant: only centre and box calls, at most `failAt` of them (exactly
      that many once one threw), the maps index the stored plus created records, and the
      counters count the created ones. */
  predicate InfraGood(centers: seq<Center>, boxes: seq<Box>, orgId: string, failAt: nat, r: InfraRun) {
    && OnlyCalls(r.effects, true, true, false, false)
    && |r.effects| <= failAt && (r.failed ==> |r.effects| == failAt)
    && CentersTracked(centers, orgId, r.effects, r.centerMap)
    && BoxesTracked(centers, boxes, orgId, r.effects, r.boxMap)
    && r.newCenters == |CentersCreated(r.effects)| && r.newBoxes == |BoxesCreated(r.effects)|
  }

  /** The centre half of a row keeps the invariant and resolves the centre. */
  lemma InfraCenterGood(centers: seq<Center>, boxes: seq<Box>, orgId: string, newId: nat -> string, failAt: nat,
                        r: InfraRun, rawCae: string, f: Found<Center>)
    requires InfraGood(centers, boxes, orgId, failAt, r) && !r.failed
    requires Lower(rawCae) == NameKey(rawCae)
    requires LookupCenter(r.effects, r.centerMap, Lower(rawCae), rawCae, orgId, newId, failAt) == Some(f)
    ensures var r1 := InfraWithCenter(r, f, rawCae);
      && InfraGood(centers, boxes, orgId, failAt, r1) && !r1.failed
      && NameKey(rawCae) in r1.centerMap && r1.centerMap[NameKey(rawCae)] == f.record
      && f.record.id in CenterIds(centers + CentersCreated(r1.effects))
      && Keeps(r.centerMap, r1.centerMap) && r1.boxMap == r.boxMap && Extends(r1.log, r.log)
  {
    LookupCenterTracked(centers, orgId, r.effects, r.centerMap, Lower(rawCae), rawCae, newId, failAt);
    if f.created {
      var c := f.record;
      BoxesTrackedAfterCenter(centers, boxes, orgId, r.effects, r.boxMap, c);
      OnlyCallsSnoc(r.effects, AddCenter(c), true, true, false, false);
      CenterCall(r.effects, c);
      ExtendsSnoc(r.log, r.log, NewCenter(rawCae));
    } else {
      ExtendsSelf(r.log);
    }
  }

  /** The box half of a row keeps the invariant and resolves the box. */
  lemma InfraBoxGood(v: Variant, centers: seq<Center>, boxes: seq<Box>, orgId: string, newId: nat -> string,
                     failAt: nat, r: InfraRun, rawBox: string, centerId: string, f: Found<Box>)
    requires InfraGood(centers, boxes, orgId, failAt, r) && !r.failed
    requires Lower(rawBox) == NameKey(rawBox)
    requires centerId in CenterIds(centers + CentersCreated(r.effects))
    requires LookupBox(r.effects, r.boxMap, centerId + "_" + Lower(rawBox), rawBox, centerId, orgId, newId, failAt)
             == Some(f)
    ensures var r2 := InfraWithBox(v, r, f);
      && InfraGood(centers, boxes, orgId, failAt, r2) && !r2.failed
      && MemberKey(centerId, rawBox) in r2.boxMap
      && r2.centerMap == r.centerMap && Keeps(r.boxMap, r2.boxMap) && Extends(r2.log, r.log)
  {
    LookupBoxTracked(centers, boxes, orgId, r.effects, r.centerMap, r.boxMap,
                     centerId + "_" + Lower(rawBox), rawBox, centerId, newId, failAt);
    if f.created {
      InfraBoxCreated(v, centers, boxes, orgId, failAt, r, f);
    } else {
      ExtendsSelf(r.log);
    }
  }

  /** The created-box case of the lemma above. */
  lemma InfraBoxCreated(v: Variant, centers: seq<Center>, boxes: seq<Box>, orgId: string, failAt: nat,
                        r: InfraRun, f: Found<Box>)
    requires InfraGood(centers, boxes, orgId, failAt, r) && !r.failed
    requires f.created && f.effects == r.effects + [AddBox(f.record)] && |r.effects| != failAt
    requires CentersTracked(centers, orgId, f.effects, r.centerMap)
    requires BoxesTracked(centers, boxes, orgId, f.effects, f.index)
    ensures var r2 := InfraWithBox(v, r, f);
      InfraGood(centers, boxes, orgId, failAt, r2) && Extends(r2.log, r.log)
  {
    var r2 := InfraWithBox(v, r, f);
    assert r2 == r.(effects := f.effects, boxMap := f.index, newBoxes := r.newBoxes + 1, log := r2.log);
    OnlyCallsSnoc(r.effects, AddBox(f.record), true, true, false, false);
    BoxCall(r.effects, f.record);
    if r2.log == r.log {
      ExtendsSelf(r.log);
    } else {
      ExtendsSnoc(r.log, r.log, BoxesAdded(r.newBoxes + 1));
    }
  }

  /** One row keeps the invariant, only adds to the maps and the log, and resolves the row. */
  lemma InfraStepGood(v: Variant, centers: seq<Center>, boxes: seq<Box>, orgId: string, newId: nat -> string,
                      failAt: nat, r: InfraRun, row: InfraRow)
    requires InfraGood(centers, boxes, orgId, failAt, r) && !r.failed
    ensures var s := InfraStep(v, orgId, newId, failAt, r, row);
      && InfraGood(centers, boxes, orgId, failAt, s)
      && Keeps(r.centerMap, s.centerMap) && Keeps(r.boxMap, s.boxMap) && Extends(s.log, r.log)
      && (!s.failed && InfraAccepted(row) ==> InfraResolved(row, s.centerMap, s.boxMap))
  {
    var rawCae, rawBox := Cell(row.cae), Cell(row.box);
    CellKey(row.cae);
    CellKey(row.box);
    ExtendsSelf(r.log);
    if rawCae != "" && rawBox != "" {
      var oc := LookupCenter(r.effects, r.centerMap, Lower(rawCae), rawCae, orgId, newId, failAt);
      if oc.None? {
        LookupCenterTracked(centers, orgId, r.effects, r.centerMap, Lower(rawCae), rawCae, newId, failAt);
      } else {
        var fc := oc.value;
        InfraCenterGood(centers, boxes, orgId, newId, failAt, r, rawCae, fc);
        var r1 := InfraWithCenter(r, fc, rawCae);
        var ob := LookupBox(r1.effects, r1.boxMap, fc.record.id + "_" + Lower(rawBox), rawBox,
                            fc.record.id, orgId, newId, failAt);
        if ob.None? {
          LookupBoxTracked(centers, boxes, orgId, r1.effects, r1.centerMap, r1.boxMap,
                           fc.record.id + "_" + Lower(rawBox), rawBox, fc.record.id, newId, failAt);
        } else {
          InfraBoxGood(v, centers, boxes, orgId, newId, failAt, r1, rawBox, fc.record.id, ob.value);
          var r2 := InfraWithBox(v, r1, ob.value);
          ExtendsTrans(r2.log, r1.log, r.log);
          KeepsTrans(r.boxMap, r1.boxMap, r2.boxMap);
        }
      }
    }
  }

  /** The whole loop keeps the invariant and, unless a call threw, resolves every accepted row. */
  lemma {:induction false} InfraRowsGood(v: Variant, centers: seq<Center>, boxes: seq<Box>, orgId: string,
                                         newId: nat -> string, failAt: nat, r: InfraRun, rows: seq<InfraRow>)
    requires InfraGood(centers, boxes, orgId, failAt, r)
    ensures var s := InfraRows(v, orgId, newId, failAt, r, rows);
      && InfraGood(centers, boxes, orgId, failAt, s)
      && Keeps(r.centerMap, s.centerMap) && Keeps(r.boxMap, s.boxMap) && Extends(s.log, r.log)
      && (!s.failed ==> InfraRowsResolved(rows, s.centerMap, s.boxMap))
    decreases |rows|
  {
    if rows == [] || r.failed {
      ExtendsSelf(r.log);
    } else {
      var t := InfraStep(v, orgId, newId, failAt, r, rows[0]);
      InfraStepGood(v, centers, boxes, orgId, newId, failAt, r, rows[0]);
      InfraRowsGood(v, centers, boxes, orgId, newId, failAt, t, rows[1..]);
      var s := InfraRows(v, orgId, newId, failAt, t, rows[1..]);
      KeepsTrans(r.centerMap, t.centerMap, s.centerMap);
      KeepsTrans(r.boxMap, t.boxMap, s.boxMap);
      ExtendsTrans(s.log, t.log, r.log);
      if !s.failed {
        forall j | 0 <= j < |rows| && InfraAccepted(rows[j])
          ensures InfraResolved(rows[j], s.centerMap, s.boxMap)
        {
          if j == 0 {
            InfraResolvedKept(rows[0], t.centerMap, t.boxMap, s.centerMap, s.boxMap);
          } else {
            assert rows[1..][j - 1] == rows[j];
          }
        }
      }
    }
  }

  /** The calls an infrastructure import makes: only centres and boxes are created, each
      under a key absent from the stored records and from the run's earlier creations (so
      names differing only in letter case or outer white space share one record), all of
      them in the organisation and every box under a stored or created centre; at most
      `failAt` calls are made, and exactly that many when one throws. */
  lemma InfraImportCreatesOnce(v: Variant, rows: seq<InfraRow>, orgId: string, centers: seq<Center>,
                               boxes: seq<Box>, newId: nat -> string, failAt: nat, log0: seq<LogLine>)
    ensures var r := InfraImport(v, rows, orgId, centers, boxes, newId, failAt, log0);
      && OnlyCalls(r.effects, true, true, false, false)
      && |r.effects| <= failAt && (r.failed ==> |r.effects| == failAt)
      && Unique(CentersCreated(r.effects), centers, CenterKey)
      && Unique(BoxesCreated(r.effects), boxes, BoxKey)
      && CentersOwned(CentersCreated(r.effects), orgId)
      && BoxesPlaced(BoxesCreated(r.effects), orgId, centers + CentersCreated(r.effects))
  {
    InfraImportRun(v, rows, orgId, centers, boxes, newId, failAt, log0);
    var r := InfraImport(v, rows, orgId, centers, boxes, newId, failAt, log0);
    FreshUnique(CentersCreated(r.effects), centers, CenterKey);
    FreshUnique(BoxesCreated(r.effects), boxes, BoxKey);
  }

  /** Unless a call threw, every row with a centre and a box is resolved afterwards: its
      centre's key is known among the stored and created centres, and its box's key under
      that centre's id among the stored and created boxes. */
  lemma InfraImportResolvesRows(v: Variant, rows: seq<InfraRow>, orgId: string, centers: seq<Center>,
                                boxes: seq<Box>, newId: nat -> string, failAt: nat, log0: seq<LogLine>)
    ensures var r := InfraImport(v, rows, orgId, centers, boxes, newId, failAt, log0);
      !(v == Panel && orgId == "") && !r.failed ==>
        InfraRowsResolved(rows, Index(centers + CentersCreated(r.effects), CenterKey),
                          Index(boxes + BoxesCreated(r.effects), BoxKey))
  {
    InfraImportRun(v, rows, orgId, centers, boxes, newId, failAt, log0);
  }

  /** The log: the panel's copy does nothing without an organisation; otherwise the log
      continues with the row count, ends with the two counts on success, and with an error
      line when the panel's run threw. */
  lemma InfraImportLog(v: Variant, rows: seq<InfraRow>, orgId: string, centers: seq<Center>,
                       boxes: seq<Box>, newId: nat -> string, failAt: nat, log0: seq<LogLine>)
    ensures var r := InfraImport(v, rows, orgId, centers, boxes, newId, failAt, log0);
      && (v == Panel && orgId == "" ==> r.effects == [] && r.log == log0 && !r.failed)
      && (!(v == Panel && orgId == "") ==> Extends(r.log, log0 + [Processing(|rows|)]))
      && (!(v == Panel && orgId == "") && !r.failed ==>
            r.log[|r.log| - 1] == InfrastructureDone(|CentersCreated(r.effects)|, |BoxesCreated(r.effects)|))
      && (v == Panel && r.failed ==> r.log[|r.log| - 1] == ImportError)
  {
    InfraImportRun(v, rows, orgId, centers, boxes, newId, failAt, log0);
  }

  /** The common proof of the three lemmas above. */
  lemma InfraImportRun(v: Variant, rows: seq<InfraRow>, orgId: string, centers: seq<Center>,
                       boxes: seq<Box>, newId: nat -> string, failAt: nat, log0: seq<LogLine>)
    ensures var r := InfraImport(v, rows, orgId, centers, boxes, newId, failAt, log0);
      && (v == Panel && orgId == "" ==> r.effects == [] && r.log == log0 && !r.failed)
      && (!(v == Panel && orgId == "") ==> InfraGood(centers, boxes, orgId, failAt, r))
      && (!(v == Panel && orgId == "") ==> Extends(r.log, log0 + [Processing(|rows|)]))
      && (!(v == Panel && orgId == "") && !r.failed ==>
            InfraRowsResolved(rows, r.centerMap, r.boxMap)
            && r.log[|r.log| - 1] == InfrastructureDone(r.newCenters, r.newBoxes))
      && (v == Panel && r.failed ==> r.log[|r.log| - 1] == ImportError)
  {
    if !(v == Panel && orgId == "") {
      var prefix := log0 + [Processing(|rows|)];
      var start := InfraRun([], Index(centers, CenterKey), Index(boxes, BoxKey), 0, 0, prefix, false);
      InfraStartGood(centers, boxes, orgId, failAt, prefix);
      InfraRowsGood(v, centers, boxes, orgId, newId, failAt, start, rows);
      var r := InfraRows(v, orgId, newId, failAt, start, rows);
      InfraCloseGood(v, centers, boxes, orgId, failAt, r, prefix);
      assert InfraImport(v, rows, orgId, centers, boxes, newId, failAt, log0) == InfraClose(v, r);
    }
  }

  /** The closing line keeps the invariant and the log's prefix. */
  lemma InfraCloseGood(v: Variant, centers: seq<Center>, boxes: seq<Box>, orgId: string, failAt: nat,
                       r: InfraRun, prefix: seq<LogLine>)
    requires InfraGood(centers, boxes, orgId, failAt, r) && Extends(r.log, prefix)
    ensures var s := InfraClose(v, r);
      && InfraGood(centers, boxes, orgId, failAt, s) && Extends(s.log, prefix)
      && s.failed == r.failed && s.centerMap == r.centerMap && s.boxMap == r.boxMap
      && (!s.failed ==> s.log[|s.log| - 1] == InfrastructureDone(s.newCenters, s.newBoxes))
      && (v == Panel && s.failed ==> s.log[|s.log| - 1] == ImportError)
  {
    if !r.failed {
      ExtendsSnoc(r.log, prefix, InfrastructureDone(r.newCenters, r.newBoxes));
    } else if v == Panel {
      ExtendsSnoc(r.log, prefix, ImportError);
    }
  }

  /** The run before the first row satisfies the loop's invariant. */
  lemma InfraStartGood(centers: seq<Center>, boxes: seq<Box>, orgId: string, failAt: nat, log: seq<LogLine>)
    ensures InfraGood(centers, boxes, orgId, failAt,
                      InfraRun([], Index(centers, CenterKey), Index(boxes, BoxKey), 0, 0, log, false))
  {
    assert centers + [] == centers && boxes + [] == boxes;
  }

  /** A row that is skipped or already resolved changes nothing. */
  lemma InfraStepIdle(v: Variant, orgId: string, newId: nat -> string, failAt: nat, r: InfraRow, run: InfraRun)
    requires !InfraAccepted(r) || InfraResolved(r, run.centerMap, run.boxMap)
    ensures InfraStep(v, orgId, newId, failAt, run, r) == run
  {
    CellKey(r.cae);
    CellKey(r.box);
  }

  /** Rows that are all skipped or resolved change nothing. */
  lemma {:induction false} InfraRowsIdle(v: Variant, orgId: string, newId: nat -> string, failAt: nat,
                                         run: InfraRun, rows: seq<InfraRow>)
    requires InfraRowsResolved(rows, run.centerMap, run.boxMap)
    ensures InfraRows(v, orgId, newId, failAt, run, rows) == run
    decreases |rows|
  {
    if rows != [] && !run.failed {
      InfraStepIdle(v, orgId, newId, failAt, rows[0], run);
      forall j | 0 <= j < |rows[1..]| && InfraAccepted(rows[1..][j])
        ensures InfraResolved(rows[1..][j], run.centerMap, run.boxMap)
      {
        assert rows[1..][j] == rows[j + 1];
      }
      InfraRowsIdle(v, orgId, newId, failAt, run, rows[1..]);
    }
  }

  /** Importing the same rows again, against the stored records plus those the first run
      created, creates nothing: the second run makes no call and reports zero new centres
      and boxes, whatever its ids and failures would have been. */
  lemma InfraImportIdempotent(v: Variant, rows: seq<InfraRow>, orgId: string, centers: seq<Center>,
                              boxes: seq<Box>, newId: nat -> string, failAt: nat, log0: seq<LogLine>,
                              newId2: nat -> string, failAt2: nat, log1: seq<LogLine>)
    requires !(v == Panel && orgId == "")
    ensures var r := InfraImport(v, rows, orgId, centers, boxes, newId, failAt, log0);
      !r.failed ==>
        var r2 := InfraImport(v, rows, orgId, centers + CentersCreated(r.effects), boxes + BoxesCreated(r.effects),
                              newId2, failAt2, log1);
        r2.effects == [] && !r2.failed && r2.log == log1 + [Processing(|rows|), InfrastructureDone(0, 0)]
  {
    InfraImportRun(v, rows, orgId, centers, boxes, newId, failAt, log0);
    var r := InfraImport(v, rows, orgId, centers, boxes, newId, failAt, log0);
    if !r.failed {
      assert CentersTracked(centers, orgId, r.effects, r.centerMap);
      assert BoxesTracked(centers, boxes, orgId, r.effects, r.boxMap);
      assert InfraRowsResolved(rows, r.centerMap, r.boxMap);
      var start2 := InfraRun([], Index(centers + CentersCreated(r.effects), CenterKey),
                             Index(boxes + BoxesCreated(r.effects), BoxKey), 0, 0, log1 + [Processing(|rows|)], false);
      InfraRowsIdle(v, orgId, newId2, failAt2, start2, rows);
      assert InfraImport(v, rows, orgId, centers + CentersCreated(r.effects), boxes + BoxesCreated(r.effects), newId2, failAt2, log1) == InfraClose(v, start2);
    }
  }
}
