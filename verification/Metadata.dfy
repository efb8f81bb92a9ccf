/**
 The tables of the metadata database and, for each transaction, the function from the tables
 before to the tables after.  A failing transaction rolls back, so it only yields an error.
 Times are milliseconds; an identifier is its number.
 */
module Metadata {
  import opened Basics
  import opened ObjectGraph

  type NamespaceId = nat
  type RevisionId = nat
  type OperationId = nat
  type Time = int

  const TRASH_RETENTION: Time := 30 * 24 * 3_600_000
  const GC_GRACE: Time := 3_600_000
  const MAX_TRUNCATION: nat := 100_000
  const REVISION_ROOT_V3_SCHEMA: nat := 3

  datatype MetadataError =
    | NotFound
    | HeadMismatch(currentHead: Option<RevisionId>)
    | EpochMismatch(currentEpoch: nat)
    | RevisionConflict
    | Sqlite

  // ----- history tables -----

  datatype Namespace = Namespace(head: Option<RevisionId>, epoch: nat)

  datatype RevisionState = Active | Trashed | Purged

  /** `details` stands for the immutable columns that only take part in the comparison of two
      revisions; `rowid` is the number SQLite gives a row when it is inserted. */
  datatype Revision = Revision(
    namespace: NamespaceId, parent: Option<RevisionId>, details: nat,
    state: RevisionState, trashOperation: Option<OperationId>, rowid: nat)

  datatype Root = Root(sha256: nat, schema: nat)

  datatype TrashState = InTrash | Restored | Emptied

  datatype TrashOperation = TrashOperation(
    namespace: NamespaceId, oldHead: Option<RevisionId>, newHead: Option<RevisionId>,
    epochBefore: nat, epochAfter: nat, expiresAt: Time, revisionCount: nat, state: TrashState)

  datatype History = History(
    namespaces: map<NamespaceId, Namespace>,
    revisions: map<RevisionId, Revision>,
    roots: map<RevisionId, Root>,
    operations: map<OperationId, TrashOperation>)

  type Revisions = map<RevisionId, Revision>

  /** `from`, its parent, its grandparent, and so on, as long as each row is older than the last. */
  function Ancestry(revs: Revisions, from: Option<RevisionId>): set<RevisionId>
    decreases if from.Some? && from.value in revs then revs[from.value].rowid + 1 else 0
  {
    if from.None? || from.value !in revs then {}
    else
      var row := revs[from.value];
      if row.parent.Some? && row.parent.value in revs && row.rowid <= revs[row.parent.value].rowid then
        {from.value}
      else
        {from.value} + Ancestry(revs, row.parent)
  }

  predicate OnChain(revs: Revisions, a: Option<RevisionId>, from: Option<RevisionId>) {
    a.None? || a.value in Ancestry(revs, from)
  }

  function TaggedWith(revs: Revisions, op: OperationId): set<RevisionId> {
    set r | r in revs && revs[r].trashOperation == Some(op)
  }

  function InState(revs: Revisions, ns: NamespaceId, state: RevisionState): set<RevisionId> {
    set r | r in revs && revs[r].namespace == ns && revs[r].state == state
  }

  // ----- commit -----

  datatype NewRevision = NewRevision(
    id: RevisionId, namespace: NamespaceId, parent: Option<RevisionId>, details: nat, schema: nat)

  datatype CommitOutcome = Created | AlreadyCommitted

  /** `read_revision`: a revision without a root row reads back with the v3 schema number. */
  function ReadRevision(h: History, id: RevisionId): Option<NewRevision> {
    if id !in h.revisions then None
    else
      var row := h.revisions[id];
      Some(NewRevision(id, row.namespace, row.parent, row.details,
                       if id in h.roots then h.roots[id].schema else REVISION_ROOT_V3_SCHEMA))
  }

  /** The tables once `revision` is the new head of its namespace. */
  function Committed(h: History, revision: NewRevision): History
    requires revision.namespace in h.namespaces
  {
    var row := Revision(revision.namespace, revision.parent, revision.details, Active, None, |h.revisions|);
    h.(revisions := h.revisions[revision.id := row],
       namespaces := h.namespaces[revision.namespace :=
         h.namespaces[revision.namespace].(head := Some(revision.id))],
       roots := h.roots[revision.id := Root(revision.id, revision.schema)])
  }

  function CommitRevisionRoot(
    h: History, expectedHead: Option<RevisionId>, expectedEpoch: nat, revision: NewRevision)
    : Result<(History, CommitOutcome), MetadataError>
  {
    if revision.namespace !in h.namespaces then Err(NotFound)
    else
      var current := h.namespaces[revision.namespace];
      var existing := ReadRevision(h, revision.id);
      if current.epoch != expectedEpoch then Err(EpochMismatch(current.epoch))
      else if existing.Some? then
        if existing.value != revision then Err(RevisionConflict)
        else if current.head == Some(revision.id) then Ok((h, AlreadyCommitted))
        else Err(RevisionConflict)
      else if current.head != expectedHead then Err(HeadMismatch(current.head))
      else if revision.parent != expectedHead then Err(RevisionConflict)
      else if revision.parent.Some? &&
              (revision.parent.value !in h.revisions
               || h.revisions[revision.parent.value].namespace != revision.namespace) then
        Err(RevisionConflict)
      else if revision.id in h.roots then Err(Sqlite)
      else Ok((Committed(h, revision), Created))
  }

  // ----- truncate and restore -----

  function TrashRevisions(revs: Revisions, removed: set<RevisionId>, op: OperationId): (r: Revisions)
    ensures r.Keys == revs.Keys
  {
    map r | r in revs ::
      if r in removed && revs[r].state == Active
      then revs[r].(state := Trashed, trashOperation := Some(op)) else revs[r]
  }

  /** The tables once the chain above `newHead` is in the trash. */
  function Truncated(h: History, ns: NamespaceId, newHead: Option<RevisionId>, op: OperationId, now: Time): History
    requires ns in h.namespaces
  {
    var current := h.namespaces[ns];
    var removed := Ancestry(h.revisions, current.head) - Ancestry(h.revisions, newHead);
    var operation := TrashOperation(ns, current.head, newHead, current.epoch, current.epoch + 1,
                                    now + TRASH_RETENTION, |removed|, InTrash);
    h.(revisions := TrashRevisions(h.revisions, removed, op),
       operations := h.operations[op := operation],
       namespaces := h.namespaces[ns := Namespace(newHead, current.epoch + 1)])
  }

  function TruncateHistory(
    h: History, ns: NamespaceId, expectedHead: Option<RevisionId>, expectedEpoch: nat,
    newHead: Option<RevisionId>, op: OperationId, now: Time)
    : Result<History, MetadataError>
  {
    if ns !in h.namespaces then Err(NotFound)
    else
      var current := h.namespaces[ns];
      if current.head != expectedHead then Err(HeadMismatch(current.head))
      else if current.epoch != expectedEpoch then Err(EpochMismatch(current.epoch))
      else if current.head == newHead then Err(RevisionConflict)
      else if !OnChain(h.revisions, newHead, current.head) then Err(RevisionConflict)
      else
        var removed := Ancestry(h.revisions, current.head) - Ancestry(h.revisions, newHead);
        if |removed| > MAX_TRUNCATION then Err(RevisionConflict)
        else if current.epoch >= U64_MAX then Err(RevisionConflict)
        else if op in h.operations then Err(Sqlite)
        else Ok(Truncated(h, ns, newHead, op, now))
  }

  function ReviveRevisions(revs: Revisions, op: OperationId): (r: Revisions)
    ensures r.Keys == revs.Keys
  {
    map r | r in revs ::
      if revs[r].trashOperation == Some(op)
      then revs[r].(state := Active, trashOperation := None) else revs[r]
  }

  /** The tables once the trash of `op` is the head chain again. */
  function Reinstated(h: History, ns: NamespaceId, op: OperationId): History
    requires ns in h.namespaces && op in h.operations
  {
    h.(revisions := ReviveRevisions(h.revisions, op),
       namespaces := h.namespaces[ns := Namespace(h.operations[op].oldHead, h.namespaces[ns].epoch + 1)],
       operations := h.operations[op := h.operations[op].(state := Restored)])
  }

  function RestoreHistoryTrash(
    h: History, ns: NamespaceId, op: OperationId, expectedHead: Option<RevisionId>, expectedEpoch: nat, now: Time)
    : Result<History, MetadataError>
  {
    if ns !in h.namespaces then Err(NotFound)
    else
      var current := h.namespaces[ns];
      if current.head != expectedHead then Err(HeadMismatch(current.head))
      else if current.epoch != expectedEpoch then Err(EpochMismatch(current.epoch))
      else if op !in h.operations || h.operations[op].namespace != ns then Err(NotFound)
      else
        var operation := h.operations[op];
        if operation.state != InTrash || operation.newHead != current.head || operation.expiresAt <= now then
          Err(RevisionConflict)
        else if expectedEpoch >= U64_MAX then Err(RevisionConflict)
        else Ok(Reinstated(h, ns, op))
  }

  // ----- object tables -----

  datatype Stored = Stored(byteLength: nat, createdAt: Time)

  /** A queue row is named by its operation and its object: one operation queues an object once. */
  datatype EntryId = EntryId(operation: OperationId, target: Obj)

  datatype EntryState = Pending | Quarantined | Cancelled | Deleted

  datatype GcEntry = GcEntry(byteLength: nat, state: EntryState, deleteAfterQuarantine: bool)

  datatype Objects = Objects(
    storage: map<Obj, Stored>, edges: set<Edge>, queue: map<EntryId, GcEntry>)

  function RootObject(sha256: nat): Obj {
    Obj(RevisionRoot, sha256)
  }

  predicate Protected(h: History, r: RevisionId, now: Time) {
    && r in h.revisions
    && r in h.roots
    && (|| h.revisions[r].state == Active
        || (&& h.revisions[r].state == Trashed
            && h.revisions[r].trashOperation.Some?
            && h.revisions[r].trashOperation.value in h.operations
            && h.operations[h.revisions[r].trashOperation.value].state == InTrash
            && h.operations[h.revisions[r].trashOperation.value].expiresAt > now))
  }

  function ProtectedRoots(h: History, now: Time): set<Obj> {
    set r | r in h.revisions && Protected(h, r, now) :: RootObject(h.roots[r].sha256)
  }

  /** `reachable_objects`. */
  function Reachable(h: History, objects: Objects, now: Time): set<Obj> {
    Reach(objects.edges, ProtectedRoots(h, now))
  }

  function RecordStorageObject(objects: Objects, o: Obj, byteLength: nat, now: Time): Objects {
    if o in objects.storage then objects
    else objects.(storage := objects.storage[o := Stored(byteLength, now)])
  }

  predicate Distinct<T(==)>(s: seq<T>) {
    forall i, j :: 0 <= i < j < |s| ==> s[i] != s[j]
  }

  /** The rows of `owner` are deleted and reinserted; a repeated target breaks the primary key. */
  function ReplaceObjectEdges(objects: Objects, owner: Obj, targets: seq<Obj>): Result<Objects, MetadataError> {
    if !Distinct(targets) then Err(Sqlite)
    else
      var kept := set e | e in objects.edges && e.owner != owner;
      Ok(objects.(edges := kept + set t | t in targets :: Edge(owner, t)))
  }

  // ----- garbage collection plan and queue -----

  /** `build_gc_plan`: stored, old enough and unreachable objects with their lengths. */
  function GcPlan(h: History, objects: Objects, now: Time): map<Obj, nat> {
    var reachable := Reachable(h, objects, now);
    map o | o in objects.storage && objects.storage[o].createdAt <= now - GC_GRACE && o !in reachable
      :: objects.storage[o].byteLength
  }

  function EntriesFor(operation: OperationId, candidates: map<Obj, nat>, deleteAfter: bool): map<EntryId, GcEntry> {
    map id | id in (set o | o in candidates :: EntryId(operation, o))
      :: GcEntry(candidates[id.target], Pending, deleteAfter)
  }

  /** `enqueue_gc`: the fingerprint is a digest of the candidates, so it stands for them. */
  function EnqueueGc(h: History, objects: Objects, fingerprint: map<Obj, nat>, operation: OperationId, now: Time)
    : Result<(Objects, map<EntryId, GcEntry>), MetadataError>
  {
    var plan := GcPlan(h, objects, now);
    if plan != fingerprint then Err(RevisionConflict)
    else
      var entries := EntriesFor(operation, plan, false);
      if entries.Keys * objects.queue.Keys != {} then Err(Sqlite)
      else Ok((objects.(queue := objects.queue + entries), entries))
  }

  /** `enqueue_gc_objects_for_purge_in_connection`. */
  function EnqueueForPurge(h: History, objects: Objects, candidates: map<Obj, nat>, operation: OperationId, now: Time)
    : Result<(Objects, map<EntryId, GcEntry>), MetadataError>
  {
    var reachable := Reachable(h, objects, now);
    var doomed := map o | o in candidates && o !in reachable && o in objects.storage :: candidates[o];
    if exists o :: o in doomed && objects.storage[o].byteLength != doomed[o] then Err(RevisionConflict)
    else
      var entries := EntriesFor(operation, doomed, true);
      if entries.Keys * objects.queue.Keys != {} then Err(Sqlite)
      else Ok((objects.(queue := objects.queue + entries), entries))
  }

  function CompleteGcEntry(objects: Objects, id: EntryId): Objects {
    Objects(objects.storage - {id.target},
            WithoutObject(objects.edges, id.target),
            Advance(objects.queue, id, Pending, Quarantined))
  }

  function CancelGcEntry(objects: Objects, id: EntryId): Objects {
    objects.(queue := Advance(objects.queue, id, Pending, Cancelled))
  }

  function MarkGcEntryPurged(objects: Objects, id: EntryId): Objects {
    if id in objects.queue && objects.queue[id].deleteAfterQuarantine then
      objects.(queue := Advance(objects.queue, id, Quarantined, Deleted))
    else objects
  }

  /** UPDATE gc_queue SET state = `to` WHERE id = `id` AND state = `from`. */
  function Advance(queue: map<EntryId, GcEntry>, id: EntryId, from: EntryState, to: EntryState): map<EntryId, GcEntry> {
    if id in queue && queue[id].state == from then queue[id := queue[id].(state := to)] else queue
  }

  // ----- permanent deletion of trash -----

  datatype PurgePlan = PurgePlan(
    operations: set<OperationId>, revisionCount: nat, candidates: map<Obj, nat>)

  function ActiveOperations(h: History, ns: NamespaceId): set<OperationId> {
    set op | op in h.operations && h.operations[op].namespace == ns && h.operations[op].state == InTrash
  }

  function TrashedBy(h: History, ns: NamespaceId, selected: set<OperationId>): set<RevisionId> {
    set r | && r in h.revisions && h.revisions[r].namespace == ns && h.revisions[r].state == Trashed
            && h.revisions[r].trashOperation.Some? && h.revisions[r].trashOperation.value in selected
  }

  predicate HasDependentTrash(h: History, ns: NamespaceId, selected: set<OperationId>) {
    exists op :: && op in ActiveOperations(h, ns) && op !in selected
                 && h.operations[op].newHead.Some? && h.operations[op].newHead.value in TrashedBy(h, ns, selected)
  }

  /** `build_history_trash_purge_plan` once the selection is known. */
  function PlanSelected(h: History, objects: Objects, ns: NamespaceId, selected: set<OperationId>)
    : Result<PurgePlan, MetadataError>
  {
    if selected == {} then Err(RevisionConflict)
    else if HasDependentTrash(h, ns, selected) then Err(RevisionConflict)
    else
      var revisions := TrashedBy(h, ns, selected);
      var roots := set r | r in revisions && r in h.roots :: RootObject(h.roots[r].sha256);
      var graph := Reach(objects.edges, roots);
      Ok(PurgePlan(selected, |revisions|,
                   map o | o in graph && o in objects.storage :: objects.storage[o].byteLength))
  }

  /** `build_history_trash_purge_plan`. */
  function BuildPurgePlan(h: History, objects: Objects, ns: NamespaceId, requested: seq<OperationId>, purgeAll: bool)
    : Result<PurgePlan, MetadataError>
  {
    if purgeAll == (requested != []) then Err(RevisionConflict)
    else if ns !in h.namespaces then Err(NotFound)
    else if !Distinct(requested) then Err(RevisionConflict)
    else
      var active := ActiveOperations(h, ns);
      var wanted := Elements(requested);
      if !purgeAll && !(wanted <= active) then Err(RevisionConflict)
      else PlanSelected(h, objects, ns, if purgeAll then active else wanted)
  }

  function PurgeRevisions(h: History, ns: NamespaceId, selected: set<OperationId>): History {
    var doomed := TrashedBy(h, ns, selected);
    h.(roots := h.roots - doomed,
       revisions := map r | r in h.revisions ::
         if r in doomed then h.revisions[r].(state := Purged) else h.revisions[r],
       operations := map op | op in h.operations ::
         if op in selected && op in ActiveOperations(h, ns) then h.operations[op].(state := Emptied)
         else h.operations[op])
  }

  /** `commit_history_trash_purge`: plan again, compare, purge, and queue what became unreachable. */
  function CommitPurge(
    h: History, objects: Objects, ns: NamespaceId, expected: PurgePlan,
    operation: OperationId, now: Time)
    : Result<(History, Objects, map<EntryId, GcEntry>), MetadataError>
  {
    var current := PlanSelected(h, objects, ns, expected.operations);
    if ns !in h.namespaces then Err(NotFound)
    else if !(expected.operations <= ActiveOperations(h, ns)) then Err(RevisionConflict)
    else if current.Err? then Err(current.error)
    else if current.value != expected then Err(RevisionConflict)
    else
      var purged := PurgeRevisions(h, ns, current.value.operations);
      var queued := EnqueueForPurge(purged, objects, current.value.candidates, operation, now);
      if queued.Err? then Err(queued.error)
      else Ok((purged, queued.value.0, queued.value.1))
  }
}
