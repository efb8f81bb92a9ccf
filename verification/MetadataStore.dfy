/** The metadata store: each transaction updates the tables in place and meets its specification. */
module MetadataStores {
  import opened Basics
  import opened ObjectGraph
  import opened Metadata
  import opened HistoryInvariant

  ghost function TotalBytes(candidates: map<Obj, nat>): nat {
    if candidates == map[] then 0
    else
      var o :| o in candidates;
      candidates[o] + TotalBytes(candidates - {o})
  }

  lemma {:induction false} TotalBytesRemove(candidates: map<Obj, nat>, o: Obj)
    requires o in candidates
    ensures TotalBytes(candidates) == candidates[o] + TotalBytes(candidates - {o})
    decreases |candidates|
  {
    var p :| p in candidates && TotalBytes(candidates) == candidates[p] + TotalBytes(candidates - {p});
    if p != o {
      TotalBytesRemove(candidates - {p}, o);
      TotalBytesRemove(candidates - {o}, p);
      assert candidates - {p} - {o} == candidates - {o} - {p};
    }
  }

  lemma TotalBytesInsert(candidates: map<Obj, nat>, o: Obj, n: nat)
    requires o !in candidates
    ensures TotalBytes(candidates[o := n]) == TotalBytes(candidates) + n
  {
    TotalBytesRemove(candidates[o := n], o);
    assert candidates[o := n] - {o} == candidates;
  }

  class MetadataStore {
    var namespaces: map<NamespaceId, Namespace>
    var revisions: map<RevisionId, Revision>
    var roots: map<RevisionId, Root>
    var operations: map<OperationId, TrashOperation>
    var storage: map<Obj, Stored>
    var edges: set<Edge>
    var queue: map<EntryId, GcEntry>

    ghost function HistoryTables(): History
      reads this
    {
      History(namespaces, revisions, roots, operations)
    }

    ghost function ObjectTables(): Objects
      reads this
    {
      Objects(storage, edges, queue)
    }

    constructor ()
      ensures HistoryTables() == History(map[], map[], map[], map[])
      ensures ObjectTables() == Objects(map[], {}, map[])
    {
      namespaces, revisions, roots, operations := map[], map[], map[], map[];
      storage, edges, queue := map[], {}, map[];
    }

    method CommitRevisionRoot(expectedHead: Option<RevisionId>, expectedEpoch: nat, revision: NewRevision)
      returns (reply: Result<CommitOutcome, MetadataError>)
      modifies this
      ensures ObjectTables() == old(ObjectTables())
      ensures match Metadata.CommitRevisionRoot(old(HistoryTables()), expectedHead, expectedEpoch, revision)
              case Ok((tables, outcome)) => reply == Ok(outcome) && HistoryTables() == tables
              case Err(error) => reply == Err(error) && HistoryTables() == old(HistoryTables())
    {
      if revision.namespace !in namespaces {
        return Err(NotFound);
      }
      var current := namespaces[revision.namespace];
      if current.epoch != expectedEpoch {
        return Err(EpochMismatch(current.epoch));
      }
      if revision.id in revisions {
        var row := revisions[revision.id];
        var schema := if revision.id in roots then roots[revision.id].schema else REVISION_ROOT_V3_SCHEMA;
        if NewRevision(revision.id, row.namespace, row.parent, row.details, schema) != revision {
          return Err(RevisionConflict);
        }
        if current.head == Some(revision.id) {
          return Ok(AlreadyCommitted);
        }
        return Err(RevisionConflict);
      }
      if current.head != expectedHead {
        return Err(HeadMismatch(current.head));
      }
      if revision.parent != expectedHead {
        return Err(RevisionConflict);
      }
      if revision.parent.Some? {
        if revision.parent.value !in revisions || revisions[revision.parent.value].namespace != revision.namespace {
          return Err(RevisionConflict);
        }
      }
      if revision.id in roots {
        return Err(Sqlite);
      }
      revisions := revisions[revision.id :=
        Revision(revision.namespace, revision.parent, revision.details, Active, None, |revisions|)];
      namespaces := namespaces[revision.namespace := current.(head := Some(revision.id))];
      roots := roots[revision.id := Root(revision.id, revision.schema)];
      return Ok(Created);
    }

    /** Walks with a cursor from the head down to `newHead`; the walk fails if it ends elsewhere. */
    method WalkDown(ns: NamespaceId, head: Option<RevisionId>, newHead: Option<RevisionId>)
      returns (walk: Option<seq<RevisionId>>)
      requires HistoryOk(HistoryTables()) && ns in namespaces && namespaces[ns].head == head
      ensures walk.Some? <==> OnChain(revisions, newHead, head) && |Segment(revisions, head, newHead)| <= MAX_TRUNCATION
      ensures walk.Some? ==> (set r | r in walk.value) == Segment(revisions, head, newHead)
      ensures walk.Some? ==> |walk.value| == |Segment(revisions, head, newHead)|
    {
      assert NamespaceOk(HistoryTables(), ns);
      var removed: seq<RevisionId> := [];
      var cursor := head;
      while cursor != newHead
        invariant Known(revisions, cursor)
        invariant WalkedFrom(revisions, head, cursor, removed)
        invariant |removed| <= MAX_TRUNCATION
        invariant OnChain(revisions, newHead, head) ==> OnChain(revisions, newHead, cursor)
        decreases |Ancestry(revisions, cursor)|
      {
        if cursor.None? {
          return None;
        }
        WalkStep(revisions, head, cursor, removed);
        assert cursor.value in InState(revisions, ns, Active);
        if revisions[cursor.value].namespace != ns || revisions[cursor.value].state != Active {
          return None;
        }
        removed := removed + [cursor.value];
        cursor := revisions[cursor.value].parent;
        if |removed| > MAX_TRUNCATION {
          WalkLength(revisions, head, cursor, newHead, removed);
          return None;
        }
      }
      WalkLength(revisions, head, newHead, newHead, removed);
      return Some(removed);
    }

    /** Moves the revisions between the head and `newHead` to the trash. */
    method TruncateHistory(ns: NamespaceId, expectedHead: Option<RevisionId>, expectedEpoch: nat,
                           newHead: Option<RevisionId>, operationId: OperationId, now: Time)
      returns (reply: Result<TrashOperation, MetadataError>)
      requires HistoryOk(HistoryTables())
      modifies this
      ensures ObjectTables() == old(ObjectTables())
      ensures match Metadata.TruncateHistory(old(HistoryTables()), ns, expectedHead, expectedEpoch, newHead,
              operationId, now)
              case Ok(tables) =>
                && HistoryTables() == tables
                && operationId in tables.operations && reply == Ok(tables.operations[operationId])
              case Err(error) => reply == Err(error) && HistoryTables() == old(HistoryTables())
    {
      if ns !in namespaces {
        return Err(NotFound);
      }
      var head, epoch := namespaces[ns].head, namespaces[ns].epoch;
      if head != expectedHead {
        return Err(HeadMismatch(head));
      }
      if epoch != expectedEpoch {
        return Err(EpochMismatch(epoch));
      }
      if head == newHead {
        return Err(RevisionConflict);
      }
      var walk := WalkDown(ns, head, newHead);
      if walk.None? {
        return Err(RevisionConflict);
      }
      if epoch >= U64_MAX {
        return Err(RevisionConflict);
      }
      if operationId in operations {
        return Err(Sqlite);
      }
      MoveToTrash(ns, newHead, operationId, walk.value, now);
      return Ok(operations[operationId]);
    }

    method MoveToTrash(ns: NamespaceId, newHead: Option<RevisionId>, operationId: OperationId,
                       removed: seq<RevisionId>, now: Time)
      requires ns in namespaces
      requires (set r | r in removed) == Segment(revisions, namespaces[ns].head, newHead)
      requires |removed| == |Segment(revisions, namespaces[ns].head, newHead)|
      modifies this`revisions, this`operations, this`namespaces
      ensures HistoryTables() == Truncated(old(HistoryTables()), ns, newHead, operationId, now)
    {
      var head, epoch := namespaces[ns].head, namespaces[ns].epoch;
      var operation := TrashOperation(ns, head, newHead, epoch, epoch + 1, now + TRASH_RETENTION, |removed|, InTrash);
      TrashListed(revisions, removed, Segment(revisions, head, newHead), operationId);
      revisions := map r | r in revisions ::
        if r in removed && revisions[r].state == Active
        then revisions[r].(state := Trashed, trashOperation := Some(operationId)) else revisions[r];
      operations := operations[operationId := operation];
      namespaces := namespaces[ns := Namespace(newHead, epoch + 1)];
    }

    method RestoreHistoryTrash(ns: NamespaceId, operationId: OperationId, expectedHead: Option<RevisionId>,
                               expectedEpoch: nat, now: Time)
      returns (reply: Result<TrashOperation, MetadataError>)
      modifies this
      ensures ObjectTables() == old(ObjectTables())
      ensures match Metadata.RestoreHistoryTrash(old(HistoryTables()), ns, operationId, expectedHead, expectedEpoch,
              now)
              case Ok(tables) =>
                && HistoryTables() == tables
                && operationId in tables.operations && reply == Ok(tables.operations[operationId])
              case Err(error) => reply == Err(error) && HistoryTables() == old(HistoryTables())
    {
      if ns !in namespaces {
        return Err(NotFound);
      }
      var current := namespaces[ns];
      if current.head != expectedHead {
        return Err(HeadMismatch(current.head));
      }
      if current.epoch != expectedEpoch {
        return Err(EpochMismatch(current.epoch));
      }
      if operationId !in operations || operations[operationId].namespace != ns {
        return Err(NotFound);
      }
      var operation := operations[operationId];
      if operation.state != InTrash || operation.newHead != current.head || operation.expiresAt <= now {
        return Err(RevisionConflict);
      }
      if expectedEpoch >= U64_MAX {
        return Err(RevisionConflict);
      }
      revisions := map r | r in revisions ::
        if revisions[r].trashOperation == Some(operationId)
        then revisions[r].(state := Active, trashOperation := None) else revisions[r];
      namespaces := namespaces[ns := Namespace(operation.oldHead, expectedEpoch + 1)];
      operations := operations[operationId := operation.(state := Restored)];
      return Ok(operations[operationId]);
    }

    // ----- edges and reachability -----

    /** Deletes the owner's rows and inserts the targets one by one; a repeated target fails. */
    method ReplaceObjectEdges(owner: Obj, targets: seq<Obj>) returns (reply: Result<(), MetadataError>)
      modifies this
      ensures HistoryTables() == old(HistoryTables())
      ensures match Metadata.ReplaceObjectEdges(old(ObjectTables()), owner, targets)
              case Ok(tables) => reply == Ok(()) && ObjectTables() == tables
              case Err(error) => reply == Err(error) && ObjectTables() == old(ObjectTables())
      ensures reply.Ok? <==> forall i, j :: 0 <= i < j < |targets| ==> targets[i] != targets[j]
      ensures reply.Ok? ==> forall e: Edge :: e in edges <==>
        if e.owner == owner then e.target in targets else e in old(edges)
    {
      var transaction := set e | e in edges && e.owner != owner;
      ghost var kept := transaction;
      for i := 0 to |targets|
        invariant Distinct(targets[..i])
        invariant transaction == kept + set t | t in targets[..i] :: Edge(owner, t)
      {
        if Edge(owner, targets[i]) in transaction {
          return Err(Sqlite);
        }
        transaction := transaction + {Edge(owner, targets[i])};
        assert targets[..i + 1] == targets[..i] + [targets[i]];
      }
      assert targets[..|targets|] == targets;
      edges := transaction;
      return Ok(());
    }

    /** SQLite's recursive query: rows wait in a queue and each one adds the targets not yet seen. */
    method RecursiveQuery(seed: set<Obj>) returns (rows: set<Obj>)
      ensures rows == Reach(edges, seed)
    {
      rows := seed;
      var waiting := seed;
      while waiting != {}
        invariant seed <= rows && waiting <= rows <= Reach(edges, seed)
        invariant forall e :: e in edges && e.owner in rows && e.owner !in waiting ==> e.target in rows
        decreases Reach(edges, seed) - rows, waiting
      {
        var row :| row in waiting;
        var targets := set e | e in edges && e.owner == row :: e.target;
        var unseen := targets - rows;
        rows := rows + unseen;
        waiting := waiting - {row} + unseen;
      }
      ReachLeast(edges, seed, rows);
    }

    method ReachableObjects(now: Time) returns (reachable: set<Obj>)
      ensures reachable == Reachable(HistoryTables(), ObjectTables(), now)
    {
      var seed := set r | r in revisions && r in roots
        && (revisions[r].state == Active
            || (revisions[r].state == Trashed && revisions[r].trashOperation.Some?
                && revisions[r].trashOperation.value in operations
                && operations[revisions[r].trashOperation.value].state == InTrash
                && operations[revisions[r].trashOperation.value].expiresAt > now)) :: RootObject(roots[r].sha256);
      assert seed == ProtectedRoots(HistoryTables(), now);
      reachable := RecursiveQuery(seed);
    }

    // ----- garbage collection plan and queue -----

    /** Collects the eligible rows; the byte total may not overflow. */
    method BuildGcPlan(now: Time) returns (reply: Result<(map<Obj, nat>, nat), MetadataError>)
      ensures var plan := GcPlan(HistoryTables(), ObjectTables(), now);
              reply == if TotalBytes(plan) <= U64_MAX then Ok((plan, TotalBytes(plan))) else Err(RevisionConflict)
    {
      var reachable := ReachableObjects(now);
      var rows := map o | o in storage && storage[o].createdAt <= now - GC_GRACE :: storage[o].byteLength;
      assert rows - reachable == GcPlan(HistoryTables(), ObjectTables(), now);
      reply := SelectCandidates(rows, reachable);
    }

    /** The row loop: keep what is not reachable, and add up the lengths with `checked_add`. */
    static method SelectCandidates(rows: map<Obj, nat>, reachable: set<Obj>)
      returns (reply: Result<(map<Obj, nat>, nat), MetadataError>)
      ensures var plan := rows - reachable;
              reply == if TotalBytes(plan) <= U64_MAX then Ok((plan, TotalBytes(plan))) else Err(RevisionConflict)
    {
      ghost var plan := rows - reachable;
      var candidates: map<Obj, nat> := map[];
      var bytes: nat := 0;
      var rest := rows.Keys;
      while rest != {}
        invariant rest <= rows.Keys
        invariant candidates == plan - rest
        invariant bytes == TotalBytes(candidates) && bytes <= U64_MAX
      {
        var o :| o in rest;
        PlanWithOneMore(plan, rest, o);
        rest := rest - {o};
        if o !in reachable {
          if bytes + rows[o] > U64_MAX {
            return Err(RevisionConflict);
          }
          candidates := candidates[o := rows[o]];
          bytes := bytes + rows[o];
        }
      }
      assert plan - {} == plan;
      return Ok((candidates, bytes));
    }

    method EnqueueGc(fingerprint: map<Obj, nat>, operation: OperationId, now: Time)
      returns (reply: Result<set<EntryId>, MetadataError>)
      modifies this
      ensures HistoryTables() == old(HistoryTables())
      ensures TotalBytes(GcPlan(old(HistoryTables()), old(ObjectTables()), now)) > U64_MAX ==>
                reply == Err(RevisionConflict) && ObjectTables() == old(ObjectTables())
      ensures TotalBytes(GcPlan(old(HistoryTables()), old(ObjectTables()), now)) <= U64_MAX ==>
                match Metadata.EnqueueGc(old(HistoryTables()), old(ObjectTables()), fingerprint, operation, now)
                case Ok((tables, entries)) => reply == Ok(entries.Keys) && ObjectTables() == tables
                case Err(error) => reply == Err(error) && ObjectTables() == old(ObjectTables())
    {
      var plan := BuildGcPlan(now);
      if plan.Err? {
        return Err(plan.error);
      }
      if plan.value.0 != fingerprint {
        return Err(RevisionConflict);
      }
      reply := InsertEntries(operation, plan.value.0, false);
    }

    /** Inserts one pending row per object, or none at all. */
    method InsertEntries(operation: OperationId, objects: map<Obj, nat>, deleteAfter: bool)
      returns (reply: Result<set<EntryId>, MetadataError>)
      modifies this`queue
      ensures var entries := EntriesFor(operation, objects, deleteAfter);
              if entries.Keys * old(queue).Keys != {} then reply == Err(Sqlite) && queue == old(queue)
              else reply == Ok(entries.Keys) && queue == old(queue) + entries
    {
      ghost var entries := EntriesFor(operation, objects, deleteAfter);
      var transaction := queue;
      var inserted: set<EntryId> := {};
      var rest := objects.Keys;
      while rest != {}
        invariant rest <= objects.Keys
        invariant inserted == set o | o in objects && o !in rest :: EntryId(operation, o)
        invariant inserted !! queue.Keys
        invariant transaction == queue + map id | id in inserted && id in entries :: entries[id]
      {
        var o :| o in rest;
        var id := EntryId(operation, o);
        assert id.target == o && id in entries;
        if id in transaction {
          assert id in entries.Keys * queue.Keys;
          return Err(Sqlite);
        }
        transaction := transaction[id := GcEntry(objects[o], Pending, deleteAfter)];
        inserted := inserted + {id};
        rest := rest - {o};
      }
      assert inserted == entries.Keys;
      assert (map id | id in inserted && id in entries :: entries[id]) == entries;
      queue := transaction;
      return Ok(inserted);
    }

    method CompleteGcEntry(id: EntryId)
      modifies this
      ensures HistoryTables() == old(HistoryTables())
      ensures ObjectTables() == Metadata.CompleteGcEntry(old(ObjectTables()), id)
    {
      edges := set e | e in edges && e.owner != id.target && e.target != id.target;
      storage := storage - {id.target};
      if id in queue && queue[id].state == Pending {
        queue := queue[id := queue[id].(state := Quarantined)];
      }
    }

    method CancelGcEntry(id: EntryId)
      modifies this
      ensures HistoryTables() == old(HistoryTables())
      ensures ObjectTables() == Metadata.CancelGcEntry(old(ObjectTables()), id)
    {
      if id in queue && queue[id].state == Pending {
        queue := queue[id := queue[id].(state := Cancelled)];
      }
    }

    method MarkGcEntryPurged(id: EntryId)
      modifies this
      ensures HistoryTables() == old(HistoryTables())
      ensures ObjectTables() == Metadata.MarkGcEntryPurged(old(ObjectTables()), id)
    {
      if id in queue && queue[id].state == Quarantined && queue[id].deleteAfterQuarantine {
        queue := queue[id := queue[id].(state := Deleted)];
      }
    }

    // ----- permanent deletion of trash -----

    method BuildHistoryTrashPurgePlan(ns: NamespaceId, requested: seq<OperationId>, purgeAll: bool)
      returns (reply: Result<PurgePlan, MetadataError>)
      ensures reply == BuildPurgePlan(HistoryTables(), ObjectTables(), ns, requested, purgeAll)
    {
      if purgeAll == (requested != []) {
        return Err(RevisionConflict);
      }
      if ns !in namespaces {
        return Err(NotFound);
      }
      var active := set op | op in operations && operations[op].namespace == ns && operations[op].state == InTrash;
      assert active == ActiveOperations(HistoryTables(), ns);
      var wanted: set<OperationId> := {};
      for i := 0 to |requested|
        invariant wanted == Elements(requested[..i])
        invariant Distinct(requested[..i])
      {
        if requested[i] in wanted {
          assert exists k :: 0 <= k < i && requested[k] == requested[i];
          return Err(RevisionConflict);
        }
        wanted := wanted + {requested[i]};
        assert requested[..i + 1] == requested[..i] + [requested[i]];
      }
      assert requested[..|requested|] == requested;
      if !purgeAll && !(wanted <= active) {
        return Err(RevisionConflict);
      }
      var selected := if purgeAll then active else wanted;
      reply := PlanSelection(ns, selected, active);
    }

    method PlanSelection(ns: NamespaceId, selected: set<OperationId>, active: set<OperationId>)
      returns (reply: Result<PurgePlan, MetadataError>)
      requires active == ActiveOperations(HistoryTables(), ns)
      ensures reply == PlanSelected(HistoryTables(), ObjectTables(), ns, selected)
    {
      if selected == {} {
        return Err(RevisionConflict);
      }
      var chosen := set r | && r in revisions && revisions[r].namespace == ns && revisions[r].state == Trashed
                            && revisions[r].trashOperation.Some? && revisions[r].trashOperation.value in selected;
      assert chosen == TrashedBy(HistoryTables(), ns, selected);
      var others := active - selected;
      while others != {}
        invariant others <= active - selected
        invariant forall op :: op in active - selected - others ==>
          !(operations[op].newHead.Some? && operations[op].newHead.value in chosen)
      {
        var op :| op in others;
        if operations[op].newHead.Some? && operations[op].newHead.value in chosen {
          return Err(RevisionConflict);
        }
        others := others - {op};
      }
      var objects := CollectGraphs(set r | r in chosen && r in roots :: RootObject(roots[r].sha256));
      return Ok(PurgePlan(selected, |chosen|, objects));
    }

    /** The stored objects that the roots reach, one recursive query per root. */
    method CollectGraphs(rootObjects: set<Obj>) returns (objects: map<Obj, nat>)
      ensures objects == map o | o in Reach(edges, rootObjects) && o in storage :: storage[o].byteLength
    {
      objects := map[];
      var rest := rootObjects;
      while rest != {}
        invariant rest <= rootObjects
        invariant objects == map o | o in Reach(edges, rootObjects - rest) && o in storage :: storage[o].byteLength
      {
        var root :| root in rest;
        var graph := RecursiveQuery({root});
        ReachUnion(edges, rootObjects - rest, {root});
        assert rootObjects - (rest - {root}) == (rootObjects - rest) + {root};
        objects := objects + map o | o in graph && o in storage :: storage[o].byteLength;
        rest := rest - {root};
      }
      assert rootObjects - {} == rootObjects;
    }

    method CommitHistoryTrashPurge(ns: NamespaceId, expected: PurgePlan, operation: OperationId, now: Time)
      returns (reply: Result<set<EntryId>, MetadataError>)
      modifies this
      ensures match CommitPurge(old(HistoryTables()), old(ObjectTables()), ns, expected, operation, now)
              case Ok((history, objects, entries)) =>
                reply == Ok(entries.Keys) && HistoryTables() == history && ObjectTables() == objects
              case Err(error) =>
                reply == Err(error) && HistoryTables() == old(HistoryTables()) && ObjectTables() == old(ObjectTables())
    {
      if ns !in namespaces {
        return Err(NotFound);
      }
      var active := set op | op in operations && operations[op].namespace == ns && operations[op].state == InTrash;
      assert active == ActiveOperations(HistoryTables(), ns);
      if !(expected.operations <= active) {
        return Err(RevisionConflict);
      }
      var current := PlanSelection(ns, expected.operations, active);
      if current.Err? {
        return Err(current.error);
      }
      if current.value != expected {
        return Err(RevisionConflict);
      }
      reply := PurgeAndEnqueue(ns, expected, operation, now);
    }

    /** The writes of the transaction, taken back when the queue refuses. */
    method PurgeAndEnqueue(ns: NamespaceId, plan: PurgePlan, operation: OperationId, now: Time)
      returns (reply: Result<set<EntryId>, MetadataError>)
      requires plan.operations <= operations.Keys
      modifies this
      ensures var purged := PurgeRevisions(old(HistoryTables()), ns, plan.operations);
              match EnqueueForPurge(purged, old(ObjectTables()), plan.candidates, operation, now)
              case Ok((tables, entries)) =>
                reply == Ok(entries.Keys) && HistoryTables() == purged && ObjectTables() == tables
              case Err(error) =>
                reply == Err(error) && HistoryTables() == old(HistoryTables()) && ObjectTables() == old(ObjectTables())
    {
      var savedRoots, savedRevisions, savedOperations := roots, revisions, operations;
      PurgeOperations(ns, plan.operations);
      reply := EnqueueObjectsForPurge(operation, plan.candidates, now);
      if reply.Err? {
        roots, revisions, operations := savedRoots, savedRevisions, savedOperations;
      }
    }

    /** Three updates per operation: its root rows, its revisions, and the operation itself. */
    method PurgeOperations(ns: NamespaceId, ids: set<OperationId>)
      requires ids <= operations.Keys
      modifies this`roots, this`revisions, this`operations
      ensures HistoryTables() == PurgeRevisions(old(HistoryTables()), ns, ids)
    {
      ghost var h := HistoryTables();
      var rest := ids;
      assert PurgeRevisions(h, ns, {}) == h by { PurgeNothing(h, ns); }
      assert ids - rest == {};
      while rest != {}
        invariant rest <= ids && operations.Keys == h.operations.Keys
        invariant HistoryTables() == PurgeRevisions(h, ns, ids - rest)
      {
        var op :| op in rest;
        PurgeOneMore(h, ns, ids - rest, op);
        assert ids - (rest - {op}) == ids - rest + {op};
        PurgeOperation(ns, op);
        rest := rest - {op};
      }
      assert ids - {} == ids;
    }

    method PurgeOperation(ns: NamespaceId, op: OperationId)
      requires op in operations
      modifies this`roots, this`revisions, this`operations
      ensures HistoryTables() == PurgeRevisions(old(HistoryTables()), ns, {op})
    {
      var doomed := set r | && r in revisions && revisions[r].namespace == ns && revisions[r].state == Trashed
                            && revisions[r].trashOperation == Some(op);
      assert doomed == TrashedBy(HistoryTables(), ns, {op});
      roots := roots - doomed;
      revisions := map r | r in revisions :: if r in doomed then revisions[r].(state := Purged) else revisions[r];
      if operations[op].namespace == ns && operations[op].state == InTrash {
        operations := operations[op := operations[op].(state := Emptied)];
      }
      assert operations == PurgeRevisions(old(HistoryTables()), ns, {op}).operations;
    }

    method EnqueueObjectsForPurge(operation: OperationId, candidates: map<Obj, nat>, now: Time)
      returns (reply: Result<set<EntryId>, MetadataError>)
      modifies this`queue
      ensures match EnqueueForPurge(HistoryTables(), old(ObjectTables()), candidates, operation, now)
              case Ok((tables, entries)) => reply == Ok(entries.Keys) && ObjectTables() == tables
              case Err(error) => reply == Err(error) && ObjectTables() == old(ObjectTables())
    {
      var reachable := ReachableObjects(now);
      var doomed := map o | o in candidates && o !in reachable && o in storage :: candidates[o];
      if exists o :: o in doomed && storage[o].byteLength != doomed[o] {
        return Err(RevisionConflict);
      }
      reply := InsertEntries(operation, doomed, true);
    }
  }

  lemma {:induction false} TotalBytesMonotone(candidates: map<Obj, nat>, removed: set<Obj>)
    ensures TotalBytes(candidates - removed) <= TotalBytes(candidates)
    decreases |candidates|
  {
    if o :| o in candidates && o in removed {
      TotalBytesRemove(candidates, o);
      TotalBytesMonotone(candidates - {o}, removed);
      assert candidates - {o} - removed == candidates - removed;
    } else {
      assert candidates - removed == candidates;
    }
  }

  /** What looking at row `o` adds to the part of the plan that is built. */
  lemma PlanWithOneMore(plan: map<Obj, nat>, rows: set<Obj>, o: Obj)
    requires o in rows
    ensures o !in plan ==> plan - (rows - {o}) == plan - rows
    ensures o in plan ==>
      && plan - (rows - {o}) == (plan - rows)[o := plan[o]]
      && TotalBytes((plan - rows)[o := plan[o]]) == TotalBytes(plan - rows) + plan[o] <= TotalBytes(plan)
  {
    if o in plan {
      assert plan - (rows - {o}) == (plan - rows)[o := plan[o]];
      TotalBytesInsert(plan - rows, o, plan[o]);
      TotalBytesMonotone(plan, rows - {o});
    }
  }

  lemma TrashListed(revs: Revisions, removed: seq<RevisionId>, cut: set<RevisionId>, op: OperationId)
    requires (set r | r in removed) == cut
    ensures (map r | r in revs :: if r in removed && revs[r].state == Active
                                  then revs[r].(state := Trashed, trashOperation := Some(op)) else revs[r])
            == TrashRevisions(revs, cut, op)
  {
    assert forall r :: r in removed <==> r in cut;
  }

  lemma PurgeNothing(h: History, ns: NamespaceId)
    ensures PurgeRevisions(h, ns, {}) == h
  {
  }

  lemma PurgeOneMore(h: History, ns: NamespaceId, done: set<OperationId>, op: OperationId)
    requires op !in done
    ensures PurgeRevisions(PurgeRevisions(h, ns, done), ns, {op}) == PurgeRevisions(h, ns, done + {op})
  {
  }

  // ----- the cursor of truncate_history -----

  /** `removed` is what a walk along parents passes between `head` and `cursor`. */
  ghost predicate WalkedFrom(revs: Revisions, head: Option<RevisionId>, cursor: Option<RevisionId>,
                             removed: seq<RevisionId>) {
    && OnChain(revs, cursor, head)
    && Ancestry(revs, cursor) <= Ancestry(revs, head)
    && (set r | r in removed) == Ancestry(revs, head) - Ancestry(revs, cursor)
    && |removed| == |Ancestry(revs, head) - Ancestry(revs, cursor)|
  }

  lemma WalkStep(revs: Revisions, head: Option<RevisionId>, cursor: Option<RevisionId>, removed: seq<RevisionId>)
    requires Ranked(revs) && Known(revs, cursor) && cursor.Some? && WalkedFrom(revs, head, cursor, removed)
    ensures WalkedFrom(revs, head, revs[cursor.value].parent, removed + [cursor.value])
    ensures Known(revs, revs[cursor.value].parent)
    ensures cursor.value in Ancestry(revs, head)
    ensures Ancestry(revs, cursor) == {cursor.value} + Ancestry(revs, revs[cursor.value].parent)
    ensures cursor.value !in Ancestry(revs, revs[cursor.value].parent)
  {
    var parent := revs[cursor.value].parent;
    AncestryUnfold(revs, cursor.value);
    AncestryClosed(revs, head, cursor.value);
    OneMoreRemoved(Ancestry(revs, head), Ancestry(revs, cursor), Ancestry(revs, parent), cursor.value, removed);
  }

  lemma AncestryUnfold(revs: Revisions, r: RevisionId)
    requires Ranked(revs) && r in revs
    ensures Known(revs, revs[r].parent)
    ensures Ancestry(revs, Some(r)) == {r} + Ancestry(revs, revs[r].parent)
    ensures r !in Ancestry(revs, revs[r].parent)
    ensures revs[r].parent.Some? ==> revs[r].parent.value in Ancestry(revs, revs[r].parent)
  {
    assert RowRanked(revs, r);
    if r in Ancestry(revs, revs[r].parent) {
      AncestryClosed(revs, revs[r].parent, r);
    }
  }

  lemma OneMoreRemoved(all: set<RevisionId>, rest: set<RevisionId>, rest': set<RevisionId>, r: RevisionId,
                       removed: seq<RevisionId>)
    requires rest == {r} + rest' && r !in rest' && rest <= all
    requires (set x | x in removed) == all - rest && |removed| == |all - rest|
    ensures (set x | x in removed + [r]) == all - rest' && |removed + [r]| == |all - rest'|
  {
    assert all - rest' == (all - rest) + {r};
    forall x ensures x in removed + [r] <==> x in removed || x == r {
    }
  }

  lemma WalkLength(revs: Revisions, head: Option<RevisionId>, cursor: Option<RevisionId>, newHead: Option<RevisionId>,
                   removed: seq<RevisionId>)
    requires Ranked(revs) && WalkedFrom(revs, head, cursor, removed)
    ensures OnChain(revs, newHead, cursor) ==> |removed| <= |Ancestry(revs, head) - Ancestry(revs, newHead)|
    ensures OnChain(revs, newHead, cursor) && cursor == newHead
            ==> |removed| == |Ancestry(revs, head) - Ancestry(revs, newHead)|
  {
    if OnChain(revs, newHead, cursor) {
      if newHead.Some? {
        AncestryClosed(revs, cursor, newHead.value);
      }
      SubsetSize(Ancestry(revs, head) - Ancestry(revs, cursor), Ancestry(revs, head) - Ancestry(revs, newHead));
    }
  }

  lemma SubsetSize<T>(a: set<T>, b: set<T>)
    requires a <= b
    ensures |a| <= |b|
  {
    assert b == a + (b - a);
  }
}
