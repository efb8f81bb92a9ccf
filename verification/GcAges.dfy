/** What collection takes, told from the tables: objects that were recorded an hour ago or more and that no path of
    edges links to a revision one can still get back; at one step and over whole runs. */
module GcAges {
  import opened Basics
  import opened ObjectGraph
  import opened Metadata
  import opened HistoryInvariant
  import opened Catalog
  import opened Server
  import opened GcSafety
  import opened GcRuns

  // ----- garbage -----

  /** An active revision, or one in trash that has not expired. */
  ghost predicate CanComeBack(h: History, r: RevisionId, now: Time) {
    && r in h.revisions
    && (|| h.revisions[r].state == Active
        || (&& h.revisions[r].state == Trashed && h.revisions[r].trashOperation.Some?
            && h.revisions[r].trashOperation.value in h.operations
            && now < h.operations[h.revisions[r].trashOperation.value].expiresAt))
  }

  /** A path of edges leads to the object from the root document of such a revision. */
  ghost predicate Held(s: Sys, o: Obj) {
    exists r, path :: CanComeBack(s.history, r, s.clock) && PathTo(s.objects.edges, {RootObject(r)}, o, path)
  }

  /** The object was recorded, an hour ago or more. */
  ghost predicate Old(s: Sys, o: Obj) {
    o in s.objects.storage && s.objects.storage[o].createdAt + 3_600_000 <= s.clock
  }

  ghost predicate Garbage(s: Sys, o: Obj) {
    Old(s, o) && !Held(s, o)
  }

  lemma ProtectedCanComeBack(h: History, r: RevisionId, now: Time)
    requires HistoryOk(h)
    ensures Protected(h, r, now) <==> CanComeBack(h, r, now)
    ensures Protected(h, r, now) ==> h.roots[r].sha256 == r
  {
    if r in h.revisions {
      assert RevisionOk(h, r);
    }
  }

  /** The recursive query finds exactly the objects that are held. */
  lemma ReachableIsHeld(s: Sys, o: Obj)
    requires HistoryOk(s.history)
    ensures o in Reachable(s.history, s.objects, s.clock) <==> Held(s, o)
  {
    var roots := ProtectedRoots(s.history, s.clock);
    ReachIsPathReach(s.objects.edges, roots, o);
    if o in Reachable(s.history, s.objects, s.clock) {
      var path :| PathTo(s.objects.edges, roots, o, path);
      var r :| r in s.history.revisions && Protected(s.history, r, s.clock)
               && RootObject(s.history.roots[r].sha256) == path[0];
      ProtectedCanComeBack(s.history, r, s.clock);
      assert PathTo(s.objects.edges, {RootObject(r)}, o, path);
    }
    if Held(s, o) {
      var r, path :| CanComeBack(s.history, r, s.clock) && PathTo(s.objects.edges, {RootObject(r)}, o, path);
      ProtectedCanComeBack(s.history, r, s.clock);
      assert PathTo(s.objects.edges, roots, o, path);
    }
  }

  lemma PlanIsGarbage(s: Sys, o: Obj)
    requires HistoryOk(s.history)
    ensures o in GcPlan(s.history, s.objects, s.clock) <==> Garbage(s, o)
    ensures Garbage(s, o) ==> GcPlan(s.history, s.objects, s.clock)[o] == s.objects.storage[o].byteLength
  {
    ReachableIsHeld(s, o);
  }

  // ----- the step that queues -----

  /** One pending entry per piece of garbage joins the queue. */
  ghost predicate QueuesGarbage(s: Sys, s': Sys, operation: OperationId, todo: set<EntryId>) {
    && (forall e :: e in todo <==> e.operation == operation && Garbage(s, e.target))
    && (forall e :: e in todo ==>
          && e !in s.objects.queue && e in s'.objects.queue
          && s'.objects.queue[e] == GcEntry(s.objects.storage[e.target].byteLength, Pending, false))
    && s'.objects.queue.Keys == s.objects.queue.Keys + todo
    && (forall e :: e in s.objects.queue ==> s'.objects.queue[e] == s.objects.queue[e])
  }

  ghost predicate IsGarbageList(s: Sys, fingerprint: map<Obj, nat>) {
    && (forall o :: o in fingerprint <==> Garbage(s, o))
    && (forall o :: o in fingerprint ==> fingerprint[o] == s.objects.storage[o].byteLength)
  }

  lemma FingerprintIsGarbageList(s: Sys, fingerprint: map<Obj, nat>)
    requires HistoryOk(s.history)
    ensures fingerprint == GcPlan(s.history, s.objects, s.clock) <==> IsGarbageList(s, fingerprint)
  {
    var plan := GcPlan(s.history, s.objects, s.clock);
    forall o ensures o in plan <==> Garbage(s, o) {
      PlanIsGarbage(s, o);
    }
  }

  /** Starting a collection changes nothing unless the fingerprint is that of the present garbage; then it queues
      exactly that, and touches nothing else. */
  lemma CollectionQueuesGarbage(cat: Contents, s: Sys, l: Label)
    requires SysOk(cat, s) && s.mode == Serving(map[]) && l.StartGc? && Next(cat, s, l).Some?
    ensures var s' := Next(cat, s, l).value;
            if !s'.mode.Collecting? then s' == s
            else
              && IsGarbageList(s, l.fingerprint)
              && s' == s.(objects := s.objects.(queue := s'.objects.queue), mode := s'.mode)
              && s'.mode.sweep.current == Idle
              && QueuesGarbage(s, s', l.operation, s'.mode.sweep.todo)
    ensures IsGarbageList(s, l.fingerprint) && (forall e :: e in s.objects.queue ==> e.operation != l.operation)
            ==> Next(cat, s, l).value.mode.Collecting?
  {
    var s' := Next(cat, s, l).value;
    var plan := GcPlan(s.history, s.objects, s.clock);
    FingerprintIsGarbageList(s, l.fingerprint);
    if s'.mode.Collecting? {
      forall e: EntryId ensures e in s'.mode.sweep.todo <==> e.operation == l.operation && Garbage(s, e.target) {
        PlanIsGarbage(s, e.target);
        assert e == EntryId(e.operation, e.target);
      }
      NewEntriesAreNew(s.history, s.objects, l.fingerprint, l.operation, s.clock);
    }
  }

  lemma NewEntriesAreNew(h: History, objects: Objects, fingerprint: map<Obj, nat>, operation: OperationId, now: Time)
    requires EnqueueGc(h, objects, fingerprint, operation, now).Ok?
    ensures forall e :: e in EnqueueGc(h, objects, fingerprint, operation, now).value.1 ==> e !in objects.queue
  {
    var entries := EnqueueGc(h, objects, fingerprint, operation, now).value.1;
    forall e | e in entries ensures e !in objects.queue {
      assert e in objects.queue ==> e in entries.Keys * objects.queue.Keys;
    }
  }

  // ----- where entries and rows come from -----

  /** Entries are never dropped, and whether an entry is to be deleted never changes. */
  lemma SharedStepKeepsEntries(cat: Contents, s: Sys, l: Label, e: EntryId)
    requires Next(cat, s, l).Some? && !l.StartGc? && !l.StartPurge?
    ensures var s' := Next(cat, s, l).value;
            (e in s'.objects.queue <==> e in s.objects.queue)
            && (e in s.objects.queue ==>
                  s'.objects.queue[e].deleteAfterQuarantine == s.objects.queue[e].deleteAfterQuarantine)
  {
    if !l.Tick? && !l.Crash? && !l.Boot? && !l.CreateNamespace? && !l.Truncate? && !l.Restore? {
      if s.mode.Serving? {
        TaskKeepsEntries(cat, s, l);
      } else {
        SweepKeepsEntries(s, l, e);
      }
    }
  }

  lemma TaskKeepsEntries(cat: Contents, s: Sys, l: Label)
    requires s.mode.Serving? && NextTask(cat, s, l).Some?
    ensures NextTask(cat, s, l).value.objects.queue == s.objects.queue
  {
  }

  lemma SweepKeepsEntries(s: Sys, l: Label, e: EntryId)
    requires (s.mode.Booting? || s.mode.Emptying? || s.mode.Collecting?) && NextSweep(s, l).Some?
    ensures var s' := NextSweep(s, l).value;
            (e in s'.objects.queue <==> e in s.objects.queue)
            && (e in s.objects.queue ==>
                  s'.objects.queue[e].deleteAfterQuarantine == s.objects.queue[e].deleteAfterQuarantine)
  {
  }

  lemma EntryComesFrom(cat: Contents, s: Sys, l: Label, e: EntryId)
    requires SysOk(cat, s) && Next(cat, s, l).Some? && e in Next(cat, s, l).value.objects.queue
    requires !Next(cat, s, l).value.objects.queue[e].deleteAfterQuarantine
    ensures (e in s.objects.queue && !s.objects.queue[e].deleteAfterQuarantine)
            || (l.StartGc? && l.operation == e.operation && Garbage(s, e.target))
  {
    if l.StartGc? && s.mode == Serving(map[]) {
      CollectionQueuesGarbage(cat, s, l);
    } else if l.StartPurge? {
      PurgedEntriesAreDeleted(cat, s, l, e);
    } else {
      SharedStepKeepsEntries(cat, s, l, e);
    }
  }

  lemma PurgedEntriesAreDeleted(cat: Contents, s: Sys, l: Label, e: EntryId)
    requires l.StartPurge? && Next(cat, s, l).Some? && e in Next(cat, s, l).value.objects.queue
    ensures Next(cat, s, l).value.objects.queue[e].deleteAfterQuarantine
            || (e in s.objects.queue && Next(cat, s, l).value.objects.queue[e] == s.objects.queue[e])
  {
    var plan := BuildPurgePlan(s.history, s.objects, l.ns, l.requested, l.purgeAll);
    if Next(cat, s, l).value.objects != s.objects {
      QueuedForDeletion(PurgeRevisions(s.history, l.ns, plan.value.operations), s.objects, plan.value.candidates,
                        l.operation, s.clock, e);
    }
  }

  lemma QueuedForDeletion(h: History, objects: Objects, candidates: map<Obj, nat>, operation: OperationId, now: Time,
                          e: EntryId)
    requires EnqueueForPurge(h, objects, candidates, operation, now).Ok?
    requires e in EnqueueForPurge(h, objects, candidates, operation, now).value.0.queue
    ensures var queue := EnqueueForPurge(h, objects, candidates, operation, now).value.0.queue;
            queue[e].deleteAfterQuarantine || (e in objects.queue && queue[e] == objects.queue[e])
  {
  }

  lemma EntryComesFromStep(cat: Contents, states: seq<Sys>, labels: seq<Label>, k: nat, e: EntryId)
    requires Run(cat, states, labels) && k < |labels|
    requires e in states[k + 1].objects.queue && !states[k + 1].objects.queue[e].deleteAfterQuarantine
    ensures (e in states[k].objects.queue && !states[k].objects.queue[e].deleteAfterQuarantine)
            || (labels[k].StartGc? && labels[k].operation == e.operation && Garbage(states[k], e.target))
  {
    RunKeeps(cat, states, labels, k);
    assert StepAt(cat, states, labels, k);
    EntryComesFrom(cat, states[k], labels[k], e);
  }

  /** Over every run, an entry that is not the deletion of trash was queued by a collection, at a moment when its
      object was garbage: recorded an hour ago or more, and on no path from a revision that could come back. */
  lemma {:induction false} QueuedAsGarbage(cat: Contents, states: seq<Sys>, labels: seq<Label>, k: nat, e: EntryId)
    returns (i: nat)
    requires Run(cat, states, labels) && k < |states|
    requires e in states[k].objects.queue && !states[k].objects.queue[e].deleteAfterQuarantine
    ensures i < k && labels[i].StartGc? && labels[i].operation == e.operation && Garbage(states[i], e.target)
    ensures e in states[i + 1].objects.queue
  {
    if k == 0 {
      assert false;
    } else {
      EntryComesFromStep(cat, states, labels, k - 1, e);
      if e in states[k - 1].objects.queue && !states[k - 1].objects.queue[e].deleteAfterQuarantine {
        i := QueuedAsGarbage(cat, states, labels, k - 1, e);
      } else {
        i := k - 1;
      }
    }
  }

  /** Step `l` records the row of the object. */
  ghost predicate Records(s: Sys, l: Label, o: Obj) {
    && l.FinishUpload? && s.mode.Serving? && l.task in s.mode.tasks && s.mode.tasks[l.task] == Upload(o)
    && o !in s.objects.storage
  }

  lemma RowComesFrom(cat: Contents, s: Sys, l: Label, o: Obj)
    requires Next(cat, s, l).Some? && o in Next(cat, s, l).value.objects.storage
    ensures var row := Next(cat, s, l).value.objects.storage[o];
            if o in s.objects.storage then row == s.objects.storage[o]
            else Records(s, l, o) && row.createdAt == s.clock
  {
    if !l.Tick? && !l.Crash? && !l.Boot? && !l.CreateNamespace? {
      if !s.mode.Serving? {
        SweepRow(s, l, o);
      } else if l.Truncate? || l.Restore? || l.StartPurge? || l.StartGc? {
        ExclusiveRow(cat, s, l);
      } else {
        TaskRow(cat, s, l, o);
      }
    }
  }

  lemma ExclusiveRow(cat: Contents, s: Sys, l: Label)
    requires s.mode == Serving(map[]) && NextExclusive(cat, s, l).Some?
    ensures NextExclusive(cat, s, l).value.objects.storage == s.objects.storage
  {
    match l
    case StartPurge(ns, requested, purgeAll, operation) =>
      var plan := BuildPurgePlan(s.history, s.objects, ns, requested, purgeAll);
      if plan.Ok? {
        PurgeQueueingKeepsRows(PurgeRevisions(s.history, ns, plan.value.operations), s.objects, plan.value.candidates,
                               operation, s.clock);
      }
    case StartGc(fingerprint, operation) =>
      GcQueueingKeepsRows(s.history, s.objects, fingerprint, operation, s.clock);
    case _ =>
  }

  lemma GcQueueingKeepsRows(h: History, objects: Objects, fingerprint: map<Obj, nat>, operation: OperationId, now: Time)
    ensures EnqueueGc(h, objects, fingerprint, operation, now).Ok? ==>
      EnqueueGc(h, objects, fingerprint, operation, now).value.0.storage == objects.storage
  {
  }

  lemma PurgeQueueingKeepsRows(h: History, objects: Objects, candidates: map<Obj, nat>, operation: OperationId,
                               now: Time)
    ensures EnqueueForPurge(h, objects, candidates, operation, now).Ok? ==>
      EnqueueForPurge(h, objects, candidates, operation, now).value.0.storage == objects.storage
  {
  }

  lemma SweepRow(s: Sys, l: Label, o: Obj)
    requires (s.mode.Booting? || s.mode.Emptying? || s.mode.Collecting?) && NextSweep(s, l).Some?
    requires o in NextSweep(s, l).value.objects.storage
    ensures o in s.objects.storage && NextSweep(s, l).value.objects.storage[o] == s.objects.storage[o]
  {
  }

  lemma TaskRow(cat: Contents, s: Sys, l: Label, o: Obj)
    requires s.mode.Serving? && NextTask(cat, s, l).Some? && o in NextTask(cat, s, l).value.objects.storage
    ensures var row := NextTask(cat, s, l).value.objects.storage[o];
            if o in s.objects.storage then row == s.objects.storage[o]
            else Records(s, l, o) && row.createdAt == s.clock
  {
  }

  /** A finished upload leaves its object with a row: the one there was, or one of this moment with the length of what
      was uploaded. */
  lemma UploadIsRecorded(cat: Contents, s: Sys, t: nat)
    requires s.mode.Serving? && t in s.mode.tasks && s.mode.tasks[t].Upload? && s.mode.tasks[t].target in cat
    ensures Next(cat, s, FinishUpload(t)).Some?
    ensures var s', o := Next(cat, s, FinishUpload(t)).value, s.mode.tasks[t].target;
            && s'.files == s.files
            && s'.objects == s.objects.(storage := s'.objects.storage)
            && s'.objects.storage.Keys == s.objects.storage.Keys + {o}
            && (forall x :: x in s.objects.storage ==> s'.objects.storage[x] == s.objects.storage[x])
            && (o !in s.objects.storage ==> s'.objects.storage[o] == Stored(cat[o].byteLength, s.clock))
  {
  }

  /** The upload that recorded a row: since then the row has been there. */
  lemma {:induction false} RecordedAt(cat: Contents, states: seq<Sys>, labels: seq<Label>, j: nat, o: Obj)
    returns (k: nat)
    requires Run(cat, states, labels) && j < |states| && o in states[j].objects.storage
    ensures k < j && Records(states[k], labels[k], o)
    ensures states[j].objects.storage[o].createdAt == states[k].clock
    ensures forall m :: k < m <= j ==>
      o in states[m].objects.storage && states[m].objects.storage[o] == states[j].objects.storage[o]
  {
    if j == 0 {
      assert false;
    } else {
      assert StepAt(cat, states, labels, j - 1);
      RowComesFrom(cat, states[j - 1], labels[j - 1], o);
      if o in states[j - 1].objects.storage {
        k := RecordedAt(cat, states, labels, j - 1, o);
      } else {
        k := j - 1;
      }
    }
  }

  lemma {:induction false} ClockRuns(cat: Contents, states: seq<Sys>, labels: seq<Label>, i: nat, j: nat)
    requires Run(cat, states, labels) && i <= j < |states|
    ensures states[i].clock <= states[j].clock
    decreases j - i
  {
    if i < j {
      ClockRuns(cat, states, labels, i, j - 1);
      assert StepAt(cat, states, labels, j - 1);
      ClockStep(cat, states[j - 1], labels[j - 1]);
    }
  }

  lemma ClockStep(cat: Contents, s: Sys, l: Label)
    requires Next(cat, s, l).Some?
    ensures s.clock <= Next(cat, s, l).value.clock
  {
  }

  // ----- the life of an entry -----

  /** The queue differs in the state of one entry at most, which goes from `from` to `to` if it is there. */
  ghost predicate Moves(queue: map<EntryId, GcEntry>, queue': map<EntryId, GcEntry>, id: EntryId, from: EntryState,
                        to: EntryState) {
    && queue'.Keys == queue.Keys
    && (forall e :: e in queue && e != id ==> queue'[e] == queue[e])
    && (id in queue ==>
          && queue'[id].byteLength == queue[id].byteLength
          && queue'[id].deleteAfterQuarantine == queue[id].deleteAfterQuarantine
          && queue'[id].state == if queue[id].state == from then to else queue[id].state)
  }

  /** Cancelling and completing take a pending entry, and completing its object's row and every edge of it; marking
      takes a quarantined entry that is to be deleted.  Nothing else changes. */
  lemma EntryTransactions(objects: Objects, id: EntryId)
    ensures var cancelled := CancelGcEntry(objects, id);
            && cancelled == objects.(queue := cancelled.queue)
            && Moves(objects.queue, cancelled.queue, id, Pending, Cancelled)
    ensures var completed := CompleteGcEntry(objects, id);
            && completed.storage == objects.storage - {id.target}
            && (forall e: Edge :: e in completed.edges <==>
                  e in objects.edges && id.target != e.owner && id.target != e.target)
            && Moves(objects.queue, completed.queue, id, Pending, Quarantined)
    ensures var marked := MarkGcEntryPurged(objects, id);
            && marked == objects.(queue := marked.queue)
            && if id in objects.queue && objects.queue[id].deleteAfterQuarantine then
                 Moves(objects.queue, marked.queue, id, Quarantined, Deleted)
               else marked == objects
  {
  }

  /** From pending to quarantined or cancelled, and from quarantined to deleted if that is what the entry is for. */
  ghost predicate Advances(before: GcEntry, after: GcEntry) {
    && after.byteLength == before.byteLength && after.deleteAfterQuarantine == before.deleteAfterQuarantine
    && match before.state
       case Pending => after.state == Deleted ==> before.deleteAfterQuarantine
       case Quarantined => after.state == Quarantined || (after.state == Deleted && before.deleteAfterQuarantine)
       case Cancelled => after.state == Cancelled
       case Deleted => after.state == Deleted
  }

  lemma SweepAdvances(s: Sys, l: Label, e: EntryId)
    requires (s.mode.Booting? || s.mode.Emptying? || s.mode.Collecting?) && NextSweep(s, l).Some?
    requires e in s.objects.queue
    ensures e in NextSweep(s, l).value.objects.queue
    ensures Advances(s.objects.queue[e], NextSweep(s, l).value.objects.queue[e])
  {
    if s.mode.sweep.current.At? {
      EntryTransactions(s.objects, s.mode.sweep.current.entry);
    }
  }

  lemma ExclusiveAdvances(cat: Contents, s: Sys, l: Label, e: EntryId)
    requires s.mode == Serving(map[]) && NextExclusive(cat, s, l).Some? && e in s.objects.queue
    ensures e in NextExclusive(cat, s, l).value.objects.queue
    ensures NextExclusive(cat, s, l).value.objects.queue[e] == s.objects.queue[e]
  {
    if l.StartGc? && EnqueueGc(s.history, s.objects, l.fingerprint, l.operation, s.clock).Ok? {
      NewEntriesAreNew(s.history, s.objects, l.fingerprint, l.operation, s.clock);
    } else if l.StartPurge? {
      var plan := BuildPurgePlan(s.history, s.objects, l.ns, l.requested, l.purgeAll);
      if plan.Ok? {
        NewDeletionsAreNew(PurgeRevisions(s.history, l.ns, plan.value.operations), s.objects, plan.value.candidates,
                           l.operation, s.clock);
      }
    }
  }

  lemma NewDeletionsAreNew(h: History, objects: Objects, candidates: map<Obj, nat>, operation: OperationId, now: Time)
    ensures EnqueueForPurge(h, objects, candidates, operation, now).Ok? ==>
      forall e :: e in objects.queue ==>
        && e in EnqueueForPurge(h, objects, candidates, operation, now).value.0.queue
        && EnqueueForPurge(h, objects, candidates, operation, now).value.0.queue[e] == objects.queue[e]
  {
    if EnqueueForPurge(h, objects, candidates, operation, now).Ok? {
      var entries := EnqueueForPurge(h, objects, candidates, operation, now).value.1;
      forall e | e in objects.queue ensures e !in entries {
        assert e in entries ==> e in entries.Keys * objects.queue.Keys;
      }
    }
  }

  lemma StepAdvances(cat: Contents, s: Sys, l: Label, e: EntryId)
    requires Next(cat, s, l).Some? && e in s.objects.queue
    ensures e in Next(cat, s, l).value.objects.queue
    ensures Advances(s.objects.queue[e], Next(cat, s, l).value.objects.queue[e])
  {
    if !l.Tick? && !l.Crash? && !l.Boot? && !l.CreateNamespace? {
      if !s.mode.Serving? {
        SweepAdvances(s, l, e);
      } else if l.Truncate? || l.Restore? || l.StartPurge? || l.StartGc? {
        ExclusiveAdvances(cat, s, l, e);
      } else {
        TaskKeepsEntries(cat, s, l);
      }
    }
  }

  /** Over every run an entry, once queued, stays in the queue with its length and its purpose, and its state only
      advances; one that is not a deletion is never recorded as deleted. */
  lemma {:induction false} EntriesAdvance(cat: Contents, states: seq<Sys>, labels: seq<Label>, i: nat, j: nat,
                                          e: EntryId)
    requires Run(cat, states, labels) && i <= j < |states| && e in states[i].objects.queue
    ensures e in states[j].objects.queue && Advances(states[i].objects.queue[e], states[j].objects.queue[e])
    decreases j - i
  {
    if i < j {
      EntriesAdvance(cat, states, labels, i, j - 1, e);
      assert StepAt(cat, states, labels, j - 1);
      StepAdvances(cat, states[j - 1], labels[j - 1], e);
    }
  }

  // ----- the sweep that follows -----

  /** The entries of one sweep are of one operation, and the objects of those that are no deletions are old. */
  ghost predicate SweepIsOld(s: Sys) {
    s.mode.Collecting? ==>
      && (forall e, f :: e in UncompletedEntries(s.mode.sweep) && f in UncompletedEntries(s.mode.sweep) ==>
            e.operation == f.operation)
      && (forall e :: e in UncompletedEntries(s.mode.sweep) ==> EntryIsOld(s, e))
      && (s.mode.sweep.current.At? ==> s.mode.sweep.current.entry !in s.mode.sweep.todo)
  }

  ghost predicate EntryIsOld(s: Sys, e: EntryId) {
    e in s.objects.queue && (!s.objects.queue[e].deleteAfterQuarantine ==> Old(s, e.target))
  }

  lemma SweepStaysOld(cat: Contents, s: Sys, l: Label)
    requires SweepIsOld(s) && s.mode.Collecting? && Next(cat, s, l).Some?
    ensures SweepIsOld(Next(cat, s, l).value)
  {
    var s' := Next(cat, s, l).value;
    if s'.mode.Collecting? {
      UncompletedShrinks(cat, s, l);
      forall e | e in UncompletedEntries(s'.mode.sweep) ensures EntryIsOld(s', e) {
        SweepKeepsOld(cat, s, l, e);
      }
    }
  }

  lemma UncompletedShrinks(cat: Contents, s: Sys, l: Label)
    requires s.mode.Collecting? && Next(cat, s, l).Some? && Next(cat, s, l).value.mode.Collecting?
    requires s.mode.sweep.current.At? ==> s.mode.sweep.current.entry !in s.mode.sweep.todo
    ensures var sweep := Next(cat, s, l).value.mode.sweep;
            && UncompletedEntries(sweep) <= UncompletedEntries(s.mode.sweep)
            && (sweep.current.At? ==> sweep.current.entry !in sweep.todo)
  {
  }

  lemma RowsInSweep(cat: Contents, s: Sys, l: Label)
    requires s.mode.Collecting? && Next(cat, s, l).Some? && Next(cat, s, l).value.mode.Collecting?
    ensures s.clock <= Next(cat, s, l).value.clock && !l.StartGc? && !l.StartPurge?
    ensures l.CompleteEntry? ==> s.mode.sweep.current.At?
    ensures Next(cat, s, l).value.objects.storage ==
      if l.CompleteEntry? then s.objects.storage - {s.mode.sweep.current.entry.target} else s.objects.storage
    ensures l.CompleteEntry? ==>
      && s.mode.sweep.current.entry in UncompletedEntries(s.mode.sweep)
      && UncompletedEntries(Next(cat, s, l).value.mode.sweep) == s.mode.sweep.todo
  {
  }

  lemma SweepKeepsOld(cat: Contents, s: Sys, l: Label, e: EntryId)
    requires SweepIsOld(s) && s.mode.Collecting? && Next(cat, s, l).Some? && Next(cat, s, l).value.mode.Collecting?
    requires e in UncompletedEntries(s.mode.sweep) && e in UncompletedEntries(Next(cat, s, l).value.mode.sweep)
    ensures EntryIsOld(Next(cat, s, l).value, e)
  {
    assert EntryIsOld(s, e);
    SharedStepKeepsEntries(cat, s, l, e);
    RowsInSweep(cat, s, l);
    if l.CompleteEntry? {
      var done := s.mode.sweep.current.entry;
      assert done in UncompletedEntries(s.mode.sweep) && e != done;
      assert e == EntryId(e.operation, e.target) && done == EntryId(done.operation, done.target);
    }
  }

  lemma PurgeStartsSweep(cat: Contents, s: Sys, l: Label, e: EntryId)
    requires SysOk(cat, s) && s.mode == Serving(map[]) && l.StartPurge? && Next(cat, s, l).Some?
    requires Next(cat, s, l).value.mode.Collecting? && e in Next(cat, s, l).value.mode.sweep.todo
    ensures e.operation == l.operation && e in Next(cat, s, l).value.objects.queue
    ensures Next(cat, s, l).value.objects.queue[e].deleteAfterQuarantine
  {
  }

  lemma SweepStarts(cat: Contents, s: Sys, l: Label)
    requires !s.mode.Collecting? && Next(cat, s, l).Some? && Next(cat, s, l).value.mode.Collecting?
    ensures s.mode == Serving(map[]) && (l.StartGc? || l.StartPurge?)
    ensures Next(cat, s, l).value.mode.sweep.current == Idle
  {
  }

  lemma SweepStartsOld(cat: Contents, s: Sys, l: Label)
    requires SysOk(cat, s) && !s.mode.Collecting? && Next(cat, s, l).Some?
    ensures SweepIsOld(Next(cat, s, l).value)
  {
    var s' := Next(cat, s, l).value;
    if s'.mode.Collecting? {
      SweepStarts(cat, s, l);
      forall e | e in s'.mode.sweep.todo ensures e.operation == l.operation && EntryIsOld(s', e) {
        if l.StartGc? {
          CollectionQueuesGarbage(cat, s, l);
        } else {
          PurgeStartsSweep(cat, s, l, e);
        }
      }
    }
  }

  lemma {:induction false} SweepsAreOld(cat: Contents, states: seq<Sys>, labels: seq<Label>, k: nat)
    requires Run(cat, states, labels) && k < |states|
    ensures SweepIsOld(states[k])
  {
    if k > 0 {
      SweepsAreOld(cat, states, labels, k - 1);
      RunKeeps(cat, states, labels, k - 1);
      assert StepAt(cat, states, labels, k - 1);
      if states[k - 1].mode.Collecting? {
        SweepStaysOld(cat, states[k - 1], labels[k - 1]);
      } else {
        SweepStartsOld(cat, states[k - 1], labels[k - 1]);
      }
    }
  }

  /** Step `j` moves the file of entry `e`, which is not the deletion of trash. */
  ghost predicate Collects(states: seq<Sys>, labels: seq<Label>, j: nat, e: EntryId)
    requires |states| == |labels| + 1 && j < |labels|
  {
    && labels[j].MoveFile?
    && (states[j].mode.Collecting? || states[j].mode.Booting? || states[j].mode.Emptying?)
    && states[j].mode.sweep.current == At(e, Condemned)
    && e in states[j].objects.queue && !states[j].objects.queue[e].deleteAfterQuarantine
  }

  /** Over every run, a collection that holds the gate moves no file whose object was recorded less than an hour ago. */
  lemma OnlyOldFilesAreMoved(cat: Contents, states: seq<Sys>, labels: seq<Label>, j: nat, e: EntryId)
    requires Run(cat, states, labels) && j < |labels| && Collects(states, labels, j, e)
    requires states[j].mode.Collecting?
    ensures Old(states[j], e.target)
  {
    SweepsAreOld(cat, states, labels, j);
    assert e in UncompletedEntries(states[j].mode.sweep);
  }

  /** A collection that a restart resumes may: it takes a young object exactly if that was garbage when the entry was
      queued, was lost and has been uploaded again within the last hour. */
  lemma YoungIsMovedIffUploadedAgain(cat: Contents, states: seq<Sys>, labels: seq<Label>, j: nat, e: EntryId)
    requires Run(cat, states, labels) && j < |labels| && Collects(states, labels, j, e)
    requires e.target in states[j].objects.storage
    ensures !Old(states[j], e.target) <==> exists k :: UploadedAgain(states, labels, k, j, e)
    ensures !Old(states[j], e.target) ==> !states[j].mode.Collecting?
  {
    var o := e.target;
    if states[j].mode.Collecting? {
      OnlyOldFilesAreMoved(cat, states, labels, j, e);
    }
    var recorded := RecordedAt(cat, states, labels, j, o);
    if !Old(states[j], o) {
      var i := QueuedAsGarbage(cat, states, labels, j, e);
      if recorded < i {
        ClockRuns(cat, states, labels, i, j);
        assert false;
      }
      EntriesAdvance(cat, states, labels, i + 1, recorded, e);
      assert UploadedAgain(states, labels, recorded, j, e);
    }
    if k: nat :| UploadedAgain(states, labels, k, j, e) {
      if recorded < k {
        assert false;
      }
      ClockRuns(cat, states, labels, k, recorded);
    }
  }

  /** Step `k` recorded the object after the entry was queued and less than an hour before step `j`. */
  ghost predicate UploadedAgain(states: seq<Sys>, labels: seq<Label>, k: nat, j: nat, e: EntryId)
    requires |states| == |labels| + 1 && j < |labels|
  {
    && k < j && Records(states[k], labels[k], e.target)
    && e in states[k].objects.queue && states[j].clock < states[k].clock + 3_600_000
  }

  // ----- what a collection without failures leaves -----

  ghost predicate Waits(sweep: Sweep, o: Obj) {
    exists e :: e in UncompletedEntries(sweep) && e.target == o
  }

  ghost predicate WaitsToMove(sweep: Sweep, o: Obj) {
    exists e: EntryId :: e.target == o && (e in sweep.todo || sweep.current == At(e, Condemned))
  }

  /** Of the garbage there was at `s0`, the sweep has taken exactly what no longer waits. */
  ghost predicate Collected(s0: Sys, s: Sys) {
    && s.mode.Collecting? && s.clock == s0.clock && s.history == s0.history
    && Reachable(s.history, s.objects, s.clock) == Reachable(s0.history, s0.objects, s0.clock)
    && SweepIsOld(s)
    && (forall e :: e in UncompletedEntries(s.mode.sweep) ==>
          Garbage(s0, e.target) && e in s.objects.queue && !s.objects.queue[e].deleteAfterQuarantine)
    && (forall o :: o in s.objects.storage <==>
          o in s0.objects.storage && (Garbage(s0, o) ==> Waits(s.mode.sweep, o)))
    && (forall o :: o in s.objects.storage ==> s.objects.storage[o] == s0.objects.storage[o])
    && (forall o :: o in s.files <==> o in s0.files && (Garbage(s0, o) ==> WaitsToMove(s.mode.sweep, o)))
  }

  lemma MovedIsCollected(cat: Contents, s0: Sys, s: Sys)
    requires Collected(s0, s) && Next(cat, s, MoveFile).Some?
    ensures Collected(s0, Next(cat, s, MoveFile).value)
  {
    var s' := Next(cat, s, MoveFile).value;
    var e := s.mode.sweep.current.entry;
    SweepStaysOld(cat, s, MoveFile);
    assert UncompletedEntries(s'.mode.sweep) == UncompletedEntries(s.mode.sweep);
    forall o ensures Waits(s'.mode.sweep, o) <==> Waits(s.mode.sweep, o) {
    }
    forall o ensures WaitsToMove(s'.mode.sweep, o) <==> WaitsToMove(s.mode.sweep, o) && o != e.target {
      TargetsDiffer(s, e, o);
      if WaitsToMove(s.mode.sweep, o) && o != e.target {
        var f: EntryId :| f.target == o && (f in s.mode.sweep.todo || s.mode.sweep.current == At(f, Condemned));
        assert f in s'.mode.sweep.todo;
      }
    }
  }

  /** No other entry of the sweep has the object of the current one. */
  lemma TargetsDiffer(s: Sys, e: EntryId, o: Obj)
    requires SweepIsOld(s) && s.mode.Collecting? && s.mode.sweep.current.At? && s.mode.sweep.current.entry == e
    requires e in UncompletedEntries(s.mode.sweep)
    ensures forall f :: f in s.mode.sweep.todo ==> f.target != e.target
  {
    forall f | f in s.mode.sweep.todo ensures f.target != e.target {
      assert f in UncompletedEntries(s.mode.sweep);
      assert f == EntryId(f.operation, f.target) && e == EntryId(e.operation, e.target);
    }
  }

  lemma CompletedIsCollected(cat: Contents, s0: Sys, s: Sys)
    requires SysOk(cat, s) && Collected(s0, s) && Next(cat, s, CompleteEntry).Some?
    ensures Collected(s0, Next(cat, s, CompleteEntry).value)
  {
    var s' := Next(cat, s, CompleteEntry).value;
    var e := s.mode.sweep.current.entry;
    SweepStaysOld(cat, s, CompleteEntry);
    SweepKeepsReach(s.objects.edges, ProtectedRoots(s.history, s.clock), e.target);
    TargetsDiffer(s, e, e.target);
    assert UncompletedEntries(s'.mode.sweep) == s.mode.sweep.todo;
    forall o ensures Waits(s'.mode.sweep, o) <==> Waits(s.mode.sweep, o) && o != e.target {
      if Waits(s.mode.sweep, o) && o != e.target {
        var f :| f in UncompletedEntries(s.mode.sweep) && f.target == o;
        assert f in s'.mode.sweep.todo;
      }
    }
    forall o ensures WaitsToMove(s'.mode.sweep, o) <==> WaitsToMove(s.mode.sweep, o) {
    }
  }

  lemma RecheckedIsCollected(cat: Contents, s0: Sys, s: Sys, e: EntryId)
    requires HistoryOk(s0.history) && Collected(s0, s) && Next(cat, s, Recheck(e)).Some?
    ensures Collected(s0, Next(cat, s, Recheck(e)).value)
  {
    var s' := Next(cat, s, Recheck(e)).value;
    assert e in UncompletedEntries(s.mode.sweep);
    ReachableIsHeld(s0, e.target);
    SweepStaysOld(cat, s, Recheck(e));
    assert UncompletedEntries(s'.mode.sweep) == UncompletedEntries(s.mode.sweep);
    forall o ensures Waits(s'.mode.sweep, o) <==> Waits(s.mode.sweep, o) {
    }
    forall o ensures WaitsToMove(s'.mode.sweep, o) <==> WaitsToMove(s.mode.sweep, o) {
      if WaitsToMove(s.mode.sweep, o) {
        var f: EntryId :| f.target == o && (f in s.mode.sweep.todo || s.mode.sweep.current == At(f, Condemned));
        assert f in s'.mode.sweep.todo || s'.mode.sweep.current == At(f, Condemned);
      }
    }
  }

  lemma RemovedIsCollected(cat: Contents, s0: Sys, s: Sys, l: Label)
    requires Collected(s0, s) && (l.RemoveFile? || l.MarkDeleted?) && Next(cat, s, l).Some?
    ensures Collected(s0, Next(cat, s, l).value)
  {
    var s' := Next(cat, s, l).value;
    SweepStaysOld(cat, s, l);
    RemovalWaits(cat, s, l);
    forall e | e in UncompletedEntries(s'.mode.sweep)
      ensures e in s'.objects.queue && !s'.objects.queue[e].deleteAfterQuarantine
    {
      SharedStepKeepsEntries(cat, s, l, e);
    }
  }

  lemma RemovalWaits(cat: Contents, s: Sys, l: Label)
    requires s.mode.Collecting? && (l.RemoveFile? || l.MarkDeleted?) && Next(cat, s, l).Some?
    ensures var s' := Next(cat, s, l).value;
            && s'.mode.Collecting? && s'.clock == s.clock && s'.history == s.history && s'.files == s.files
            && s'.objects == s.objects.(queue := s'.objects.queue)
            && UncompletedEntries(s'.mode.sweep) == UncompletedEntries(s.mode.sweep)
            && (forall o :: Waits(s'.mode.sweep, o) <==> Waits(s.mode.sweep, o))
            && (forall o :: WaitsToMove(s'.mode.sweep, o) <==> WaitsToMove(s.mode.sweep, o))
  {
    var s' := Next(cat, s, l).value;
    assert UncompletedEntries(s'.mode.sweep) == UncompletedEntries(s.mode.sweep);
  }

  lemma SmoothStepCollects(cat: Contents, s0: Sys, s: Sys, l: Label)
    requires HistoryOk(s0.history) && SysOk(cat, s) && Collected(s0, s) && Smooth(l) && Next(cat, s, l).Some?
    ensures Collected(s0, Next(cat, s, l).value)
  {
    match l
    case Recheck(e) => RecheckedIsCollected(cat, s0, s, e);
    case MoveFile => MovedIsCollected(cat, s0, s);
    case CompleteEntry => CompletedIsCollected(cat, s0, s);
    case _ => RemovedIsCollected(cat, s0, s, l);
  }

  lemma {:induction false} SmoothRunCollects(cat: Contents, states: seq<Sys>, labels: seq<Label>, i: nat, j: nat)
    requires Run(cat, states, labels) && i < j < |states|
    requires labels[i].StartGc? && states[i].mode.Serving? && states[i + 1].mode.Collecting?
    requires forall k :: i < k < j ==> Smooth(labels[k])
    ensures Collected(states[i], states[j])
    decreases j - i
  {
    RunKeeps(cat, states, labels, i);
    if j == i + 1 {
      assert StepAt(cat, states, labels, i);
      StartCollects(cat, states[i], labels[i]);
    } else {
      SmoothRunCollects(cat, states, labels, i, j - 1);
      RunKeeps(cat, states, labels, j - 1);
      assert StepAt(cat, states, labels, j - 1);
      SmoothStepCollects(cat, states[i], states[j - 1], labels[j - 1]);
    }
  }

  lemma StartCollects(cat: Contents, s: Sys, l: Label)
    requires SysOk(cat, s) && s.mode.Serving? && l.StartGc? && Next(cat, s, l).Some?
    requires Next(cat, s, l).value.mode.Collecting?
    ensures Collected(s, Next(cat, s, l).value)
  {
    var s' := Next(cat, s, l).value;
    CollectionQueuesGarbage(cat, s, l);
    SweepStartsOld(cat, s, l);
    forall o | Garbage(s, o) ensures Waits(s'.mode.sweep, o) && WaitsToMove(s'.mode.sweep, o) {
      assert EntryId(l.operation, o).target == o && EntryId(l.operation, o) in s'.mode.sweep.todo;
    }
  }

  /** A collection during which nothing fails takes the row and the file of exactly what was garbage when it
      began. */
  lemma SmoothSweepTakesExactlyGarbage(cat: Contents, states: seq<Sys>, labels: seq<Label>, i: nat, j: nat)
    requires Run(cat, states, labels) && i < j < |labels|
    requires labels[i].StartGc? && states[i].mode.Serving? && states[i + 1].mode.Collecting?
    requires forall k :: i < k < j ==> Smooth(labels[k])
    requires labels[j].FinishSweep?
    ensures forall o :: o in states[j + 1].objects.storage <==>
      o in states[i].objects.storage && !Garbage(states[i], o)
    ensures forall o :: o in states[j + 1].files <==> o in states[i].files && !Garbage(states[i], o)
  {
    SmoothRunCollects(cat, states, labels, i, j);
    RunKeeps(cat, states, labels, i);
    RunKeeps(cat, states, labels, j);
    assert StepAt(cat, states, labels, j);
    assert states[j].mode.sweep == Sweep({}, Idle);
    assert states[j + 1] == states[j].(mode := Serving(map[]));
    assert forall o :: !Waits(states[j].mode.sweep, o) && !WaitsToMove(states[j].mode.sweep, o);
  }

  /** Every row that such a collection leaves is less than an hour old or held by a revision that can come back. */
  lemma SmoothSweepLeavesYoungOrHeld(cat: Contents, states: seq<Sys>, labels: seq<Label>, i: nat, j: nat, o: Obj)
    requires Run(cat, states, labels) && i < j < |labels|
    requires labels[i].StartGc? && states[i].mode.Serving? && states[i + 1].mode.Collecting?
    requires forall k :: i < k < j ==> Smooth(labels[k])
    requires labels[j].FinishSweep?
    requires o in states[j + 1].objects.storage
    ensures states[j + 1].clock < states[j + 1].objects.storage[o].createdAt + 3_600_000 || Held(states[j + 1], o)
  {
    PlanAfterSweepIsEmpty(cat, states, labels, i, j);
    RunKeeps(cat, states, labels, j + 1);
    PlanIsGarbage(states[j + 1], o);
  }
}
