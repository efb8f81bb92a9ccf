/** What sweeps achieve: restarts drain the queue, a finished sweep leaves nothing to collect. */
module GcRuns {
  import opened Basics
  import opened ObjectGraph
  import opened Metadata
  import opened HistoryInvariant
  import opened Catalog
  import opened Server
  import opened GcSafety

  // ----- only garbage leaves the store -----

  /** What the content graphs of the protected revisions hold. */
  ghost function Restorable(cat: Contents, h: History, now: Time): set<Obj> {
    set r, o | r in h.revisions && Protected(h, r, now) && o in ContentGraph(cat, r) :: o
  }

  /** The recursive query over the edge table finds exactly what the protected revisions are made of. */
  lemma ReachableIsRestorable(cat: Contents, s: Sys)
    requires SysOk(cat, s)
    ensures Reachable(s.history, s.objects, s.clock) == Restorable(cat, s.history, s.clock)
  {
    var kept := Restorable(cat, s.history, s.clock);
    forall r | Protected(s.history, r, s.clock)
      ensures RootObject(s.history.roots[r].sha256) in kept
              && ContentGraph(cat, r) <= Reachable(s.history, s.objects, s.clock)
    {
      assert RevisionOk(s.history, r);
      ProtectedIsReachable(cat, s, r);
      assert RootObject(r) in ContentGraph(cat, r);
    }
    forall e | e in s.objects.edges && e.owner in kept ensures e.target in kept {
      var r :| r in s.history.revisions && Protected(s.history, r, s.clock) && e.owner in ContentGraph(cat, r);
      assert e in ContentEdges(cat);
    }
    ReachLeast(s.objects.edges, ProtectedRoots(s.history, s.clock), kept);
  }

  lemma SweepMovesGarbage(cat: Contents, s: Sys, l: Label, o: Obj)
    requires SysOk(cat, s) && (s.mode.Booting? || s.mode.Emptying? || s.mode.Collecting?)
    requires NextSweep(s, l).Some? && o in s.files && o !in NextSweep(s, l).value.files
    ensures l.MoveFile? && o !in Reachable(s.history, s.objects, s.clock)
  {
  }

  lemma SharedStepsAddFiles(cat: Contents, s: Sys, l: Label)
    requires s.mode.Serving? && NextTask(cat, s, l).Some?
    ensures s.files <= NextTask(cat, s, l).value.files
  {
  }

  lemma ExclusiveStepsKeepFiles(cat: Contents, s: Sys, l: Label)
    requires s.mode == Serving(map[]) && NextExclusive(cat, s, l).Some?
    ensures NextExclusive(cat, s, l).value.files == s.files
  {
  }

  lemma OnlyMoveFileMoves(cat: Contents, s: Sys, l: Label, o: Obj)
    requires SysOk(cat, s) && Next(cat, s, l).Some?
    requires o in s.files && o !in Next(cat, s, l).value.files
    ensures l.MoveFile?
    ensures o !in Reachable(s.history, s.objects, s.clock)
  {
    if !s.mode.Serving? {
      assert NextGated(cat, s, l) == Next(cat, s, l);
      SweepMovesGarbage(cat, s, l, o);
    } else if l.Truncate? || l.Restore? || l.StartPurge? || l.StartGc? {
      ExclusiveStepsKeepFiles(cat, s, l);
    } else if NextTask(cat, s, l).Some? {
      SharedStepsAddFiles(cat, s, l);
    }
  }

  /** A step that takes a file out of the store takes one that nothing restorable reaches. */
  lemma OnlyGarbageIsMoved(cat: Contents, s: Sys, l: Label, o: Obj)
    requires SysOk(cat, s) && Next(cat, s, l).Some?
    requires o in s.files && o !in Next(cat, s, l).value.files
    ensures l.MoveFile?
    ensures o !in Reachable(s.history, s.objects, s.clock)
    ensures forall r :: Protected(s.history, r, s.clock) ==> o !in ContentGraph(cat, r)
  {
    OnlyMoveFileMoves(cat, s, l, o);
    ReachableIsRestorable(cat, s);
    assert o !in Restorable(cat, s.history, s.clock);
  }

  /** Permanently deleting trash condemns only what the purged tables no longer reach. */
  lemma PurgeCondemnsUnreachable(h: History, objects: Objects, ns: NamespaceId, expected: PurgePlan,
                                 operation: OperationId, now: Time)
    requires CommitPurge(h, objects, ns, expected, operation, now).Ok?
    ensures var (h', objects', entries) := CommitPurge(h, objects, ns, expected, operation, now).value;
            && h' == PurgeRevisions(h, ns, expected.operations)
            && (forall e :: e in entries ==>
                  && e.operation == operation && e.target !in Reachable(h', objects', now)
                  && e.target in expected.candidates && entries[e].deleteAfterQuarantine)
            && (forall o :: o in expected.candidates && o !in Reachable(h', objects', now)
                  ==> EntryId(operation, o) in entries)
  {
    var (h', objects', entries) := CommitPurge(h, objects, ns, expected, operation, now).value;
    assert objects'.edges == objects.edges;
    forall o | o in expected.candidates && o !in Reachable(h', objects', now)
      ensures EntryId(operation, o) in entries
    {
      assert EntryId(operation, o).target == o;
    }
  }

  /** A purge queues, of all it planned, exactly what no revision that can still be restored is made of. */
  lemma PurgeQueuesTheRest(cat: Contents, s: Sys, l: Label, o: Obj)
    requires SysOk(cat, s) && s.mode == Serving(map[]) && l.StartPurge?
    requires Next(cat, s, l).Some? && Next(cat, s, l).value.mode.Collecting?
    ensures var s' := Next(cat, s, l).value;
            var plan := BuildPurgePlan(s.history, s.objects, l.ns, l.requested, l.purgeAll);
            && plan.Ok?
            && (EntryId(l.operation, o) in s'.mode.sweep.todo <==>
                  o in plan.value.candidates && o !in Restorable(cat, s'.history, s'.clock))
  {
    var s' := Next(cat, s, l).value;
    var plan := BuildPurgePlan(s.history, s.objects, l.ns, l.requested, l.purgeAll).value;
    StepKeeps(cat, s, l);
    ReachableIsRestorable(cat, s');
    PurgeCondemnsUnreachable(s.history, s.objects, l.ns, plan, l.operation, s.clock);
  }

  // ----- a restart drains the queue -----

  function Handled(sweep: Sweep): set<EntryId> {
    sweep.todo + if sweep.current.At? then {sweep.current.entry} else {}
  }

  ghost predicate Unmoved(sweep: Sweep) {
    sweep.current.At? ==> sweep.current.phase == Completed || sweep.current.phase == Removed
  }

  ghost predicate DeletedIsGone(s: Sys) {
    forall e :: e in s.objects.queue && s.objects.queue[e].state == Deleted ==> e !in s.quarantine
  }

  ghost predicate QueueOk(s: Sys) {
    && DeletedIsGone(s)
    && match s.mode
       case Down => true
       case Serving(_) => true
       case Booting(sweep) =>
         && ActingOnPending(s, sweep)
         && PendingEntries(s.objects) <= Handled(sweep)
       case Collecting(sweep) => ActingOnPending(s, sweep)
       case Emptying(sweep) =>
         && PendingEntries(s.objects) == {}
         && UndeletedEntries(s.objects) <= Handled(sweep)
         && Unmoved(sweep)
         && RemovedIsGone(s, sweep)
  }

  ghost predicate RemovedIsGone(s: Sys, sweep: Sweep) {
    sweep.current.At? && sweep.current.phase == Removed ==> sweep.current.entry !in s.quarantine
  }

  /** The entries being processed are still pending until they are completed. */
  ghost predicate ActingOnPending(s: Sys, sweep: Sweep) {
    && sweep.todo <= PendingEntries(s.objects)
    && (sweep.current.At? && (sweep.current.phase == Condemned || sweep.current.phase == Moved) ==>
          sweep.current.entry in PendingEntries(s.objects))
    && (sweep.current.At? && (sweep.current.phase == Completed || sweep.current.phase == Removed) ==>
          sweep.current.entry !in PendingEntries(s.objects))
    && (sweep.current.At? ==> sweep.current.entry !in sweep.todo)
    && RemovedIsGone(s, sweep)
  }

  lemma SweepKeepsQueue(s: Sys, l: Label)
    requires QueueOk(s) && (s.mode.Booting? || s.mode.Emptying? || s.mode.Collecting?) && NextSweep(s, l).Some?
    ensures QueueOk(NextSweep(s, l).value)
  {
    var s' := NextSweep(s, l).value;
    var sweep := s.mode.sweep;
    match l
    case Recheck(e) => assert e in PendingEntries(s.objects);
    case MoveFile => assert sweep.current.entry in PendingEntries(s.objects);
    case CompleteEntry =>
      var e := sweep.current.entry;
      assert e in PendingEntries(s.objects);
      assert PendingEntries(s'.objects) == PendingEntries(s.objects) - {e};
    case MarkDeleted =>
      assert UndeletedEntries(s'.objects) <= UndeletedEntries(s.objects) - {sweep.current.entry};
    case _ =>
  }

  lemma TaskKeepsQueue(cat: Contents, s: Sys, l: Label)
    requires QueueOk(s) && s.mode.Serving? && NextTask(cat, s, l).Some?
    ensures QueueOk(NextTask(cat, s, l).value)
  {
  }

  lemma ExclusiveKeepsQueue(cat: Contents, s: Sys, l: Label)
    requires QueueOk(s) && s.mode == Serving(map[]) && NextExclusive(cat, s, l).Some?
    ensures QueueOk(NextExclusive(cat, s, l).value)
  {
    var s' := NextExclusive(cat, s, l).value;
    if s'.mode.Collecting? {
      QueuedIsPending(s, s', s'.mode.sweep.todo);
    } else {
      assert s' == s.(history := s'.history);
    }
  }

  lemma QueuedIsPending(s: Sys, s': Sys, queued: set<EntryId>)
    requires QueueOk(s) && s'.quarantine == s.quarantine && s'.mode == Collecting(Sweep(queued, Idle))
    requires forall e :: e in queued ==> e in s'.objects.queue && s'.objects.queue[e].state == Pending
    requires forall e :: e in s'.objects.queue && e !in queued ==>
        e in s.objects.queue && s'.objects.queue[e] == s.objects.queue[e]
    ensures QueueOk(s')
  {
  }

  /** The queue invariant holds in every state of every run. */
  lemma {:induction false} RunKeepsQueue(cat: Contents, states: seq<Sys>, labels: seq<Label>, k: nat)
    requires Run(cat, states, labels) && k < |states|
    ensures QueueOk(states[k])
  {
    if k > 0 {
      RunKeepsQueue(cat, states, labels, k - 1);
      var s, l := states[k - 1], labels[k - 1];
      assert StepAt(cat, states, labels, k - 1);
      if !l.Tick? && !l.Crash? && !l.Boot? && !l.CreateNamespace? {
        if !s.mode.Serving? {
          SweepKeepsQueue(s, l);
        } else if l.Truncate? || l.Restore? || l.StartPurge? || l.StartGc? {
          ExclusiveKeepsQueue(cat, s, l);
        } else {
          TaskKeepsQueue(cat, s, l);
        }
      }
    }
  }

  /** A server that starts serving after a restart has no pending and no undeleted entry left, and
      every entry recorded as deleted has lost its quarantined file. */
  lemma RestartDrainsTheQueue(cat: Contents, states: seq<Sys>, labels: seq<Label>, k: nat)
    requires Run(cat, states, labels) && k < |labels|
    requires states[k].mode.Emptying? && states[k + 1].mode.Serving?
    ensures PendingEntries(states[k + 1].objects) == {}
    ensures UndeletedEntries(states[k + 1].objects) == {}
    ensures DeletedIsGone(states[k + 1])
  {
    RunKeepsQueue(cat, states, labels, k);
    assert StepAt(cat, states, labels, k);
  }

  // ----- the recorded lengths -----

  /** Every recorded length is that of the object's bytes. */
  ghost predicate LengthsAgree(cat: Contents, objects: Objects) {
    && (forall o :: o in objects.storage ==> o in cat && objects.storage[o].byteLength == cat[o].byteLength)
    && (forall e :: e in objects.queue ==> e.target in cat && objects.queue[e].byteLength == cat[e.target].byteLength)
  }

  lemma TaskKeepsLengths(cat: Contents, s: Sys, l: Label)
    requires LengthsAgree(cat, s.objects) && s.mode.Serving? && NextTask(cat, s, l).Some?
    ensures LengthsAgree(cat, NextTask(cat, s, l).value.objects)
  {
  }

  lemma QueueingKeepsLengths(cat: Contents, objects: Objects, operation: OperationId, candidates: map<Obj, nat>,
      deleting: bool)
    requires LengthsAgree(cat, objects)
    requires forall o :: o in candidates ==> o in objects.storage && candidates[o] == objects.storage[o].byteLength
    ensures LengthsAgree(cat, objects.(queue := objects.queue + EntriesFor(operation, candidates, deleting)))
  {
    forall e | e in EntriesFor(operation, candidates, deleting) ensures e.target in candidates {
    }
  }

  lemma PurgeKeepsLengths(cat: Contents, h: History, objects: Objects, candidates: map<Obj, nat>,
                          operation: OperationId, now: Time)
    requires LengthsAgree(cat, objects) && EnqueueForPurge(h, objects, candidates, operation, now).Ok?
    ensures LengthsAgree(cat, EnqueueForPurge(h, objects, candidates, operation, now).value.0)
  {
    var reachable := Reachable(h, objects, now);
    QueueingKeepsLengths(cat, objects, operation,
                         map o | o in candidates && o !in reachable && o in objects.storage :: candidates[o], true);
  }

  lemma ExclusiveKeepsLengths(cat: Contents, s: Sys, l: Label)
    requires LengthsAgree(cat, s.objects) && s.mode == Serving(map[]) && NextExclusive(cat, s, l).Some?
    ensures LengthsAgree(cat, NextExclusive(cat, s, l).value.objects)
  {
    if l.StartGc? {
      QueueingKeepsLengths(cat, s.objects, l.operation, GcPlan(s.history, s.objects, s.clock), false);
    } else if l.StartPurge? {
      var plan := BuildPurgePlan(s.history, s.objects, l.ns, l.requested, l.purgeAll);
      if plan.Ok? && CommitPurge(s.history, s.objects, l.ns, plan.value, l.operation, s.clock).Ok? {
        PurgeKeepsLengths(cat, PurgeRevisions(s.history, l.ns, plan.value.operations), s.objects, plan.value.candidates,
                          l.operation, s.clock);
      }
    }
  }

  lemma SweepKeepsLengths(cat: Contents, s: Sys, l: Label)
    requires LengthsAgree(cat, s.objects) && (s.mode.Booting? || s.mode.Emptying? || s.mode.Collecting?)
    requires NextSweep(s, l).Some?
    ensures LengthsAgree(cat, NextSweep(s, l).value.objects)
  {
  }

  /** In every state of every run the store and the queue record the lengths of the uploaded objects. */
  lemma {:induction false} RunKeepsLengths(cat: Contents, states: seq<Sys>, labels: seq<Label>, k: nat)
    requires Run(cat, states, labels) && k < |states|
    ensures LengthsAgree(cat, states[k].objects)
  {
    if k > 0 {
      RunKeepsLengths(cat, states, labels, k - 1);
      var s, l := states[k - 1], labels[k - 1];
      assert StepAt(cat, states, labels, k - 1);
      if !l.Tick? && !l.Crash? && !l.Boot? && !l.CreateNamespace? {
        if !s.mode.Serving? {
          SweepKeepsLengths(cat, s, l);
        } else if l.Truncate? || l.Restore? || l.StartPurge? || l.StartGc? {
          ExclusiveKeepsLengths(cat, s, l);
        } else {
          TaskKeepsLengths(cat, s, l);
        }
      }
    }
  }

  // ----- planning again finds nothing -----

  /** A step that a sweep takes when nothing fails. */
  predicate Smooth(l: Label) {
    l.Recheck? || l.MoveFile? || l.CompleteEntry? || l.RemoveFile? || l.MarkDeleted?
  }

  /** The entries, and their objects, that a sweep has still to complete. */
  function UncompletedEntries(sweep: Sweep): set<EntryId> {
    sweep.todo +
    if sweep.current.At? && (sweep.current.phase == Condemned || sweep.current.phase == Moved)
    then {sweep.current.entry} else {}
  }

  function Uncompleted(sweep: Sweep): set<Obj> {
    set e | e in UncompletedEntries(sweep) :: e.target
  }

  /** What the plan would still collect is what the sweep has still to complete. */
  ghost predicate PlanCovered(s: Sys) {
    s.mode.Collecting? && GcPlan(s.history, s.objects, s.clock).Keys <= Uncompleted(s.mode.sweep)
  }

  lemma SmoothKeepsPlanCovered(cat: Contents, s: Sys, l: Label)
    requires SysOk(cat, s) && PlanCovered(s) && Smooth(l) && Next(cat, s, l).Some?
    ensures PlanCovered(Next(cat, s, l).value)
  {
    var s' := Next(cat, s, l).value;
    if l.CompleteEntry? {
      SweepKeepsReach(s.objects.edges, ProtectedRoots(s.history, s.clock), s.mode.sweep.current.entry.target);
    }
    forall o | o in GcPlan(s'.history, s'.objects, s'.clock) ensures o in Uncompleted(s'.mode.sweep) {
      assert o in GcPlan(s.history, s.objects, s.clock);
      var e: EntryId :| e in UncompletedEntries(s.mode.sweep) && e.target == o;
      assert e in UncompletedEntries(s'.mode.sweep);
    }
  }

  lemma SmoothStepKeepsPlanCovered(cat: Contents, states: seq<Sys>, labels: seq<Label>, j: nat)
    requires Run(cat, states, labels) && j < |labels| && Smooth(labels[j]) && PlanCovered(states[j])
    ensures PlanCovered(states[j + 1])
  {
    RunKeeps(cat, states, labels, j);
    assert StepAt(cat, states, labels, j);
    SmoothKeepsPlanCovered(cat, states[j], labels[j]);
  }

  lemma {:induction false} SmoothRunKeepsPlanCovered(cat: Contents, states: seq<Sys>, labels: seq<Label>, i: nat,
                                                     j: nat)
    requires Run(cat, states, labels) && i <= j < |states|
    requires PlanCovered(states[i])
    requires forall k :: i <= k < j ==> Smooth(labels[k])
    ensures PlanCovered(states[j])
    decreases j - i
  {
    if i < j {
      SmoothRunKeepsPlanCovered(cat, states, labels, i, j - 1);
      SmoothStepKeepsPlanCovered(cat, states, labels, j - 1);
    }
  }

  /** With the clock fixed, planning right after a sweep that did not fail finds no candidate. */
  lemma PlanAfterSweepIsEmpty(cat: Contents, states: seq<Sys>, labels: seq<Label>, i: nat, j: nat)
    requires Run(cat, states, labels) && i < j < |labels|
    requires labels[i].StartGc? && states[i].mode.Serving? && states[i + 1].mode.Collecting?
    requires forall k :: i < k < j ==> Smooth(labels[k])
    requires labels[j].FinishSweep?
    ensures states[j + 1].mode == Serving(map[])
    ensures GcPlan(states[j + 1].history, states[j + 1].objects, states[j + 1].clock) == map[]
  {
    assert StepAt(cat, states, labels, i);
    EnqueuedPlanIsCovered(cat, states[i], labels[i]);
    SmoothRunKeepsPlanCovered(cat, states, labels, i + 1, j);
    assert StepAt(cat, states, labels, j);
    FinishedSweep(cat, states[j]);
  }

  lemma FinishedSweep(cat: Contents, s: Sys)
    requires PlanCovered(s) && Next(cat, s, FinishSweep).Some?
    ensures Next(cat, s, FinishSweep).value == s.(mode := Serving(map[]))
    ensures GcPlan(s.history, s.objects, s.clock) == map[]
  {
  }

  lemma EnqueuedPlanIsCovered(cat: Contents, s: Sys, l: Label)
    requires l.StartGc? && Next(cat, s, l).Some? && Next(cat, s, l).value.mode.Collecting? && !s.mode.Collecting?
    ensures PlanCovered(Next(cat, s, l).value)
  {
    var s' := Next(cat, s, l).value;
    var plan := GcPlan(s.history, s.objects, s.clock);
    assert s'.mode.sweep == Sweep(EntriesFor(l.operation, plan, false).Keys, Idle);
    forall o | o in GcPlan(s'.history, s'.objects, s'.clock) ensures o in Uncompleted(s'.mode.sweep) {
      assert o in plan;
      assert EntryId(l.operation, o) in UncompletedEntries(s'.mode.sweep);
    }
  }
}
