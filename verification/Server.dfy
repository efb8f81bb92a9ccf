/**
 The server as a state machine: uploads and commits hold the gate shared, truncation, restoring,
 purging and garbage collection hold it exclusively.  One database transaction, one rename or one
 file removal is one step; the process may crash, or a handler fail, between any two steps.
 */
module Server {
  import opened Basics
  import opened ObjectGraph
  import opened Metadata
  import opened Catalog

  /** A handler that holds the gate shared. */
  datatype Task =
    | Upload(target: Obj)
    | Commit(namespace: NamespaceId, root: RevisionId,
             expectedHead: Option<RevisionId>, expectedEpoch: nat, done: nat)

  /** Where `process_gc_entries` is with its current entry. */
  datatype Phase = Condemned | Moved | Completed | Removed

  datatype Current = Idle | At(entry: EntryId, phase: Phase)

  datatype Sweep = Sweep(todo: set<EntryId>, current: Current)

  datatype Mode =
    | Down
    | Booting(sweep: Sweep)       // resume_pending_gc, pending entries
    | Emptying(sweep: Sweep)      // resume_pending_gc, quarantined entries
    | Serving(tasks: map<nat, Task>)
    | Collecting(sweep: Sweep)    // the gate is held exclusively

  datatype Sys = Sys(
    clock: Time, history: History, objects: Objects,
    files: set<Obj>, quarantine: set<EntryId>, mode: Mode)

  datatype Label =
    | Tick(delta: nat)
    | CreateNamespace(ns: NamespaceId)
    | StartUpload(task: nat, target: Obj)
    | FinishUpload(task: nat)
    | StartCommit(task: nat, ns: NamespaceId, root: RevisionId, head: Option<RevisionId>, epoch: nat)
    | RunCheck(task: nat)
    | FinishCommit(task: nat)
    | FailTask(task: nat)
    | Truncate(ns: NamespaceId, head: Option<RevisionId>, epoch: nat, newHead: Option<RevisionId>, op: OperationId)
    | Restore(ns: NamespaceId, op: OperationId, head: Option<RevisionId>, epoch: nat)
    | StartPurge(ns: NamespaceId, requested: seq<OperationId>, purgeAll: bool, operation: OperationId)
    | StartGc(fingerprint: map<Obj, nat>, operation: OperationId)
    | Recheck(entry: EntryId)
    | MoveFile
    | CompleteEntry
    | StartRemoval(entry: EntryId)
    | RemoveFile
    | MarkDeleted
    | FinishSweep
    | FailSweep
    | Crash
    | Boot

  predicate Initial(s: Sys) {
    && s.history == History(map[], map[], map[], map[])
    && s.objects == Objects(map[], {}, map[])
    && s.files == {} && s.quarantine == {}
    && s.mode == Serving(map[])
  }

  // ----- shared handlers -----

  /** The revision row that a validated root document describes. */
  function RevisionOf(cat: Contents, root: RevisionId): NewRevision
    requires ContentOf(cat, RootObject(root)).RevisionDocument?
  {
    var d := ContentOf(cat, RootObject(root));
    NewRevision(root, d.namespace, d.parent, d.details, 4)
  }

  /** The answer of the transaction that ends a commit whose checks have all passed. */
  function CommitAnswer(cat: Contents, h: History, c: Task): Result<(History, CommitOutcome), MetadataError>
    requires c.Commit?
  {
    var d := ContentOf(cat, RootObject(c.root));
    if !d.RevisionDocument? || d.namespace != c.namespace || d.parent != c.expectedHead then Err(RevisionConflict)
    else CommitRevisionRoot(h, c.expectedHead, c.expectedEpoch, RevisionOf(cat, c.root))
  }

  /** One check of the validation against the object files and the edge table. */
  function PerformCheck(cat: Contents, files: set<Obj>, objects: Objects, check: Check): Option<Objects> {
    match check
    case Find(o, length) =>
      if o in files && (length.Some? ==> o in cat && cat[o].byteLength == length.value) then Some(objects) else None
    case Link(owner, targets) =>
      var replaced := ReplaceObjectEdges(objects, owner, targets);
      if replaced.Ok? then Some(replaced.value) else None
    case Reject => None
  }

  function NextTask(cat: Contents, s: Sys, l: Label): Option<Sys>
    requires s.mode.Serving?
  {
    var tasks := s.mode.tasks;
    match l
    case StartUpload(t, o) =>
      if t in tasks || o !in cat then None
      else Some(s.(files := s.files + {o}, mode := Serving(tasks[t := Upload(o)])))
    case FinishUpload(t) =>
      if t !in tasks || !tasks[t].Upload? || tasks[t].target !in cat then None
      else
        var o := tasks[t].target;
        Some(s.(objects := RecordStorageObject(s.objects, o, cat[o].byteLength, s.clock),
                mode := Serving(tasks - {t})))
    case StartCommit(t, ns, root, head, epoch) =>
      if t in tasks then None
      else Some(s.(mode := Serving(tasks[t := Commit(ns, root, head, epoch, 0)])))
    case RunCheck(t) =>
      if t !in tasks || !tasks[t].Commit? || tasks[t].done >= |RootChecks(cat, tasks[t].root)| then None
      else
        var c := tasks[t];
        var objects := PerformCheck(cat, s.files, s.objects, RootChecks(cat, c.root)[c.done]);
        if objects.None? then Some(s.(mode := Serving(tasks - {t})))
        else Some(s.(objects := objects.value, mode := Serving(tasks[t := c.(done := c.done + 1)])))
    case FinishCommit(t) =>
      if t !in tasks || !tasks[t].Commit? || tasks[t].done < |RootChecks(cat, tasks[t].root)| then None
      else
        var answer := CommitAnswer(cat, s.history, tasks[t]);
        Some(s.(history := if answer.Ok? then answer.value.0 else s.history, mode := Serving(tasks - {t})))
    case FailTask(t) =>
      if t !in tasks then None else Some(s.(mode := Serving(tasks - {t})))
    case _ => None
  }

  // ----- exclusive handlers -----

  /** A step that must find the gate free: no upload and no commit is under way. */
  function NextExclusive(cat: Contents, s: Sys, l: Label): Option<Sys>
    requires s.mode == Serving(map[])
  {
    match l
    case Truncate(ns, head, epoch, newHead, op) =>
      var r := TruncateHistory(s.history, ns, head, epoch, newHead, op, s.clock);
      Some(s.(history := if r.Ok? then r.value else s.history))
    case Restore(ns, op, head, epoch) =>
      var r := RestoreHistoryTrash(s.history, ns, op, head, epoch, s.clock);
      Some(s.(history := if r.Ok? then r.value else s.history))
    case StartPurge(ns, requested, purgeAll, operation) =>
      var plan := BuildPurgePlan(s.history, s.objects, ns, requested, purgeAll);
      if plan.Err? then Some(s)
      else
        var r := CommitPurge(s.history, s.objects, ns, plan.value, operation, s.clock);
        if r.Err? then Some(s)
        else Some(s.(history := r.value.0, objects := r.value.1,
                     mode := Collecting(Sweep(r.value.2.Keys, Idle))))
    case StartGc(fingerprint, operation) =>
      var r := EnqueueGc(s.history, s.objects, fingerprint, operation, s.clock);
      if r.Err? then Some(s)
      else Some(s.(objects := r.value.0, mode := Collecting(Sweep(r.value.1.Keys, Idle))))
    case _ => None
  }

  function WithSweep(s: Sys, sweep: Sweep): Sys
    requires s.mode.Booting? || s.mode.Emptying? || s.mode.Collecting?
  {
    s.(mode :=
      if s.mode.Booting? then Booting(sweep) else if s.mode.Emptying? then Emptying(sweep) else Collecting(sweep))
  }

  function PendingEntries(objects: Objects): set<EntryId> {
    set e | e in objects.queue && objects.queue[e].state == Pending
  }

  function UndeletedEntries(objects: Objects): set<EntryId> {
    set e | e in objects.queue && objects.queue[e].state == Quarantined && objects.queue[e].deleteAfterQuarantine
  }

  /** `process_gc_entries`, `purge_gc_entry` and `resume_pending_gc`, one effect at a time. */
  function NextSweep(s: Sys, l: Label): Option<Sys>
    requires s.mode.Booting? || s.mode.Emptying? || s.mode.Collecting?
  {
    var sweep := s.mode.sweep;
    match l
    case Recheck(e) =>
      if sweep.current != Idle || e !in sweep.todo || s.mode.Emptying? then None
      else if e.target in Reachable(s.history, s.objects, s.clock) then
        Some(WithSweep(s.(objects := CancelGcEntry(s.objects, e)), Sweep(sweep.todo - {e}, Idle)))
      else Some(WithSweep(s, Sweep(sweep.todo - {e}, At(e, Condemned))))
    case MoveFile =>
      if sweep.current.Idle? || sweep.current.phase != Condemned then None
      else
        var e := sweep.current.entry;
        Some(WithSweep(s.(files := s.files - {e.target},
                          quarantine := if e.target in s.files then s.quarantine + {e} else s.quarantine),
                       Sweep(sweep.todo, At(e, Moved))))
    case CompleteEntry =>
      if sweep.current.Idle? || sweep.current.phase != Moved then None
      else
        var e := sweep.current.entry;
        var deleting := e in s.objects.queue && s.objects.queue[e].deleteAfterQuarantine;
        Some(WithSweep(s.(objects := CompleteGcEntry(s.objects, e)),
                       Sweep(sweep.todo, if deleting then At(e, Completed) else Idle)))
    case StartRemoval(e) =>
      if !s.mode.Emptying? || sweep.current != Idle || e !in sweep.todo then None
      else Some(WithSweep(s, Sweep(sweep.todo - {e}, At(e, Completed))))
    case RemoveFile =>
      if sweep.current.Idle? || sweep.current.phase != Completed then None
      else Some(WithSweep(s.(quarantine := s.quarantine - {sweep.current.entry}),
                          Sweep(sweep.todo, At(sweep.current.entry, Removed))))
    case MarkDeleted =>
      if sweep.current.Idle? || sweep.current.phase != Removed then None
      else Some(WithSweep(s.(objects := MarkGcEntryPurged(s.objects, sweep.current.entry)), Sweep(sweep.todo, Idle)))
    case FinishSweep =>
      if sweep != Sweep({}, Idle) then None
      else if s.mode.Booting? then Some(s.(mode := Emptying(Sweep(UndeletedEntries(s.objects), Idle))))
      else Some(s.(mode := Serving(map[])))
    case FailSweep =>
      Some(s.(mode := if s.mode.Collecting? then Serving(map[]) else Down))
    case _ => None
  }

  /** The state after step `l`, if `l` can be taken. */
  function Next(cat: Contents, s: Sys, l: Label): Option<Sys> {
    match l
    case Tick(delta) => Some(s.(clock := s.clock + delta))
    case Crash => Some(s.(mode := Down))
    case Boot =>
      if s.mode.Down? then Some(s.(mode := Booting(Sweep(PendingEntries(s.objects), Idle)))) else None
    case CreateNamespace(ns) =>
      if s.mode.Down? || s.mode.Booting? || s.mode.Emptying? || ns in s.history.namespaces then None
      else Some(s.(history := s.history.(namespaces := s.history.namespaces[ns := Namespace(None, 0)])))
    case _ => NextGated(cat, s, l)
  }

  function NextGated(cat: Contents, s: Sys, l: Label): Option<Sys> {
    if s.mode.Down? then None
    else if !s.mode.Serving? then NextSweep(s, l)
    else if l.Truncate? || l.Restore? || l.StartPurge? || l.StartGc? then
      (if s.mode.tasks == map[] then NextExclusive(cat, s, l) else None)
    else NextTask(cat, s, l)
  }

  /** A run: `states[i + 1]` follows `states[i]` by step `labels[i]`. */
  ghost predicate Run(cat: Contents, states: seq<Sys>, labels: seq<Label>) {
    && |states| == |labels| + 1
    && Initial(states[0])
    && forall i: nat {:trigger StepAt(cat, states, labels, i)} :: i < |labels| ==> StepAt(cat, states, labels, i)
  }

  ghost predicate StepAt(cat: Contents, states: seq<Sys>, labels: seq<Label>, i: nat)
    requires |states| == |labels| + 1 && i < |labels|
  {
    Next(cat, states[i], labels[i]) == Some(states[i + 1])
  }
}
