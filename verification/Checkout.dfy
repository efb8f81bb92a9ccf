/**
 Checkout as a state machine over its journal: staging, database backups, swaps, database edits,
 validation, the tracking update, rollback and recovery.  One rename, one database transaction or
 one journal write is one step; the process may crash between any two steps, and any operation may
 fail.  Directory swaps and file swaps form one list: applied in order, rolled back in reverse.
 */
module Checkout {
  import opened Basics
  import opened Tracking

  type Tree = nat
  type Database = nat
  type Hashes = nat

  datatype Area = Live | Staged | Backup | Failed

  /** The place of swap `swap` in the home, in staging, in the backups, or among the failed. */
  datatype Path = Path(area: Area, swap: nat)

  type Files = map<Path, Tree>

  datatype Status =
    | Preparing | BackedUp | Applying | Validating | LocalApplied | Completed | RolledBack | RecoveryRequired

  /** `backups` counts the database backups recorded so far. */
  datatype Journal = Journal(status: Status, backups: nat)

  /** The content a swap must install; only file swaps carry a hash. */
  datatype Swap = Swap(originalExisted: bool, expected: Option<Tree>)

  datatype Home = Home(trees: seq<Option<Tree>>, databases: seq<Database>)

  datatype Update = Update(key: Key, expected: Option<U64>, head: Option<nat>, activate: bool)

  /** What an operation fixes before it starts.  `scan` reads a home; a scan with warnings is None. */
  datatype Plan = Plan(
    swaps: seq<Swap>, original: Home, expectedHashes: Hashes,
    scan: Home -> Option<Hashes>, update: Option<Update>)

  ghost predicate PlanOk(plan: Plan) {
    && |plan.original.trees| == |plan.swaps|
    && forall i :: 0 <= i < |plan.swaps| ==> plan.swaps[i].originalExisted == plan.original.trees[i].Some?
  }

  /** What survives a crash. */
  datatype Disk = Disk(
    files: Files, databases: seq<Database>, backups: map<nat, Database>,
    journal: Option<Journal>, tracking: Tables)

  function At(files: Files, area: Area, i: nat): Option<Tree> {
    if Path(area, i) in files then Some(files[Path(area, i)]) else None
  }

  function HomeOf(plan: Plan, d: Disk): Home {
    Home(seq(|plan.swaps|, i requires 0 <= i < |plan.swaps| => At(d.files, Live, i)), d.databases)
  }

  /** `validate_checkout_result` and `validate_file_swaps`: the home is what the checkout promised. */
  predicate HomeMatches(plan: Plan, d: Disk) {
    && plan.scan(HomeOf(plan, d)) == Some(plan.expectedHashes)
    && forall i :: 0 <= i < |plan.swaps| && plan.swaps[i].expected.Some? ==>
         At(d.files, Live, i) == plan.swaps[i].expected
  }

  // ----- single operations on files -----

  function Rename(files: Files, from: Path, to: Path): Files
    requires from in files
  {
    (files - {from})[to := files[from]]
  }

  /** First half of a swap: the live tree moves to the backup place, which must be free. */
  function MoveOut(files: Files, i: nat): Option<Files> {
    if Path(Backup, i) in files then None
    else if Path(Live, i) in files then Some(Rename(files, Path(Live, i), Path(Backup, i)))
    else Some(files)
  }

  /** Second half of a swap: the staged tree becomes the live tree. */
  function MoveIn(files: Files, i: nat): Option<Files> {
    if Path(Staged, i) in files then Some(Rename(files, Path(Staged, i), Path(Live, i))) else None
  }

  /** Whether rollback finds that the swap had begun. */
  predicate SwapStarted(files: Files, i: nat, originalExisted: bool) {
    Path(Backup, i) in files || (!originalExisted && Path(Live, i) in files)
  }

  /** First half of undoing a swap; None when the place for the failed tree is taken. */
  function SetAside(files: Files, i: nat, originalExisted: bool): Option<Files> {
    if SwapStarted(files, i, originalExisted) && Path(Live, i) in files then
      if Path(Failed, i) in files then None else Some(Rename(files, Path(Live, i), Path(Failed, i)))
    else Some(files)
  }

  /** Second half of undoing a swap. */
  function PutBack(files: Files, i: nat): Files {
    if Path(Backup, i) in files && Path(Live, i) !in files then Rename(files, Path(Backup, i), Path(Live, i)) else files
  }

  function WithoutStaged(files: Files, i: nat): Files {
    files - {Path(Staged, i)}
  }

  // ----- the process -----

  datatype ApplyStep =
    | Staging
    | CopyDatabase(k: nat)
    | RecordBackup(k: nat)
    | MarkBackedUp
    | MarkApplying
    | SwapOut(i: nat)
    | SwapIn(i: nat)
    | Editing
    | MarkValidating
    | Check
    | MarkLocalApplied
    | Track
    | MarkCompleted

  datatype RollbackStep =
    | Aside(left: nat)      // swap left - 1 is next
    | Back(left: nat)
    | RestoreDatabase(k: nat)
    | WriteStatus

  datatype RecoveryStep = Validate | Retrack | Finish | Refuse

  /** `started` is whether the in-memory status says that local writes began. */
  datatype Process =
    | Idle
    | Running(step: ApplyStep)
    | Rolling(undo: RollbackStep, started: bool, backups: nat, failed: bool)
    | Recovering(recovery: RecoveryStep)

  /** `reconciled` records whether the tracking update of this operation has been committed. */
  datatype State = State(disk: Disk, process: Process, reconciled: bool)

  datatype Label =
    | Start
    | Stage(i: nat, tree: Tree)
    | Edit(k: nat, content: Database)
    | Go
    | Fail
    | Crash
    | Recover
    | Cleanup(path: Path)
    | Elsewhere(write: Write)

  function Mark(d: Disk, status: Status): Disk
    requires d.journal.Some?
  {
    d.(journal := Some(d.journal.value.(status := status)))
  }

  predicate LocalWriteStarted(status: Status) {
    status == Applying || status == Validating || status == LocalApplied || status == RecoveryRequired
  }

  /** The rollback that a failure at `step` begins with.  The backups are those the process has listed: the last one may
      be missing in the journal, if it is the write that records it which failed. */
  function RollbackFrom(plan: Plan, d: Disk, step: ApplyStep): Process
    requires d.journal.Some?
  {
    var started := !(step.Staging? || step.CopyDatabase? || step.RecordBackup? || step.MarkBackedUp?);
    var backups := if step.RecordBackup? then step.k + 1 else d.journal.value.backups;
    Rolling(Aside(|plan.swaps|), started, backups, false)
  }

  /** The step that comes after the first `i` swaps. */
  function SwapsFrom(plan: Plan, i: nat): ApplyStep {
    if i < |plan.swaps| then SwapOut(i) else Editing
  }

  function BackupsFrom(plan: Plan, k: nat): ApplyStep {
    if k < |plan.original.databases| then CopyDatabase(k) else MarkBackedUp
  }

  /** `checkout_local_snapshot_internal`: the step succeeds. */
  function NextRunning(plan: Plan, s: State): Option<State>
    requires s.process.Running? && s.disk.journal.Some?
  {
    var d := s.disk;
    match s.process.step
    case Staging => Some(s.(process := Running(BackupsFrom(plan, 0))))
    case CopyDatabase(k) =>
      if k >= |d.databases| then None
      else Some(s.(disk := d.(backups := d.backups[k := d.databases[k]]), process := Running(RecordBackup(k))))
    case RecordBackup(k) =>
      Some(s.(disk := d.(journal := Some(d.journal.value.(backups := k + 1))),
          process := Running(BackupsFrom(plan, k + 1))))
    case MarkBackedUp => Some(s.(disk := Mark(d, BackedUp), process := Running(MarkApplying)))
    case MarkApplying => Some(s.(disk := Mark(d, Applying), process := Running(SwapsFrom(plan, 0))))
    case SwapOut(i) =>
      var files := MoveOut(d.files, i);
      if files.None? then None else Some(s.(disk := d.(files := files.value), process := Running(SwapIn(i))))
    case SwapIn(i) =>
      var files := MoveIn(d.files, i);
      if files.None? then None else Some(s.(disk := d.(files := files.value),
          process := Running(SwapsFrom(plan, i + 1))))
    case Editing => Some(s.(process := Running(MarkValidating)))
    case MarkValidating => Some(s.(disk := Mark(d, Validating), process := Running(Check)))
    case Check => Some(s.(process := Running(MarkLocalApplied)))
    case MarkLocalApplied => Some(s.(disk := Mark(d, LocalApplied), process := Running(Track)))
    case Track => NextTrack(plan, s, Running(MarkCompleted))
    case MarkCompleted => Some(s.(disk := Mark(d, Completed), process := Idle))
  }

  /** `apply_tracking_update`. */
  function NextTrack(plan: Plan, s: State, follow: Process): Option<State> {
    if plan.update.None? then Some(s.(process := follow, reconciled := true))
    else
      var u := plan.update.value;
      var r := ReconcileCheckout(s.disk.tracking, u.key, u.expected, u.head, u.activate);
      if r.Err? then None
      else Some(State(s.disk.(tracking := r.value), follow, true))
  }

  /** The tracking tables accept the update of the operation. */
  predicate TrackGoes(plan: Plan, t: Tables) {
    plan.update.Some? ==>
      var u := plan.update.value;
      ReconcileCheckout(t, u.key, u.expected, u.head, u.activate).Ok?
  }

  /** What recovery asks of a disk: a journal that reads LocalApplied needs the promised home and an update that goes
      through; any other journal is terminal or is rolled back. */
  predicate CanFinish(plan: Plan, d: Disk) {
    d.journal.Some? && d.journal.value.status == LocalApplied ==> HomeMatches(plan, d) && TrackGoes(plan, d.tracking)
  }

  /** `rollback_checkout`; `ok` is whether the operation of this step succeeds. */
  function NextRolling(plan: Plan, s: State, ok: bool): Option<State>
    requires s.process.Rolling? && s.disk.journal.Some?
  {
    var d, p := s.disk, s.process;
    match p.undo
    case Aside(left) =>
      if left == 0 then Some(s.(process := p.(undo := RestoreDatabase(0))))
      else if left > |plan.swaps| || !p.started then Some(s.(process := p.(undo := Back(left))))
      else
        var files := SetAside(d.files, left - 1, plan.swaps[left - 1].originalExisted);
        if ok && files.Some? then Some(s.(disk := d.(files := files.value), process := p.(undo := Back(left))))
        else Some(s.(process := p.(undo := Back(left), failed := true)))
    case Back(left) =>
      if left == 0 then None
      else if !p.started then
        Some(s.(disk := d.(files := WithoutStaged(d.files, left - 1)), process := p.(undo := Aside(left - 1))))
      else if ok then
        Some(s.(disk := d.(files := WithoutStaged(PutBack(d.files, left - 1), left - 1)),
            process := p.(undo := Aside(left - 1))))
      else
        Some(s.(process := p.(undo := Aside(left - 1), failed := true)))
    case RestoreDatabase(k) =>
      if !p.started || k >= p.backups then Some(s.(process := p.(undo := WriteStatus)))
      else if ok && k < |d.databases| && k in d.backups then
        Some(s.(disk := d.(databases := d.databases[k := d.backups[k]]), process := p.(undo := RestoreDatabase(k + 1))))
      else Some(s.(process := p.(undo := RestoreDatabase(k + 1), failed := true)))
    case WriteStatus =>
      if ok then
        Some(s.(disk := d.(journal := Some(Journal(if p.failed then RecoveryRequired else RolledBack, p.backups))),
            process := Idle))
      else Some(s.(process := Idle))
  }

  /** `recover_checkout_operation` on a journal that reads LocalApplied. */
  function NextRecovering(plan: Plan, s: State): Option<State>
    requires s.process.Recovering? && s.disk.journal.Some?
  {
    match s.process.recovery
    case Validate => Some(s.(process := Recovering(Retrack)))
    case Retrack => NextTrack(plan, s, Recovering(Finish))
    case Finish => Some(s.(disk := Mark(s.disk, Completed), process := Idle))
    case Refuse => Some(s.(process := Idle))
  }

  /** A failing operation: rollback, or a refused recovery; the last journal write only reports. */
  function NextFailure(plan: Plan, s: State): Option<State>
    requires s.disk.journal.Some?
  {
    match s.process
    case Idle => None
    case Running(step) =>
      Some(s.(process := if step.MarkCompleted? then Idle else RollbackFrom(plan, s.disk, step)))
    case Rolling(_, _, _, _) => NextRolling(plan, s, false)
    case Recovering(step) =>
      Some(s.(process := if step == Validate || step == Retrack then Recovering(Refuse) else Idle))
  }

  function NextGo(plan: Plan, s: State): Option<State>
    requires s.disk.journal.Some?
  {
    match s.process
    case Idle => None
    case Running(step) => if step == Check && !HomeMatches(plan, s.disk) then None else NextRunning(plan, s)
    case Rolling(_, _, _, _) => NextRolling(plan, s, true)
    case Recovering(step) => if step == Validate && !HomeMatches(plan, s.disk) then None else NextRecovering(plan, s)
  }

  /** The process that recovery starts for a journal that is not terminal. */
  function RecoveryFor(plan: Plan, journal: Journal): Process {
    if journal.status == LocalApplied then Recovering(Validate)
    else Rolling(Aside(|plan.swaps|), LocalWriteStarted(journal.status), journal.backups, false)
  }

  predicate Terminal(status: Status) {
    status == Completed || status == RolledBack
  }

  function Next(plan: Plan, s: State, l: Label): Option<State> {
    var d := s.disk;
    match l
    case Start =>
      if s.process != Idle || d.journal.Some? then None
      else Some(s.(disk := d.(journal := Some(Journal(Preparing, 0))), process := Running(Staging)))
    case Stage(i, tree) =>
      if s.process != Running(Staging) then None else Some(s.(disk := d.(files := d.files[Path(Staged, i) := tree])))
    case Edit(k, content) =>
      if s.process != Running(Editing) || k >= |d.databases| then None
      else Some(s.(disk := d.(databases := d.databases[k := content])))
    case Go => if d.journal.None? then None else NextGo(plan, s)
    case Fail => if d.journal.None? then None else NextFailure(plan, s)
    case Crash => Some(s.(process := Idle))
    case Recover =>
      if s.process != Idle || d.journal.None? || Terminal(d.journal.value.status) then None
      else Some(s.(process := RecoveryFor(plan, d.journal.value)))
    case Cleanup(path) =>
      if s.process != Idle || d.journal.None? || d.journal.value.status != Completed || path.area == Live then None
      else Some(s.(disk := d.(files := d.files - {path})))
    case Elsewhere(write) => Some(s.(disk := d.(tracking := Apply(d.tracking, write))))
  }

  /** A fresh operation: its private places are empty and the home is the original one. */
  ghost predicate Initial(plan: Plan, s: State) {
    && PlanOk(plan)
    && s.process == Idle && s.disk.journal.None? && !s.reconciled
    && HomeOf(plan, s.disk) == plan.original
    && forall i: nat :: Path(Backup, i) !in s.disk.files && Path(Failed, i) !in s.disk.files
  }

  ghost predicate Run(plan: Plan, states: seq<State>, labels: seq<Label>) {
    && |states| == |labels| + 1
    && Initial(plan, states[0])
    && forall i: nat {:trigger StepAt(plan, states, labels, i)} :: i < |labels| ==> StepAt(plan, states, labels, i)
  }

  ghost predicate StepAt(plan: Plan, states: seq<State>, labels: seq<Label>, i: nat)
    requires |states| == |labels| + 1 && i < |labels|
  {
    Next(plan, states[i], labels[i]) == Some(states[i + 1])
  }
}
