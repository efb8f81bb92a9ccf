/** A checkout survives any number of crashes, wherever they happen. */
module CheckoutSafety {
  import opened Basics
  import opened Tracking
  import opened Checkout

  // ----- where the original tree of a swap is -----

  function Original(plan: Plan, i: nat): Option<Tree> {
    if i < |plan.original.trees| then plan.original.trees[i] else None
  }

  /** Live, with no backup. */
  ghost predicate AtHome(plan: Plan, files: Files, i: nat) {
    At(files, Backup, i) == None && At(files, Live, i) == Original(plan, i)
  }

  /** In the backup place, with nothing live. */
  ghost predicate IsOut(plan: Plan, files: Files, i: nat) {
    Original(plan, i).Some? && At(files, Backup, i) == Original(plan, i) && At(files, Live, i) == None
  }

  /** In the backup place (or never there), with the new tree live. */
  ghost predicate IsSwapped(plan: Plan, files: Files, i: nat) {
    At(files, Live, i).Some? && At(files, Backup, i) == Original(plan, i) && At(files, Failed, i) == None
  }

  ghost predicate SwapOk(plan: Plan, files: Files, i: nat) {
    AtHome(plan, files, i) || IsOut(plan, files, i) || IsSwapped(plan, files, i)
  }

  ghost predicate SwapsOk(plan: Plan, files: Files) {
    forall i: nat {:trigger SwapOk(plan, files, i)} :: i < |plan.swaps| ==> SwapOk(plan, files, i)
  }

  ghost predicate HomeFrom(plan: Plan, files: Files, from: nat) {
    forall i: nat {:trigger AtHome(plan, files, i)} :: from <= i < |plan.swaps| ==> AtHome(plan, files, i)
  }

  ghost predicate FreshFrom(plan: Plan, files: Files, from: nat) {
    HomeFrom(plan, files, from)
    && forall i: nat {:trigger At(files, Failed, i)} :: from <= i < |plan.swaps| ==> At(files, Failed, i) == None
  }

  ghost predicate SwappedUpTo(plan: Plan, files: Files, upTo: nat) {
    forall i: nat {:trigger IsSwapped(plan, files, i)} :: i < upTo && i < |plan.swaps| ==> IsSwapped(plan, files, i)
  }

  /** Nothing has been written to the home yet. */
  ghost predicate Untouched(plan: Plan, d: Disk) {
    FreshFrom(plan, d.files, 0) && d.databases == plan.original.databases
  }

  ghost predicate BackupsGood(plan: Plan, backups: map<nat, Database>, n: nat) {
    n <= |plan.original.databases|
    && forall k: nat :: k < n ==> k in backups && backups[k] == plan.original.databases[k]
  }

  ghost predicate BackedUpFully(plan: Plan, j: Journal) {
    j.backups == |plan.original.databases|
  }

  // ----- the invariant -----

  /** What a crash may leave behind. */
  ghost predicate CrashOk(plan: Plan, d: Disk, j: Journal, reconciled: bool) {
    match j.status
    case Preparing => Untouched(plan, d) && !reconciled
    case BackedUp => Untouched(plan, d) && !reconciled
    case Applying => SwapsOk(plan, d.files) && BackedUpFully(plan, j) && !reconciled
    case Validating => SwapsOk(plan, d.files) && BackedUpFully(plan, j) && !reconciled
    case RecoveryRequired => SwapsOk(plan, d.files) && BackedUpFully(plan, j) && !reconciled
    case LocalApplied => SwapsOk(plan, d.files) && BackedUpFully(plan, j) && (reconciled ==> HomeMatches(plan, d))
    case RolledBack => HomeFrom(plan, d.files, 0) && d.databases == plan.original.databases && !reconciled
    case Completed => HomeMatches(plan, d) && reconciled
  }

  ghost predicate RunningOk(plan: Plan, d: Disk, j: Journal, step: ApplyStep, reconciled: bool) {
    var n := |plan.original.databases|;
    match step
    case Staging => j == Journal(Preparing, 0) && Untouched(plan, d) && !reconciled
    case CopyDatabase(k) => j == Journal(Preparing, k) && k < n && Untouched(plan, d) && !reconciled
    case RecordBackup(k) => j == Journal(Preparing, k) && k < n && BackupsGood(plan, d.backups, k + 1)
        && Untouched(plan, d) && !reconciled
    case MarkBackedUp => j == Journal(Preparing, n) && Untouched(plan, d) && !reconciled
    case MarkApplying => j == Journal(BackedUp, n) && Untouched(plan, d) && !reconciled
    case SwapOut(i) => j == Journal(Applying, n) && i < |plan.swaps|
                       && SwappedUpTo(plan, d.files, i) && FreshFrom(plan, d.files, i) && !reconciled
    case SwapIn(i) => j == Journal(Applying, n) && i < |plan.swaps| && SwappedUpTo(plan, d.files, i)
                      && At(d.files, Live, i) == None && At(d.files, Backup, i) == Original(plan, i)
                      && At(d.files, Failed, i) == None
                      && FreshFrom(plan, d.files, i + 1) && !reconciled
    case Editing => j == Journal(Applying, n) && SwappedUpTo(plan, d.files, |plan.swaps|) && !reconciled
    case MarkValidating => j == Journal(Applying, n) && SwappedUpTo(plan, d.files, |plan.swaps|) && !reconciled
    case Check => j == Journal(Validating, n) && SwappedUpTo(plan, d.files, |plan.swaps|) && !reconciled
    case MarkLocalApplied =>
      j == Journal(Validating, n) && SwappedUpTo(plan, d.files, |plan.swaps|) && HomeMatches(plan, d) && !reconciled
    case Track =>
      j == Journal(LocalApplied, n) && SwappedUpTo(plan, d.files, |plan.swaps|) && HomeMatches(plan, d) && !reconciled
    case MarkCompleted =>
      j == Journal(LocalApplied, n) && SwappedUpTo(plan, d.files, |plan.swaps|) && HomeMatches(plan, d) && reconciled
  }

  /** How far a rollback without failures has come. */
  ghost predicate Undone(plan: Plan, d: Disk, undo: RollbackStep) {
    match undo
    case Aside(left) => HomeFrom(plan, d.files, left)
    case Back(left) => left >= 1 && HomeFrom(plan, d.files, left)
                       && (left <= |plan.swaps| ==> AtHome(plan, d.files, left - 1) || IsOut(plan, d.files, left - 1))
    case RestoreDatabase(k) => HomeFrom(plan, d.files, 0)
                               && forall i :: 0 <= i < k && i < |d.databases| && i < |plan.original.databases| ==>
                                    d.databases[i] == plan.original.databases[i]
    case WriteStatus => HomeFrom(plan, d.files, 0) && d.databases == plan.original.databases
  }

  ghost predicate RollingOk(plan: Plan, d: Disk, j: Journal, p: Process, reconciled: bool)
    requires p.Rolling?
  {
    && !reconciled && BackupsGood(plan, d.backups, p.backups) && (p.started ==> p.backups == j.backups)
    && (p.undo.Aside? ==> p.undo.left <= |plan.swaps|)
    && (p.undo.Back? ==> 1 <= p.undo.left <= |plan.swaps|)
    && SwapsOk(plan, d.files)
    && (j.status == Preparing || j.status == BackedUp ==> Untouched(plan, d))
    && (p.started ==> BackedUpFully(plan, j))
    && (!p.started ==> Untouched(plan, d) && !p.failed)
    && (j.status != Preparing && j.status != BackedUp ==> BackedUpFully(plan, j))
    && !Terminal(j.status)
    && (!p.failed ==> Undone(plan, d, p.undo))
  }

  ghost predicate RecoveringOk(plan: Plan, d: Disk, j: Journal, step: RecoveryStep, reconciled: bool) {
    && CrashOk(plan, d, j, reconciled) && j.status == LocalApplied
    && (step == Retrack || step == Finish ==> HomeMatches(plan, d))
    && (step == Finish ==> reconciled)
  }

  ghost predicate StateOk(plan: Plan, s: State) {
    && PlanOk(plan)
    && |s.disk.databases| == |plan.original.databases|
    && if s.disk.journal.None? then s.process == Idle && Untouched(plan, s.disk) && !s.reconciled
       else
         var j := s.disk.journal.value;
         && BackupsGood(plan, s.disk.backups, j.backups)
         && match s.process
            case Idle => CrashOk(plan, s.disk, j, s.reconciled)
            case Running(step) => RunningOk(plan, s.disk, j, step, s.reconciled)
            case Rolling(_, _, _, _) => RollingOk(plan, s.disk, j, s.process, s.reconciled)
            case Recovering(step) => RecoveringOk(plan, s.disk, j, step, s.reconciled)
  }

  // ----- facts about swaps -----

  lemma FreshIsOk(plan: Plan, files: Files)
    requires HomeFrom(plan, files, 0)
    ensures SwapsOk(plan, files)
  {
  }

  lemma RunningIsOk(plan: Plan, d: Disk, j: Journal, step: ApplyStep, reconciled: bool)
    requires RunningOk(plan, d, j, step, reconciled)
    ensures SwapsOk(plan, d.files)
  {
  }

  /** Other swaps are not touched by a change to the places of swap `i`. */
  ghost predicate OnlySwap(files: Files, files': Files, i: nat) {
    forall area, k: nat :: k != i ==> At(files', area, k) == At(files, area, k)
  }

  lemma OnlySwapKeeps(plan: Plan, files: Files, files': Files, i: nat)
    requires OnlySwap(files, files', i)
    ensures forall k: nat :: k != i ==> (AtHome(plan, files', k) <==> AtHome(plan, files, k))
    ensures forall k: nat :: k != i ==> (IsOut(plan, files', k) <==> IsOut(plan, files, k))
    ensures forall k: nat :: k != i ==> (IsSwapped(plan, files', k) <==> IsSwapped(plan, files, k))
    ensures forall k: nat :: k != i ==> (SwapOk(plan, files', k) <==> SwapOk(plan, files, k))
  {
  }

  /** Setting aside a swap whose original is safe always finds its place free. */
  lemma SetAsideWorks(plan: Plan, files: Files, i: nat)
    requires PlanOk(plan) && i < |plan.swaps| && SwapOk(plan, files, i)
    ensures var r := SetAside(files, i, plan.swaps[i].originalExisted);
            && r.Some?
            && OnlySwap(files, r.value, i)
            && (AtHome(plan, r.value, i) || IsOut(plan, r.value, i))
  {
  }

  lemma PutBackWorks(plan: Plan, files: Files, i: nat)
    requires i < |plan.swaps| && (AtHome(plan, files, i) || IsOut(plan, files, i))
    ensures OnlySwap(files, PutBack(files, i), i) && AtHome(plan, PutBack(files, i), i)
  {
  }

  lemma PutBackKeepsOk(plan: Plan, files: Files, i: nat)
    requires i < |plan.swaps| && SwapOk(plan, files, i)
    ensures OnlySwap(files, PutBack(files, i), i) && SwapOk(plan, PutBack(files, i), i)
    ensures AtHome(plan, files, i) || IsOut(plan, files, i) ==> AtHome(plan, PutBack(files, i), i)
  {
  }

  lemma StagedDoesNotMatter(plan: Plan, files: Files, files': Files)
    requires forall area, k: nat :: area != Staged ==> At(files', area, k) == At(files, area, k)
    ensures forall k: nat :: AtHome(plan, files', k) <==> AtHome(plan, files, k)
    ensures forall k: nat :: IsOut(plan, files', k) <==> IsOut(plan, files, k)
    ensures forall k: nat :: IsSwapped(plan, files', k) <==> IsSwapped(plan, files, k)
    ensures forall k: nat :: SwapOk(plan, files', k) <==> SwapOk(plan, files, k)
  {
  }

  // ----- every step keeps the invariant -----

  lemma SwapStepKeeps(plan: Plan, s: State)
    requires StateOk(plan, s) && s.disk.journal.Some? && s.process.Running?
    requires s.process.step.SwapOut? || s.process.step.SwapIn?
    requires NextRunning(plan, s).Some?
    ensures StateOk(plan, NextRunning(plan, s).value)
  {
    var s' := NextRunning(plan, s).value;
    var i := s.process.step.i;
    var files, files' := s.disk.files, s'.disk.files;
    assert OnlySwap(files, files', i);
    OnlySwapKeeps(plan, files, files', i);
    if s.process.step.SwapOut? {
      assert AtHome(plan, files, i) && At(files, Failed, i) == None;
    }
    forall k: nat | k > i ensures At(files', Failed, k) == At(files, Failed, k) {
    }
  }

  lemma RunningStepKeeps(plan: Plan, s: State)
    requires StateOk(plan, s) && s.disk.journal.Some? && s.process.Running?
    requires s.process.step == Check ==> HomeMatches(plan, s.disk)
    requires NextRunning(plan, s).Some?
    ensures StateOk(plan, NextRunning(plan, s).value)
  {
    var s' := NextRunning(plan, s).value;
    if s.process.step.SwapOut? || s.process.step.SwapIn? {
      SwapStepKeeps(plan, s);
    } else {
      assert s'.disk.files == s.disk.files && s'.disk.databases == s.disk.databases;
      assert HomeMatches(plan, s'.disk) <==> HomeMatches(plan, s.disk);
    }
  }

  lemma AsideKeeps(plan: Plan, s: State, ok: bool)
    requires StateOk(plan, s) && s.disk.journal.Some? && s.process.Rolling? && s.process.undo.Aside?
    requires NextRolling(plan, s, ok).Some?
    ensures StateOk(plan, NextRolling(plan, s, ok).value)
  {
    var s' := NextRolling(plan, s, ok).value;
    var p := s.process;
    if p.undo.left > 0 {
      var i := p.undo.left - 1;
      assert SwapOk(plan, s.disk.files, i);
      if p.started {
        SetAsideWorks(plan, s.disk.files, i);
        if ok {
          var files' := s'.disk.files;
          OnlySwapKeeps(plan, s.disk.files, files', i);
          forall k: nat | k < |plan.swaps| ensures SwapOk(plan, files', k) {
            assert SwapOk(plan, s.disk.files, k);
          }
          if s.disk.journal.value.status == BackedUp {
            assert AtHome(plan, s.disk.files, i);
            assert files' == s.disk.files;
          }
        }
      } else {
        assert AtHome(plan, s.disk.files, i);
      }
    }
  }

  lemma BackKeeps(plan: Plan, s: State, ok: bool)
    requires StateOk(plan, s) && s.disk.journal.Some? && s.process.Rolling? && s.process.undo.Back?
    requires NextRolling(plan, s, ok).Some?
    ensures StateOk(plan, NextRolling(plan, s, ok).value)
  {
    var s' := NextRolling(plan, s, ok).value;
    var p := s.process;
    var i := p.undo.left - 1;
    var files, files' := s.disk.files, s'.disk.files;
    var put := if p.started && ok then PutBack(files, i) else files;
    assert SwapOk(plan, files, i);
    PutBackKeepsOk(plan, files, i);
    OnlySwapKeeps(plan, files, put, i);
    assert forall area, k: nat :: area != Staged ==> At(files', area, k) == At(put, area, k);
    StagedDoesNotMatter(plan, put, files');
    forall k: nat | k < |plan.swaps| ensures SwapOk(plan, files', k) {
      assert SwapOk(plan, files, k);
    }
    if Untouched(plan, s.disk) {
      assert AtHome(plan, files, i);
      assert put == files;
      forall k: nat | k < |plan.swaps| ensures At(files', Failed, k) == None {
        assert At(files, Failed, k) == None;
      }
      assert Untouched(plan, s'.disk);
    }
  }

  lemma RestoreKeeps(plan: Plan, s: State, ok: bool)
    requires StateOk(plan, s) && s.disk.journal.Some? && s.process.Rolling?
    requires s.process.undo.RestoreDatabase? || s.process.undo.WriteStatus?
    requires NextRolling(plan, s, ok).Some?
    ensures StateOk(plan, NextRolling(plan, s, ok).value)
  {
  }

  lemma RollingStepKeeps(plan: Plan, s: State, ok: bool)
    requires StateOk(plan, s) && s.disk.journal.Some? && s.process.Rolling?
    requires NextRolling(plan, s, ok).Some?
    ensures StateOk(plan, NextRolling(plan, s, ok).value)
  {
    match s.process.undo
    case Aside(_) => AsideKeeps(plan, s, ok);
    case Back(_) => BackKeeps(plan, s, ok);
    case RestoreDatabase(_) => RestoreKeeps(plan, s, ok);
    case WriteStatus => RestoreKeeps(plan, s, ok);
  }

  /** Whatever a process was doing, a crash leaves a disk that recovery can deal with. */
  lemma CrashKeeps(plan: Plan, s: State)
    requires StateOk(plan, s) && s.disk.journal.Some?
    ensures CrashOk(plan, s.disk, s.disk.journal.value, s.reconciled)
  {
  }

  lemma FailureKeeps(plan: Plan, s: State)
    requires StateOk(plan, s) && s.disk.journal.Some? && NextFailure(plan, s).Some?
    ensures StateOk(plan, NextFailure(plan, s).value)
  {
    CrashKeeps(plan, s);
    match s.process
    case Idle =>
    case Running(step) =>
      RunningIsOk(plan, s.disk, s.disk.journal.value, step, s.reconciled);
    case Rolling(_, _, _, _) => RollingStepKeeps(plan, s, false);
    case Recovering(_) =>
  }

  lemma RecoverKeeps(plan: Plan, s: State)
    requires StateOk(plan, s) && Next(plan, s, Recover).Some?
    ensures StateOk(plan, Next(plan, s, Recover).value)
  {
  }

  lemma GoKeeps(plan: Plan, s: State)
    requires StateOk(plan, s) && s.disk.journal.Some? && NextGo(plan, s).Some?
    ensures StateOk(plan, NextGo(plan, s).value)
  {
    match s.process
    case Idle =>
    case Running(_) => RunningStepKeeps(plan, s);
    case Rolling(_, _, _, _) => RollingStepKeeps(plan, s, true);
    case Recovering(_) =>
      var s' := NextGo(plan, s).value;
      assert HomeMatches(plan, s'.disk) <==> HomeMatches(plan, s.disk);
  }

  lemma OtherKeeps(plan: Plan, s: State, l: Label)
    requires StateOk(plan, s) && Next(plan, s, l).Some?
    requires l.Start? || l.Stage? || l.Edit? || l.Cleanup? || l.Elsewhere?
    ensures StateOk(plan, Next(plan, s, l).value)
  {
    var s' := Next(plan, s, l).value;
    if l.Stage? {
      StagedDoesNotMatter(plan, s.disk.files, s'.disk.files);
      forall k: nat ensures At(s'.disk.files, Failed, k) == At(s.disk.files, Failed, k) {
      }
    } else if l.Cleanup? {
      assert HomeOf(plan, s'.disk) == HomeOf(plan, s.disk);
      assert forall i: nat :: At(s'.disk.files, Live, i) == At(s.disk.files, Live, i);
    } else {
      assert s'.disk.files == s.disk.files;
      assert HomeMatches(plan, s'.disk) || HomeMatches(plan, s.disk)
             ==> l.Edit? || HomeOf(plan, s'.disk) == HomeOf(plan, s.disk);
    }
  }

  lemma StepKeeps(plan: Plan, s: State, l: Label)
    requires StateOk(plan, s) && Next(plan, s, l).Some?
    ensures StateOk(plan, Next(plan, s, l).value)
  {
    match l
    case Go => GoKeeps(plan, s);
    case Fail => FailureKeeps(plan, s);
    case Crash =>
      if s.disk.journal.Some? {
        CrashKeeps(plan, s);
      }
    case Recover => RecoverKeeps(plan, s);
    case _ => OtherKeeps(plan, s, l);
  }

  lemma InitialOk(plan: Plan, s: State)
    requires Initial(plan, s)
    ensures StateOk(plan, s)
  {
  }

  lemma {:induction false} RunKeeps(plan: Plan, states: seq<State>, labels: seq<Label>, k: nat)
    requires Run(plan, states, labels) && k < |states|
    ensures StateOk(plan, states[k])
  {
    if k == 0 {
      InitialOk(plan, states[0]);
    } else {
      RunKeeps(plan, states, labels, k - 1);
      assert StepAt(plan, states, labels, k - 1);
      StepKeeps(plan, states[k - 1], labels[k - 1]);
    }
  }

  // ----- what the journal proves -----

  /** A journal reads RolledBack only if the home is what it was before the operation, and then the
      tracking update was never committed. */
  lemma RolledBackMeansUnchanged(plan: Plan, states: seq<State>, labels: seq<Label>, k: nat)
    requires Run(plan, states, labels) && k < |states|
    requires states[k].disk.journal.Some? && states[k].disk.journal.value.status == RolledBack
    ensures HomeOf(plan, states[k].disk) == plan.original
    ensures !states[k].reconciled
  {
    RunKeeps(plan, states, labels, k);
    var s := states[k];
    CrashKeeps(plan, s);
    forall i: nat | i < |plan.swaps| ensures HomeOf(plan, s.disk).trees[i] == plan.original.trees[i] {
      assert AtHome(plan, s.disk.files, i);
    }
    assert HomeOf(plan, s.disk).trees == plan.original.trees;
  }

  /** A journal reads Completed only if the live home is the promised one and the tracking update
      has been committed. */
  lemma CompletedMeansApplied(plan: Plan, states: seq<State>, labels: seq<Label>, k: nat)
    requires Run(plan, states, labels) && k < |states|
    requires states[k].disk.journal.Some? && states[k].disk.journal.value.status == Completed
    ensures HomeMatches(plan, states[k].disk)
    ensures states[k].reconciled
  {
    RunKeeps(plan, states, labels, k);
    CrashKeeps(plan, states[k]);
  }

  /** Step `i` of a run commits the tracking update of the operation. */
  ghost predicate Commits(plan: Plan, states: seq<State>, labels: seq<Label>, i: nat)
    requires |states| == |labels| + 1 && i < |labels|
  {
    && HomeMatches(plan, states[i].disk)
    && (plan.update.Some? ==>
          var u := plan.update.value;
          var r := ReconcileCheckout(states[i].disk.tracking, u.key, u.expected, u.head, u.activate);
          r.Ok? && states[i + 1].disk.tracking == r.value)
  }

  /** The tracking update counts as committed only after a step that committed it while the live
      home matched. */
  lemma {:induction false} ReconciledWasCommitted(plan: Plan, states: seq<State>, labels: seq<Label>,
                                                  k: nat) returns (i: nat)
    requires Run(plan, states, labels) && k < |states| && states[k].reconciled
    ensures i < k && Commits(plan, states, labels, i)
  {
    assert k > 0;
    RunKeeps(plan, states, labels, k - 1);
    assert StepAt(plan, states, labels, k - 1);
    if states[k - 1].reconciled {
      i := ReconciledWasCommitted(plan, states, labels, k - 1);
    } else {
      i := k - 1;
    }
  }

  /** Before the operation completes, the original of each swap sits in exactly one place: live, or
      in the backup place, which is then the only copy that rollback needs. */
  lemma OriginalIsInOnePlace(plan: Plan, states: seq<State>, labels: seq<Label>, k: nat, i: nat)
    requires Run(plan, states, labels) && k < |states| && i < |plan.swaps|
    requires states[k].disk.journal.Some? ==> states[k].disk.journal.value.status != Completed
    ensures var files := states[k].disk.files;
            if At(files, Backup, i).Some? then At(files, Backup, i) == plan.original.trees[i]
            else
              || At(files, Live, i) == plan.original.trees[i]
              || (plan.original.trees[i].None? && At(files, Live, i).Some?)
  {
    RunKeeps(plan, states, labels, k);
    var s := states[k];
    if s.disk.journal.Some? {
      CrashKeeps(plan, s);
    }
    assert AtHome(plan, s.disk.files, i) || SwapOk(plan, s.disk.files, i);
  }

  // ----- where recovery can refuse -----

  /** Whatever the run and wherever it crashed, recovery finds a disk that it can deal with. */
  lemma EveryCrashIsRecoverable(plan: Plan, states: seq<State>, labels: seq<Label>, k: nat)
    requires Run(plan, states, labels) && k < |states| && states[k].disk.journal.Some?
    ensures PlanOk(plan) && |states[k].disk.databases| == |plan.original.databases|
    ensures BackupsGood(plan, states[k].disk.backups, states[k].disk.journal.value.backups)
    ensures CrashOk(plan, states[k].disk, states[k].disk.journal.value, states[k].reconciled)
  {
    RunKeeps(plan, states, labels, k);
    CrashKeeps(plan, states[k]);
  }

  // ----- no rename overwrites -----

  /** One tree has moved, to a place that was free. */
  ghost predicate OneMoved(files: Files, files': Files, from: Path, to: Path) {
    && from in files && to !in files && from !in files' && to in files' && files'[to] == files[from]
    && forall p :: p != from && p != to ==> At(files', p.area, p.swap) == At(files, p.area, p.swap)
  }

  /** On any files, also such as no checkout leaves: moving out refuses a taken backup place, setting aside a taken
      place for failed trees; putting back waits for a free live place, and no tree is lost to another. */
  lemma RenamesLoseNothing(files: Files, i: nat, originalExisted: bool)
    ensures var out := MoveOut(files, i);
            && (out.None? <==> Path(Backup, i) in files)
            && (out.Some? ==>
                  if Path(Live, i) in files then OneMoved(files, out.value, Path(Live, i), Path(Backup, i))
                  else out.value == files)
    ensures var begun := Path(Live, i) in files && (Path(Backup, i) in files || !originalExisted);
            var aside := SetAside(files, i, originalExisted);
            && (aside.None? <==> begun && Path(Failed, i) in files)
            && (aside.Some? ==>
                  if begun then OneMoved(files, aside.value, Path(Live, i), Path(Failed, i)) else aside.value == files)
    ensures if Path(Backup, i) in files && Path(Live, i) !in files then
              OneMoved(files, PutBack(files, i), Path(Backup, i), Path(Live, i))
            else PutBack(files, i) == files
  {
  }
}
