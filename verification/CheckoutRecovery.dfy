/** From which crash points recovery ends in a terminal status, and from which it refuses for ever. */
module CheckoutRecovery {
  import opened Basics
  import opened Tracking
  import opened Checkout
  import opened CheckoutSafety

  // ----- one uninterrupted recovery -----

  /** `n` steps that all succeed. */
  function Going(plan: Plan, s: State, n: nat): Option<State>
    decreases n
  {
    if n == 0 then Some(s)
    else
      var next := Next(plan, s, Go);
      if next.None? then None else Going(plan, next.value, n - 1)
  }

  lemma GoFirst(plan: Plan, s: State, n: nat)
    requires n > 0
    ensures Going(plan, s, n) ==
      if Next(plan, s, Go).None? then None else Going(plan, Next(plan, s, Go).value, n - 1)
  {
  }

  lemma {:induction false} GoingOn(plan: Plan, s: State, m: nat, n: nat)
    requires Going(plan, s, m).Some?
    ensures Going(plan, s, m + n) == Going(plan, Going(plan, s, m).value, n)
    decreases m
  {
    if m > 0 {
      GoFirst(plan, s, m);
      GoFirst(plan, s, m + n);
      GoingOn(plan, Next(plan, s, Go).value, m - 1, n);
    }
  }

  lemma OneMore(plan: Plan, s: State, n: nat)
    requires Going(plan, s, n).Some?
    ensures Going(plan, s, n + 1) == Next(plan, Going(plan, s, n).value, Go)
  {
    GoingOn(plan, s, n, 1);
    var t := Going(plan, s, n).value;
    var next := Next(plan, t, Go);
    assert next.Some? ==> Going(plan, next.value, 0) == next;
  }

  predicate AtRest(s: State) {
    s.process == Idle && s.disk.journal.Some? && Terminal(s.disk.journal.value.status)
  }

  /** Recovery started on what a crash in `s` leaves, and left alone for `n` steps, is done and the journal terminal. */
  predicate EndsAfter(plan: Plan, s: State, n: nat) {
    var start := Next(plan, s.(process := Idle), Recover);
    start.Some? && var end := Going(plan, start.value, n); end.Some? && AtRest(end.value)
  }

  /** Recovery of what a crash in `s` leaves ends terminal: there is nothing to do, or it gets there. */
  ghost predicate RecoveryEnds(plan: Plan, s: State) {
    AtRest(s.(process := Idle)) || exists n: nat :: EndsAfter(plan, s, n)
  }

  /** How far a rollback has still to go. */
  function Left(undo: RollbackStep, backups: nat): nat {
    match undo
    case Aside(left) => 2 * left + backups + 3
    case Back(left) => 2 * left + backups + 2
    case RestoreDatabase(k) => if k < backups then backups - k + 1 else 1
    case WriteStatus => 0
  }

  lemma RollbackGoesOn(plan: Plan, s: State)
    requires StateOk(plan, s) && s.disk.journal.Some? && s.process.Rolling? && !s.process.failed
    ensures Next(plan, s, Go).Some?
    ensures var s' := Next(plan, s, Go).value;
      s'.disk.journal.Some? &&
      if s.process.undo.WriteStatus? then AtRest(s') && s'.disk.journal.value.status == RolledBack
      else
        && s'.process.Rolling? && !s'.process.failed
        && Left(s'.process.undo, s'.process.backups) < Left(s.process.undo, s.process.backups)
  {
    var p := s.process;
    if p.undo.Aside? && p.undo.left > 0 {
      assert SwapOk(plan, s.disk.files, p.undo.left - 1);
      SetAsideWorks(plan, s.disk.files, p.undo.left - 1);
    }
  }

  /** An uninterrupted rollback meets no failure and ends RolledBack. */
  lemma {:induction false} RollbackEnds(plan: Plan, s: State) returns (n: nat)
    requires StateOk(plan, s) && s.disk.journal.Some? && s.process.Rolling? && !s.process.failed
    ensures Going(plan, s, n).Some?
    ensures AtRest(Going(plan, s, n).value) && Going(plan, s, n).value.disk.journal.value.status == RolledBack
    decreases Left(s.process.undo, s.process.backups)
  {
    RollbackGoesOn(plan, s);
    GoKeeps(plan, s);
    var s' := Next(plan, s, Go).value;
    if s.process.undo.WriteStatus? {
      n := 1;
      assert Going(plan, s', 0) == Some(s');
    } else {
      var m := RollbackEnds(plan, s');
      n := m + 1;
    }
  }

  /** Recovery ends terminal from exactly those disks that `CanFinish` describes. */
  lemma RecoveryEndsExactly(plan: Plan, s: State)
    requires StateOk(plan, s) && s.disk.journal.Some?
    ensures RecoveryEnds(plan, s) <==> CanFinish(plan, s.disk)
  {
    var crashed := s.(process := Idle);
    CrashKeeps(plan, s);
    var status := s.disk.journal.value.status;
    if status == LocalApplied {
      LocalAppliedEndsExactly(plan, s);
    } else if !Terminal(status) {
      RecoverKeeps(plan, crashed);
      var n := RollbackEnds(plan, Next(plan, crashed, Recover).value);
      assert EndsAfter(plan, s, n);
    }
  }

  lemma LocalAppliedEndsExactly(plan: Plan, s: State)
    requires s.disk.journal.Some? && s.disk.journal.value.status == LocalApplied
    ensures (exists n: nat :: EndsAfter(plan, s, n)) <==> HomeMatches(plan, s.disk) && TrackGoes(plan, s.disk.tracking)
  {
    var start := Next(plan, s.(process := Idle), Recover).value;
    if HomeMatches(plan, s.disk) {
      var checked := Next(plan, start, Go).value;
      if TrackGoes(plan, s.disk.tracking) {
        var tracked := Next(plan, checked, Go).value;
        var end := Next(plan, tracked, Go).value;
        assert Going(plan, end, 0) == Some(end);
        assert Going(plan, tracked, 1) == Some(end);
        assert Going(plan, checked, 2) == Some(end);
        assert EndsAfter(plan, s, 3);
      } else {
        forall n: nat ensures !EndsAfter(plan, s, n) {
          assert n > 0 ==> Going(plan, start, n) == Going(plan, checked, n - 1);
        }
      }
    }
  }

  // ----- over every run -----

  predicate ReadsLocalApplied(s: State) {
    s.disk.journal.Some? && s.disk.journal.value.status == LocalApplied
  }

  /** An in-process rollback that began when the journal read LocalApplied, and has not written the journal since. */
  predicate RollsFromLocalApplied(s: State) {
    ReadsLocalApplied(s) && s.process.Rolling?
  }

  ghost predicate NeverRolledFromLocalApplied(states: seq<State>, k: nat)
    requires k < |states|
  {
    forall j :: 0 <= j <= k ==> !RollsFromLocalApplied(states[j])
  }

  /** Whatever crashed or was refused how often, a journal that reads LocalApplied has its promised home, unless a
      rollback was under way while it read so. */
  lemma {:induction false} LocalAppliedHomeMatches(plan: Plan, states: seq<State>, labels: seq<Label>, k: nat)
    requires Run(plan, states, labels) && k < |states|
    requires ReadsLocalApplied(states[k]) && NeverRolledFromLocalApplied(states, k)
    ensures HomeMatches(plan, states[k].disk)
  {
    if k > 0 {
      RunKeeps(plan, states, labels, k - 1);
      assert StepAt(plan, states, labels, k - 1);
      if ReadsLocalApplied(states[k - 1]) {
        LocalAppliedHomeMatches(plan, states, labels, k - 1);
        HomeStays(plan, states[k - 1], labels[k - 1]);
      } else {
        OnlyApplyWritesLocalApplied(plan, states[k - 1], labels[k - 1]);
      }
    }
  }

  /** While the journal reads LocalApplied only a rollback touches the home. */
  lemma HomeStays(plan: Plan, s: State, l: Label)
    requires StateOk(plan, s) && ReadsLocalApplied(s) && !s.process.Rolling? && Next(plan, s, l).Some?
    ensures HomeMatches(plan, Next(plan, s, l).value.disk) <==> HomeMatches(plan, s.disk)
  {
    var d' := Next(plan, s, l).value.disk;
    assert d'.files == s.disk.files && d'.databases == s.disk.databases;
  }

  lemma OnlyApplyWritesLocalApplied(plan: Plan, s: State, l: Label)
    requires StateOk(plan, s) && !ReadsLocalApplied(s) && Next(plan, s, l).Some?
    ensures ReadsLocalApplied(Next(plan, s, l).value) ==> HomeMatches(plan, Next(plan, s, l).value.disk)
  {
    if s.process == Running(MarkLocalApplied) && l.Go? {
      assert HomeOf(plan, Next(plan, s, l).value.disk) == HomeOf(plan, s.disk);
    }
  }

  /** Two tracking tables that read alike for this operation. */
  predicate SameFor(plan: Plan, t: Tables, t': Tables) {
    plan.update.Some? ==>
      var u := plan.update.value;
      && (u.key in t.records <==> u.key in t'.records)
      && (u.key in t.records ==> t.records[u.key] == t'.records[u.key])
      && (IsActive(t, u.key) <==> IsActive(t', u.key))
  }

  /** Nobody else writes the record or the binding of this operation before state `k`. */
  ghost predicate Undisturbed(plan: Plan, states: seq<State>, labels: seq<Label>, k: nat)
    requires |states| == |labels| + 1 && k < |states|
  {
    forall j :: 0 <= j < k && labels[j].Elsewhere?
        ==> SameFor(plan, states[j].disk.tracking, states[j + 1].disk.tracking)
  }

  lemma SameMeansSameAnswer(plan: Plan, t: Tables, t': Tables)
    requires SameFor(plan, t, t')
    ensures TrackGoes(plan, t) <==> TrackGoes(plan, t')
  {
  }

  /** The tracking tables change only by the update of the operation, which then goes through again, or from
      elsewhere. */
  lemma TrackingStep(plan: Plan, s: State, l: Label)
    requires Next(plan, s, l).Some? && (s.reconciled ==> TrackGoes(plan, s.disk.tracking))
    requires l.Elsewhere? ==> SameFor(plan, s.disk.tracking, Next(plan, s, l).value.disk.tracking)
    ensures var s' := Next(plan, s, l).value;
      && (s'.reconciled ==> TrackGoes(plan, s'.disk.tracking))
      && (TrackGoes(plan, s.disk.tracking) ==> TrackGoes(plan, s'.disk.tracking))
  {
    var s' := Next(plan, s, l).value;
    if l.Elsewhere? {
      SameMeansSameAnswer(plan, s.disk.tracking, s'.disk.tracking);
    } else if s'.disk.tracking != s.disk.tracking {
      var u := plan.update.value;
      ReconcileIsIdempotent(s.disk.tracking, u.key, u.expected, u.head, u.activate);
    }
  }

  /** A tracking update that could be committed when the operation began, or that has been, goes through whenever it is
      tried again, unless somebody else writes the same record. */
  lemma {:induction false} UpdateStillGoes(plan: Plan, states: seq<State>, labels: seq<Label>, k: nat)
    requires Run(plan, states, labels) && k < |states| && Undisturbed(plan, states, labels, k)
    ensures states[k].reconciled || TrackGoes(plan, states[0].disk.tracking)
            ==> TrackGoes(plan, states[k].disk.tracking)
  {
    if k > 0 {
      UpdateStillGoes(plan, states, labels, k - 1);
      assert StepAt(plan, states, labels, k - 1);
      TrackingStep(plan, states[k - 1], labels[k - 1]);
    }
  }

  /** From every point of every run, after any number of crashes and refusals, recovery ends in a terminal status,
      unless a rollback began at LocalApplied or somebody else moved the tracking record. */
  lemma RecoveryEndsOutsideRollback(plan: Plan, states: seq<State>, labels: seq<Label>, k: nat)
    requires Run(plan, states, labels) && k < |states| && states[k].disk.journal.Some?
    requires NeverRolledFromLocalApplied(states, k) && Undisturbed(plan, states, labels, k)
    requires states[k].reconciled || TrackGoes(plan, states[0].disk.tracking)
    ensures RecoveryEnds(plan, states[k])
  {
    RunKeeps(plan, states, labels, k);
    UpdateStillGoes(plan, states, labels, k);
    if ReadsLocalApplied(states[k]) {
      LocalAppliedHomeMatches(plan, states, labels, k);
    }
    RecoveryEndsExactly(plan, states[k]);
  }

  /** At every point of every run the condition is exact. */
  lemma RecoveryOfARun(plan: Plan, states: seq<State>, labels: seq<Label>, k: nat)
    requires Run(plan, states, labels) && k < |states| && states[k].disk.journal.Some?
    ensures RecoveryEnds(plan, states[k]) <==> CanFinish(plan, states[k].disk)
  {
    RunKeeps(plan, states, labels, k);
    RecoveryEndsExactly(plan, states[k]);
  }

  // ----- the exception -----

  /** The journal reads LocalApplied, the home is not the promised one, and nobody is at work but recovery. */
  predicate Refused(plan: Plan, s: State) {
    && ReadsLocalApplied(s) && !HomeMatches(plan, s.disk)
    && (s.process == Idle || s.process == Recovering(Validate) || s.process == Recovering(Refuse))
  }

  lemma RefusedStaysRefused(plan: Plan, s: State, l: Label)
    requires Refused(plan, s) && Next(plan, s, l).Some?
    ensures Refused(plan, Next(plan, s, l).value)
  {
    var d' := Next(plan, s, l).value.disk;
    assert d'.files == s.disk.files && d'.databases == s.disk.databases;
  }

  lemma AbandonedHomeStays(plan: Plan, s: State, l: Label)
    requires RollsFromLocalApplied(s) && Next(plan, s, l).Some?
    requires Next(plan, s, l).value.process == Idle && ReadsLocalApplied(Next(plan, s, l).value)
    ensures l.Crash? || (l.Fail? && s.process.undo == WriteStatus)
    ensures Next(plan, s, l).value.disk == s.disk
  {
  }

  /** Step `k` ends a rollback that began at LocalApplied, by a crash or by a failing last write, and leaves the journal
      as it is and a home that is not the promised one. */
  ghost predicate AbandonsRollback(plan: Plan, states: seq<State>, k: nat)
    requires k + 1 < |states|
  {
    && RollsFromLocalApplied(states[k]) && !HomeMatches(plan, states[k].disk)
    && states[k + 1].process == Idle && ReadsLocalApplied(states[k + 1])
  }

  /** A rollback that began at LocalApplied and ends without its last write, at any point where the home is not the
      promised one, leaves a journal that no number of recoveries, and nothing else in the run, ever makes terminal. */
  lemma {:induction false} InterruptedRollbackIsRefusedForEver(plan: Plan, states: seq<State>, labels: seq<Label>,
      k: nat, m: nat)
    requires Run(plan, states, labels) && k < m < |states|
    requires AbandonsRollback(plan, states, k)
    ensures Refused(plan, states[m])
  {
    assert StepAt(plan, states, labels, m - 1);
    if m - 1 > k {
      InterruptedRollbackIsRefusedForEver(plan, states, labels, k, m - 1);
      RefusedStaysRefused(plan, states[m - 1], labels[m - 1]);
    } else {
      AbandonedHomeStays(plan, states[k], labels[k]);
    }
  }

  /** Whether a rollback has come past swap `i`. */
  predicate Past(undo: RollbackStep, i: nat) {
    match undo
    case Aside(left) => left <= i
    case Back(left) => left <= i + 1
    case _ => true
  }

  /** Such a point is every one past a file with a promised hash, which rollback undoes first, if its original was
      another. */
  lemma RollbackPastFileIsRefused(plan: Plan, states: seq<State>, labels: seq<Label>, k: nat, i: nat)
    requires Run(plan, states, labels) && k < |states| && RollsFromLocalApplied(states[k])
    requires i < |plan.swaps| && Past(states[k].process.undo, i) && !states[k].process.failed
    requires plan.swaps[i].expected.Some? && plan.swaps[i].expected != plan.original.trees[i]
    ensures !HomeMatches(plan, states[k].disk)
  {
    RunKeeps(plan, states, labels, k);
    var files := states[k].disk.files;
    assert AtHome(plan, files, i) || IsOut(plan, files, i);
  }

  /** And it is the last point, where all is undone but the journal does not say so, unless the original home already
      was the promised one. */
  lemma UndoneHomeIsRefused(plan: Plan, states: seq<State>, labels: seq<Label>, k: nat)
    requires Run(plan, states, labels) && k < |states| && RollsFromLocalApplied(states[k])
    requires states[k].process.undo == WriteStatus && !states[k].process.failed
    requires plan.scan(plan.original) != Some(plan.expectedHashes)
    ensures !HomeMatches(plan, states[k].disk)
  {
    RunKeeps(plan, states, labels, k);
    var d := states[k].disk;
    forall i: nat | i < |plan.swaps| ensures HomeOf(plan, d).trees[i] == plan.original.trees[i] {
      assert AtHome(plan, d.files, i);
    }
    assert HomeOf(plan, d).trees == plan.original.trees;
  }

  // ----- the exception happens -----

  function Execute(plan: Plan, s: State, labels: seq<Label>): Option<State>
    decreases |labels|
  {
    if labels == [] then Some(s)
    else
      var next := Next(plan, s, labels[0]);
      if next.None? then None else Execute(plan, next.value, labels[1..])
  }

  /** The states that a sequence of labels goes through. */
  function Trace(plan: Plan, s: State, labels: seq<Label>): seq<State>
    requires Execute(plan, s, labels).Some?
    decreases |labels|
  {
    [s] + if labels == [] then [] else Trace(plan, Next(plan, s, labels[0]).value, labels[1..])
  }

  lemma {:induction false} TraceSteps(plan: Plan, s: State, labels: seq<Label>)
    requires Execute(plan, s, labels).Some?
    ensures var states := Trace(plan, s, labels);
      && |states| == |labels| + 1 && states[0] == s && states[|labels|] == Execute(plan, s, labels).value
      && forall i: nat {:trigger StepAt(plan, states, labels, i)} :: i < |labels| ==> StepAt(plan, states, labels, i)
    decreases |labels|
  {
    if labels != [] {
      var s', rest := Next(plan, s, labels[0]).value, labels[1..];
      TraceSteps(plan, s', rest);
      var states, later := Trace(plan, s, labels), Trace(plan, s', rest);
      forall i: nat | i < |labels| ensures StepAt(plan, states, labels, i) {
        if i > 0 {
          assert StepAt(plan, later, rest, i - 1);
          assert states[i] == later[i - 1] && states[i + 1] == later[i] && labels[i] == rest[i - 1];
        }
      }
    }
  }

  /** One directory, 0 before and 1 after, and a tracking update whose expected generation is not the current one. */
  function ExamplePlan(): Plan {
    Plan([Swap(true, None)], Home([Some(0)], []), 1, (home: Home) => Some(if home.trees == [Some(1)] then 1 else 0),
         Some(Update(Key(0, 0, 0), Some(1), Some(7), true)))
  }

  function ExampleStart(): State {
    State(Disk(map[Path(Live, 0) := 0], [], map[], None, Tables(map[], map[])), Idle, false)
  }

  function ExampleState(files: Files, journal: Journal, process: Process): State {
    State(Disk(files, [], map[], Some(journal), Tables(map[], map[])), process, false)
  }

  const OLD_LIVE: Files := map[Path(Live, 0) := 0]
  const STAGED: Files := map[Path(Live, 0) := 0, Path(Staged, 0) := 1]
  const MOVED_OUT: Files := map[Path(Backup, 0) := 0, Path(Staged, 0) := 1]
  const SWAPPED: Files := map[Path(Backup, 0) := 0, Path(Live, 0) := 1]
  const SET_ASIDE: Files := map[Path(Backup, 0) := 0, Path(Failed, 0) := 1]

  lemma Step(plan: Plan, s: State, l: Label, s': State, rest: seq<Label>)
    requires Next(plan, s, l) == Some(s')
    ensures Execute(plan, s, [l] + rest) == Execute(plan, s', rest)
  {
    assert ([l] + rest)[1..] == rest;
  }

  /** It stages the new directory. */
  lemma ExampleStages(rest: seq<Label>)
    ensures Execute(ExamplePlan(), ExampleStart(), [Start] + ([Stage(0, 1)] + ([Go] + ([Go] + rest))))
         == Execute(ExamplePlan(), ExampleState(STAGED, Journal(BackedUp, 0), Running(MarkApplying)), rest)
  {
    var plan := ExamplePlan();
    var s1 := ExampleState(OLD_LIVE, Journal(Preparing, 0), Running(Staging));
    var s2 := ExampleState(STAGED, Journal(Preparing, 0), Running(Staging));
    var s3 := ExampleState(STAGED, Journal(Preparing, 0), Running(MarkBackedUp));
    var s4 := ExampleState(STAGED, Journal(BackedUp, 0), Running(MarkApplying));
    assert STAGED == OLD_LIVE[Path(Staged, 0) := 1];
    Step(plan, s3, Go, s4, rest);
    Step(plan, s2, Go, s3, [Go] + rest);
    Step(plan, s1, Stage(0, 1), s2, [Go] + ([Go] + rest));
    Step(plan, ExampleStart(), Start, s1, [Stage(0, 1)] + ([Go] + ([Go] + rest)));
  }

  /** It swaps the directory. */
  lemma ExampleSwaps(rest: seq<Label>)
    ensures Execute(ExamplePlan(), ExampleState(STAGED, Journal(BackedUp, 0), Running(MarkApplying)),
            [Go] + ([Go] + ([Go] + rest)))
         == Execute(ExamplePlan(), ExampleState(SWAPPED, Journal(Applying, 0), Running(Editing)), rest)
  {
    var plan := ExamplePlan();
    var s4 := ExampleState(STAGED, Journal(BackedUp, 0), Running(MarkApplying));
    var s5 := ExampleState(STAGED, Journal(Applying, 0), Running(SwapOut(0)));
    var s6 := ExampleState(MOVED_OUT, Journal(Applying, 0), Running(SwapIn(0)));
    var s7 := ExampleState(SWAPPED, Journal(Applying, 0), Running(Editing));
    assert Rename(STAGED, Path(Live, 0), Path(Backup, 0)) == MOVED_OUT;
    assert Rename(MOVED_OUT, Path(Staged, 0), Path(Live, 0)) == SWAPPED;
    Step(plan, s6, Go, s7, rest);
    Step(plan, s5, Go, s6, [Go] + rest);
    Step(plan, s4, Go, s5, [Go] + ([Go] + rest));
  }

  /** It finds the promised home and writes LocalApplied. */
  lemma ExampleApplies(rest: seq<Label>)
    ensures Execute(ExamplePlan(), ExampleState(SWAPPED, Journal(Applying, 0), Running(Editing)),
            [Go] + ([Go] + ([Go] + ([Go] + rest))))
         == Execute(ExamplePlan(), ExampleState(SWAPPED, Journal(LocalApplied, 0), Running(Track)), rest)
  {
    var plan := ExamplePlan();
    var s7 := ExampleState(SWAPPED, Journal(Applying, 0), Running(Editing));
    var s8 := ExampleState(SWAPPED, Journal(Applying, 0), Running(MarkValidating));
    var s9 := ExampleState(SWAPPED, Journal(Validating, 0), Running(Check));
    var s10 := ExampleState(SWAPPED, Journal(Validating, 0), Running(MarkLocalApplied));
    var s11 := ExampleState(SWAPPED, Journal(LocalApplied, 0), Running(Track));
    assert HomeOf(plan, s9.disk).trees == [Some(1)];
    Step(plan, s10, Go, s11, rest);
    Step(plan, s9, Go, s10, [Go] + rest);
    Step(plan, s8, Go, s9, [Go] + ([Go] + rest));
    Step(plan, s7, Go, s8, [Go] + ([Go] + ([Go] + rest)));
  }

  /** Its tracking update is refused, it begins to roll back and dies, and recovery refuses. */
  lemma ExampleIsRefused()
    ensures Execute(ExamplePlan(), ExampleState(SWAPPED, Journal(LocalApplied, 0), Running(Track)),
                    [Fail] + ([Go] + ([Crash] + ([Recover] + ([Fail] + ([Go] + []))))))
         == Some(ExampleState(SET_ASIDE, Journal(LocalApplied, 0), Idle))
    ensures Next(ExamplePlan(), ExampleState(SWAPPED, Journal(LocalApplied, 0), Running(Track)), Go) == None
  {
    var plan := ExamplePlan();
    var s11 := ExampleState(SWAPPED, Journal(LocalApplied, 0), Running(Track));
    var s12 := ExampleState(SWAPPED, Journal(LocalApplied, 0), Rolling(Aside(1), true, 0, false));
    var s13 := ExampleState(SET_ASIDE, Journal(LocalApplied, 0), Rolling(Back(1), true, 0, false));
    var s14 := ExampleState(SET_ASIDE, Journal(LocalApplied, 0), Idle);
    var s15 := ExampleState(SET_ASIDE, Journal(LocalApplied, 0), Recovering(Validate));
    var s16 := ExampleState(SET_ASIDE, Journal(LocalApplied, 0), Recovering(Refuse));
    assert Rename(SWAPPED, Path(Live, 0), Path(Failed, 0)) == SET_ASIDE;
    Step(plan, s16, Go, s14, []);
    Step(plan, s15, Fail, s16, [Go] + []);
    Step(plan, s14, Recover, s15, [Fail] + ([Go] + []));
    Step(plan, s13, Crash, s14, [Recover] + ([Fail] + ([Go] + [])));
    Step(plan, s12, Go, s13, [Crash] + ([Recover] + ([Fail] + ([Go] + []))));
    Step(plan, s11, Fail, s12, [Go] + ([Crash] + ([Recover] + ([Fail] + ([Go] + [])))));
  }

  function ExampleLabels(): seq<Label> {
    var refusing := [Fail] + ([Go] + ([Crash] + ([Recover] + ([Fail] + ([Go] + [])))));
    var applying := [Go] + ([Go] + ([Go] + ([Go] + refusing)));
    [Start] + ([Stage(0, 1)] + ([Go] + ([Go] + ([Go] + ([Go] + ([Go] + applying))))))
  }

  lemma ExampleRuns()
    ensures Execute(ExamplePlan(), ExampleStart(), ExampleLabels())
         == Some(ExampleState(SET_ASIDE, Journal(LocalApplied, 0), Idle))
  {
    var refusing := [Fail] + ([Go] + ([Crash] + ([Recover] + ([Fail] + ([Go] + [])))));
    var applying := [Go] + ([Go] + ([Go] + ([Go] + refusing)));
    ExampleIsRefused();
    ExampleApplies(refusing);
    ExampleSwaps(applying);
    ExampleStages([Go] + ([Go] + ([Go] + applying)));
  }

  lemma ExampleEndRefused(s: State)
    requires s == ExampleState(SET_ASIDE, Journal(LocalApplied, 0), Idle)
    ensures Refused(ExamplePlan(), s) && !CanFinish(ExamplePlan(), s.disk)
  {
    assert HomeOf(ExamplePlan(), s.disk).trees == [None];
  }

  /** A run in which recovery has been tried and refuses, now and for ever: nothing that follows makes the journal
      terminal. */
  lemma RefusalHappens() returns (states: seq<State>, labels: seq<Label>)
    ensures Run(ExamplePlan(), states, labels)
    ensures Refused(ExamplePlan(), states[|labels|]) && !RecoveryEnds(ExamplePlan(), states[|labels|])
    ensures Recover in labels
  {
    var plan := ExamplePlan();
    labels := ExampleLabels();
    assert labels[14] == Recover;
    ExampleRuns();
    TraceSteps(plan, ExampleStart(), labels);
    states := Trace(plan, ExampleStart(), labels);
    assert HomeOf(plan, ExampleStart().disk).trees == plan.original.trees;
    ExampleEndRefused(states[|labels|]);
    RecoveryOfARun(plan, states, labels, |labels|);
  }
}
