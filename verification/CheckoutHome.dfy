/** The loops of checkout, rollback and recovery over a home, when no operation fails. */
module CheckoutHomes {
  import opened Basics
  import opened Tracking
  import opened Checkout
  import opened CheckoutSafety
  import opened CheckoutRecovery

  /** The machine before swap `i`, on the disk `d`. */
  function Swapping(plan: Plan, d: Disk, i: nat): State {
    State(d, Running(SwapsFrom(plan, i)), false)
  }

  /** The machine in a rollback that has met no failure. */
  function Undoing(d: Disk, undo: RollbackStep, started: bool): State
    requires d.journal.Some?
  {
    State(d, Rolling(undo, started, d.journal.value.backups, false), false)
  }

  /** How many steps a rollback without failures takes. */
  function RollbackLength(plan: Plan, backups: nat, started: bool): nat {
    2 * |plan.swaps| + 3 + if started then backups else 0
  }

  /** Recovery started on the disk `d` and left alone comes to the disk `d'`. */
  ghost predicate RecoversTo(plan: Plan, d: Disk, reconciled: bool, d': Disk) {
    var start := Next(plan, State(d, Idle, reconciled), Recover);
    start.Some? && exists n: nat, r: bool :: Going(plan, start.value, n) == Some(State(d', Idle, r))
  }

  lemma AppliedRecovers(plan: Plan, d: Disk, reconciled: bool)
    requires d.journal.Some? && d.journal.value.status == LocalApplied
    requires HomeMatches(plan, d) && TrackGoes(plan, d.tracking)
    ensures NextTrack(plan, State(d, Idle, reconciled), Idle).Some?
    ensures RecoversTo(plan, d, reconciled,
            Mark(NextTrack(plan, State(d, Idle, reconciled), Idle).value.disk, Completed))
  {
    var start := State(d, Recovering(Validate), reconciled);
    assert Next(plan, State(d, Idle, reconciled), Recover) == Some(start);
    assert Going(plan, start, 0) == Some(start);
    OneMore(plan, start, 0);
    OneMore(plan, start, 1);
    OneMore(plan, start, 2);
  }

  /** The machine takes the disk `d` to `d'` and finds no staged tree for swap `i`. */
  ghost predicate StopsAt(plan: Plan, d: Disk, d': Disk, i: nat) {
    && i < |plan.swaps|
    && Going(plan, Swapping(plan, d, 0), 2 * i + 1) == Some(State(d', Running(SwapIn(i)), false))
    && Next(plan, State(d', Running(SwapIn(i)), false), Go).None?
  }

  lemma SwapsGoOn(plan: Plan, d: Disk, here: Disk, there: Disk, i: nat)
    requires Going(plan, Swapping(plan, d, 0), 2 * i) == Some(Swapping(plan, here, i))
    requires Going(plan, Swapping(plan, here, i), 2) == Some(Swapping(plan, there, i + 1))
    ensures Going(plan, Swapping(plan, d, 0), 2 * (i + 1)) == Some(Swapping(plan, there, i + 1))
  {
    GoingOn(plan, Swapping(plan, d, 0), 2 * i, 2);
  }

  lemma SwapsStop(plan: Plan, d: Disk, here: Disk, there: Disk, i: nat)
    requires i < |plan.swaps| && Going(plan, Swapping(plan, d, 0), 2 * i) == Some(Swapping(plan, here, i))
    requires Going(plan, Swapping(plan, here, i), 1) == Some(State(there, Running(SwapIn(i)), false))
    requires Next(plan, State(there, Running(SwapIn(i)), false), Go).None?
    ensures StopsAt(plan, d, there, i)
  {
    GoingOn(plan, Swapping(plan, d, 0), 2 * i, 1);
  }

  /** The first `i` swaps are done and the others are as they were. */
  ghost predicate SwapsDone(plan: Plan, before: Files, files: Files, i: nat) {
    && SwappedUpTo(plan, files, i) && FreshFrom(plan, files, i)
    && (forall k: nat :: k < i ==> Path(Staged, k) in before && At(files, Live, k) == At(before, Staged, k))
    && (forall k: nat :: i <= k ==> At(files, Staged, k) == At(before, Staged, k))
  }

  lemma OneMoreDone(plan: Plan, before: Files, files: Files, files': Files, i: nat)
    requires SwapsDone(plan, before, files, i) && i < |plan.swaps|
    requires OnlySwap(files, files', i) && IsSwapped(plan, files', i)
    requires Path(Staged, i) in files && At(files', Live, i) == At(files, Staged, i)
    ensures SwapsDone(plan, before, files', i + 1)
  {
    forall k: nat | k != i
      ensures At(files', Failed, k) == At(files, Failed, k) && At(files', Staged, k) == At(files, Staged, k)
      ensures At(files', Live, k) == At(files, Live, k)
      ensures AtHome(plan, files', k) <==> AtHome(plan, files, k)
      ensures IsSwapped(plan, files', k) <==> IsSwapped(plan, files, k)
    {
    }
  }

  class CheckoutHome {
    var files: Files
    var databases: seq<Database>
    var backups: map<nat, Database>
    var journal: Journal
    var tracking: Tables

    ghost function View(): Disk
      reads this
    {
      Disk(files, databases, backups, Some(journal), tracking)
    }

    constructor (d: Disk)
      requires d.journal.Some?
      ensures View() == d
    {
      files, databases, backups := d.files, d.databases, d.backups;
      journal, tracking := d.journal.value, d.tracking;
    }

    /** `apply_directory_swaps`, then `apply_file_swaps`: both loops are steps of the machine. */
    method ApplySwaps(plan: Plan) returns (ok: bool)
      requires PlanOk(plan) && FreshFrom(plan, files, 0)
      modifies this`files
      ensures ok <==> forall i: nat :: i < |plan.swaps| ==> Path(Staged, i) in old(files)
      ensures ok ==> SwappedUpTo(plan, files, |plan.swaps|)
      ensures ok ==> forall i: nat :: i < |plan.swaps| ==> At(files, Live, i) == At(old(files), Staged, i)
      ensures SwapsOk(plan, files)
      ensures ok ==>
        Going(plan, Swapping(plan, old(View()), 0), 2 * |plan.swaps|)
        == Some(Swapping(plan, View(), |plan.swaps|))
      ensures !ok ==> exists i: nat :: StopsAt(plan, old(View()), View(), i)
    {
      FreshIsOk(plan, files);
      ghost var d := View();
      for i := 0 to |plan.swaps|
        invariant SwapsOk(plan, files) && SwapsDone(plan, d.files, files, i)
        invariant Going(plan, Swapping(plan, d, 0), 2 * i) == Some(Swapping(plan, View(), i))
      {
        assert AtHome(plan, files, i) && At(files, Failed, i) == None;
        assert At(files, Staged, i) == At(d.files, Staged, i);
        ghost var here := View();
        var swapped := ApplySwap(plan, i);
        if !swapped {
          SwapsStop(plan, d, here, View(), i);
          return false;
        }
        SwapsGoOn(plan, d, here, View(), i);
        OneMoreDone(plan, d.files, here.files, files, i);
      }
      return true;
    }

    /** One swap: the live tree moves out, the staged one in. */
    method ApplySwap(plan: Plan, i: nat) returns (ok: bool)
      requires PlanOk(plan) && i < |plan.swaps| && SwapsOk(plan, files)
      requires AtHome(plan, files, i) && At(files, Failed, i) == None
      modifies this`files
      ensures ok <==> Path(Staged, i) in old(files)
      ensures OnlySwap(old(files), files, i) && SwapsOk(plan, files)
      ensures ok ==> IsSwapped(plan, files, i) && At(files, Live, i) == At(old(files), Staged, i)
      ensures ok ==> Going(plan, Swapping(plan, old(View()), i), 2) == Some(Swapping(plan, View(), i + 1))
      ensures !ok ==>
        && Going(plan, Swapping(plan, old(View()), i), 1) == Some(State(View(), Running(SwapIn(i)), false))
        && Next(plan, State(View(), Running(SwapIn(i)), false), Go).None?
    {
      ghost var before := files;
      ghost var start := Swapping(plan, View(), i);
      if Path(Live, i) in files {
        files := Rename(files, Path(Live, i), Path(Backup, i));
      }
      assert Going(plan, start, 0) == Some(start);
      OneMore(plan, start, 0);
      ok := Path(Staged, i) in files;
      if ok {
        files := Rename(files, Path(Staged, i), Path(Live, i));
        OneMore(plan, start, 1);
      }
      assert OnlySwap(before, files, i);
      OnlySwapKeeps(plan, before, files, i);
      assert IsSwapped(plan, files, i) || IsOut(plan, files, i) || AtHome(plan, files, i);
      forall k: nat | k < |plan.swaps| ensures SwapOk(plan, files, k) {
        assert SwapOk(plan, before, k);
      }
    }

    /** One swap of `rollback_checkout`. */
    method UndoSwap(plan: Plan, i: nat, started: bool)
      requires PlanOk(plan) && i < |plan.swaps| && SwapsOk(plan, files)
      requires !started ==> AtHome(plan, files, i)
      modifies this`files
      ensures SwapsOk(plan, files) && AtHome(plan, files, i)
      ensures forall k: nat :: k != i && AtHome(plan, old(files), k) ==> AtHome(plan, files, k)
      ensures Going(plan, Undoing(old(View()), Aside(i + 1), started), 2) == Some(Undoing(View(), Aside(i), started))
    {
      ghost var before := files;
      ghost var start := Undoing(View(), Aside(i + 1), started);
      assert SwapOk(plan, files, i);
      if started {
        SetAsideWorks(plan, files, i);
        var swapStarted := SwapStarted(files, i, plan.swaps[i].originalExisted);
        if swapStarted && Path(Live, i) in files {
          files := Rename(files, Path(Live, i), Path(Failed, i));
        }
        assert SetAside(before, i, plan.swaps[i].originalExisted) == Some(files);
        PutBackWorks(plan, files, i);
        if swapStarted && Path(Backup, i) in files && Path(Live, i) !in files {
          files := Rename(files, Path(Backup, i), Path(Live, i));
        }
      }
      assert Going(plan, start, 0) == Some(start);
      OneMore(plan, start, 0);
      OneMore(plan, start, 1);
      assert OnlySwap(before, files, i) && AtHome(plan, files, i);
      OnlySwapKeeps(plan, before, files, i);
      ghost var put := files;
      files := files - {Path(Staged, i)};
      StagedDoesNotMatter(plan, put, files);
      forall k: nat | k < |plan.swaps| ensures SwapOk(plan, files, k) {
        assert SwapOk(plan, before, k);
      }
    }

    /** The swaps of `rollback_checkout`, in reverse. */
    method UndoSwaps(plan: Plan, started: bool)
      requires PlanOk(plan) && SwapsOk(plan, files)
      requires !started ==> HomeFrom(plan, files, 0)
      modifies this`files
      ensures HomeFrom(plan, files, 0)
      ensures Going(plan, Undoing(old(View()), Aside(|plan.swaps|), started), 2 * |plan.swaps|)
              == Some(Undoing(View(), Aside(0), started))
    {
      ghost var start := Undoing(View(), Aside(|plan.swaps|), started);
      for left := |plan.swaps| downto 0
        invariant SwapsOk(plan, files) && HomeFrom(plan, files, left)
        invariant !started ==> HomeFrom(plan, files, 0)
        invariant Going(plan, start, 2 * (|plan.swaps| - left)) == Some(Undoing(View(), Aside(left), started))
      {
        assert !started ==> AtHome(plan, files, left);
        ghost var before := files;
        UndoSwap(plan, left, started);
        GoingOn(plan, start, 2 * (|plan.swaps| - left - 1), 2);
        forall k: nat | k < |plan.swaps| && (left < k || !started) ensures AtHome(plan, files, k) {
          assert AtHome(plan, before, k);
        }
      }
    }

    /** The databases of `rollback_checkout`. */
    method RestoreDatabases(plan: Plan)
      requires |databases| == |plan.original.databases|
      requires BackupsGood(plan, backups, journal.backups) && BackedUpFully(plan, journal)
      modifies this`databases
      ensures databases == plan.original.databases
      ensures Going(plan, Undoing(old(View()), RestoreDatabase(0), true), journal.backups)
              == Some(Undoing(View(), RestoreDatabase(journal.backups), true))
    {
      ghost var start := Undoing(View(), RestoreDatabase(0), true);
      for k := 0 to journal.backups
        invariant |databases| == |plan.original.databases|
        invariant forall m :: 0 <= m < k ==> databases[m] == plan.original.databases[m]
        invariant Going(plan, start, k) == Some(Undoing(View(), RestoreDatabase(k), true))
      {
        databases := databases[k := backups[k]];
        OneMore(plan, start, k);
      }
    }

    /** `rollback_checkout`: from anything a crash may leave, one uninterrupted rollback restores the home. */
    method RollbackCheckout(plan: Plan, started: bool)
      requires PlanOk(plan) && |databases| == |plan.original.databases|
      requires BackupsGood(plan, backups, journal.backups)
      requires SwapsOk(plan, files)
      requires if started then BackedUpFully(plan, journal) else Untouched(plan, View())
      modifies this`files, this`databases, this`journal
      ensures HomeOf(plan, View()) == plan.original
      ensures journal == Journal(RolledBack, old(journal).backups)
      ensures Going(plan, Undoing(old(View()), Aside(|plan.swaps|), started),
              RollbackLength(plan, journal.backups, started))
              == Some(State(View(), Idle, false))
    {
      ghost var start, steps := Undoing(View(), Aside(|plan.swaps|), started), 2 * |plan.swaps|;
      UndoSwaps(plan, started);
      OneMore(plan, start, steps);
      steps := steps + 1;
      if started {
        RestoreDatabases(plan);
        GoingOn(plan, start, steps, journal.backups);
        steps := steps + journal.backups;
      }
      OneMore(plan, start, steps);
      OneMore(plan, start, steps + 1);
      journal := journal.(status := RolledBack);
      forall i: nat | i < |plan.swaps| ensures HomeOf(plan, View()).trees[i] == plan.original.trees[i] {
        assert AtHome(plan, files, i);
      }
      assert HomeOf(plan, View()).trees == plan.original.trees;
    }

    /** `recover_checkout_operation`.  A journal that is terminal stays as it is.  One that reads
        LocalApplied completes exactly when the live home matches and the tracking update goes
        through; otherwise recovery refuses and leaves it unfinished.  Any other is rolled back. */
    method RecoverCheckoutOperation(plan: Plan, ghost reconciled: bool) returns (finished: bool)
      requires PlanOk(plan) && |databases| == |plan.original.databases|
      requires BackupsGood(plan, backups, journal.backups)
      requires CrashOk(plan, View(), journal, reconciled)
      modifies this
      ensures finished <==> Terminal(journal.status)
      ensures finished <==> CanFinish(plan, old(View()))
      ensures Terminal(old(journal).status) ==> View() == old(View())
      ensures old(journal).status == LocalApplied && finished ==>
                View() == Mark(NextTrack(plan, State(old(View()), Idle, reconciled), Idle).value.disk, Completed)
      ensures old(journal).status == LocalApplied && !finished ==> View() == old(View())
      ensures !Terminal(old(journal).status) && old(journal).status != LocalApplied ==>
                journal.status == RolledBack && HomeOf(plan, View()) == plan.original && tracking == old(tracking)
      ensures finished && !Terminal(old(journal).status) ==> RecoversTo(plan, old(View()), reconciled, View())
    {
      if journal.status == Completed || journal.status == RolledBack {
        return true;
      }
      if journal.status == LocalApplied {
        if !HomeMatches(plan, Disk(files, databases, backups, Some(journal), tracking)) {
          return false;
        }
        if plan.update.Some? {
          var u := plan.update.value;
          var r := ReconcileCheckout(tracking, u.key, u.expected, u.head, u.activate);
          if r.Err? {
            return false;
          }
          tracking := r.value;
        }
        AppliedRecovers(plan, old(View()), reconciled);
        journal := journal.(status := Completed);
        return true;
      }
      if Untouched(plan, View()) {
        FreshIsOk(plan, files);
      }
      RollbackCheckout(plan, LocalWriteStarted(journal.status));
      return true;
    }
  }
}
