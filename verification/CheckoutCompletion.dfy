/** An apply that meets no failure: where it gets to, and when it completes. */
module CheckoutCompletion {
  import opened Basics
  import opened Tracking
  import opened Checkout
  import opened CheckoutSafety
  import opened CheckoutRecovery

  // ----- up to the edits of the databases -----

  predicate BeforeEditing(step: ApplyStep) {
    step.Staging? || step.CopyDatabase? || step.RecordBackup? || step.MarkBackedUp? || step.MarkApplying?
    || step.SwapOut? || step.SwapIn?
  }

  /** How many swaps are done. */
  function Done(step: ApplyStep): nat {
    match step
    case SwapOut(i) => i
    case SwapIn(i) => i
    case _ => 0
  }

  function ToGo(plan: Plan, step: ApplyStep): int {
    var d, n := |plan.original.databases|, 2 * |plan.swaps|;
    match step
    case Staging => 2 * d + n + 4
    case CopyDatabase(k) => 2 * (d - k) + n + 3
    case RecordBackup(k) => 2 * (d - k) + n + 2
    case MarkBackedUp => n + 2
    case MarkApplying => n + 1
    case SwapOut(i) => n - 2 * i
    case SwapIn(i) => n - 2 * i - 1
    case _ => 0
  }

  predicate StagedFrom(plan: Plan, files: Files, from: nat) {
    forall i: nat :: from <= i < |plan.swaps| ==> Path(Staged, i) in files
  }

  /** What the home will hold for swap `i`. */
  function Target(s: State, step: ApplyStep, i: nat): Option<Tree> {
    At(s.disk.files, if i < Done(step) then Live else Staged, i)
  }

  /** `t` is editing the databases, with every target live and all else as in `s`. */
  ghost predicate ReachesEditing(plan: Plan, s: State, step: ApplyStep, t: State) {
    && t.process == Running(Editing) && t.disk.journal.Some? && t.reconciled == s.reconciled
    && t.disk.databases == s.disk.databases && t.disk.tracking == s.disk.tracking
    && forall i: nat :: i < |plan.swaps| ==> At(t.disk.files, Live, i) == Target(s, step, i)
  }

  lemma OneStepOn(plan: Plan, s: State)
    requires StateOk(plan, s) && s.disk.journal.Some? && s.process.Running? && BeforeEditing(s.process.step)
    requires StagedFrom(plan, s.disk.files, Done(s.process.step))
    ensures Next(plan, s, Go).Some?
    ensures var s' := Next(plan, s, Go).value;
      && s'.disk.journal.Some? && s'.process.Running? && s'.reconciled == s.reconciled
      && s'.disk.databases == s.disk.databases && s'.disk.tracking == s.disk.tracking
      && (s'.process.step == Editing || BeforeEditing(s'.process.step))
      && 0 <= ToGo(plan, s'.process.step) < ToGo(plan, s.process.step)
  {
    if s.process.step.SwapOut? {
      assert AtHome(plan, s.disk.files, s.process.step.i);
    }
  }

  lemma TargetsStay(plan: Plan, s: State)
    requires StateOk(plan, s) && s.disk.journal.Some? && s.process.Running? && BeforeEditing(s.process.step)
    requires StagedFrom(plan, s.disk.files, Done(s.process.step)) && Next(plan, s, Go).Some?
    requires Next(plan, s, Go).value.process.Running?
    ensures var s', step := Next(plan, s, Go).value, s.process.step;
      && (s'.process.step != Editing ==> StagedFrom(plan, s'.disk.files, Done(s'.process.step)))
      && forall i: nat :: i < |plan.swaps| ==>
           Target(s, step, i)
           == if s'.process.step == Editing then At(s'.disk.files, Live, i) else Target(s', s'.process.step, i)
  {
    var s' := Next(plan, s, Go).value;
    forall i: nat | i < |plan.swaps|
      ensures Target(s, s.process.step, i)
           == if s'.process.step == Editing then At(s'.disk.files, Live, i) else Target(s', s'.process.step, i)
    {
    }
  }

  /** Left alone, an apply whose trees are all staged gets to the databases. */
  lemma {:induction false} GoReachesEditing(plan: Plan, s: State) returns (n: nat)
    requires StateOk(plan, s) && s.disk.journal.Some? && s.process.Running? && BeforeEditing(s.process.step)
    requires StagedFrom(plan, s.disk.files, Done(s.process.step))
    ensures Going(plan, s, n).Some? && ReachesEditing(plan, s, s.process.step, Going(plan, s, n).value)
    decreases ToGo(plan, s.process.step)
  {
    OneStepOn(plan, s);
    TargetsStay(plan, s);
    GoKeeps(plan, s);
    var s' := Next(plan, s, Go).value;
    if s'.process.step == Editing {
      n := 1;
      assert Going(plan, s', 0) == Some(s');
    } else {
      var m := GoReachesEditing(plan, s');
      n := m + 1;
    }
  }

  // ----- from the edits to the end -----

  ghost predicate Completes(s: State, t: State) {
    && AtRest(t) && t.disk.journal.value.status == Completed && t.reconciled
    && t.disk.files == s.disk.files && t.disk.databases == s.disk.databases
  }

  lemma TrackedEndsExactly(plan: Plan, s: State)
    requires s.process == Running(Track) && s.disk.journal.Some?
    ensures Going(plan, s, 2).Some? <==> TrackGoes(plan, s.disk.tracking)
    ensures Going(plan, s, 2).Some? ==> Completes(s, Going(plan, s, 2).value)
  {
    assert Going(plan, s, 0) == Some(s);
    OneMore(plan, s, 0);
    if TrackGoes(plan, s.disk.tracking) {
      OneMore(plan, s, 1);
    }
  }

  lemma CheckedEndsExactly(plan: Plan, s: State)
    requires s.process == Running(Check) && s.disk.journal.Some?
    ensures Going(plan, s, 4).Some? <==> HomeMatches(plan, s.disk) && TrackGoes(plan, s.disk.tracking)
    ensures Going(plan, s, 4).Some? ==> Completes(s, Going(plan, s, 4).value)
  {
    if HomeMatches(plan, s.disk) {
      assert Going(plan, s, 0) == Some(s);
      OneMore(plan, s, 0);
      OneMore(plan, s, 1);
      GoingOn(plan, s, 2, 2);
      TrackedEndsExactly(plan, Going(plan, s, 2).value);
    }
  }

  /** Left alone after its edits, an apply ends terminal exactly if the home is the promised one and the tracking update
      goes through. */
  lemma EditedEndsExactly(plan: Plan, s: State)
    requires s.process == Running(Editing) && s.disk.journal.Some?
    ensures Going(plan, s, 6).Some? <==> HomeMatches(plan, s.disk) && TrackGoes(plan, s.disk.tracking)
    ensures Going(plan, s, 6).Some? ==> Completes(s, Going(plan, s, 6).value)
  {
    assert Going(plan, s, 0) == Some(s);
    OneMore(plan, s, 0);
    OneMore(plan, s, 1);
    GoingOn(plan, s, 2, 4);
    var checking := Going(plan, s, 2).value;
    assert HomeOf(plan, checking.disk) == HomeOf(plan, s.disk);
    CheckedEndsExactly(plan, checking);
  }

  // ----- the whole apply -----

  predicate AreEdits(edits: seq<Label>, n: nat) {
    forall i :: 0 <= i < |edits| ==> edits[i].Edit? && edits[i].k < n
  }

  function Edited(databases: seq<Database>, edits: seq<Label>): seq<Database>
    requires AreEdits(edits, |databases|)
    decreases |edits|
  {
    if edits == [] then databases else Edited(databases[edits[0].k := edits[0].content], edits[1..])
  }

  lemma {:induction false} EditsRun(plan: Plan, s: State, edits: seq<Label>)
    requires s.process == Running(Editing) && AreEdits(edits, |s.disk.databases|)
    ensures Execute(plan, s, edits) == Some(s.(disk := s.disk.(databases := Edited(s.disk.databases, edits))))
    decreases |edits|
  {
    if edits != [] {
      EditsRun(plan, Next(plan, s, edits[0]).value, edits[1..]);
    }
  }

  lemma {:induction false} ExecuteConcat(plan: Plan, s: State, a: seq<Label>, b: seq<Label>)
    requires Execute(plan, s, a).Some?
    ensures Execute(plan, s, a + b) == Execute(plan, Execute(plan, s, a).value, b)
    decreases |a|
  {
    if a == [] {
      assert a + b == b;
    } else {
      assert (a + b)[1..] == a[1..] + b;
      ExecuteConcat(plan, Next(plan, s, a[0]).value, a[1..], b);
    }
  }

  function Gos(n: nat): seq<Label> {
    seq(n, i => Go)
  }

  lemma {:induction false} GosGo(plan: Plan, s: State, n: nat)
    ensures Execute(plan, s, Gos(n)) == Going(plan, s, n)
    decreases n
  {
    if n > 0 {
      assert Gos(n)[1..] == Gos(n - 1);
      var next := Next(plan, s, Go);
      if next.Some? {
        GosGo(plan, next.value, n - 1);
      }
    }
  }

  predicate Promised(plan: Plan, home: Home) {
    && |home.trees| == |plan.swaps|
    && plan.scan(home) == Some(plan.expectedHashes)
    && forall i :: 0 <= i < |plan.swaps| && plan.swaps[i].expected.Some? ==> home.trees[i] == plan.swaps[i].expected
  }

  /** The home that is to come: the staged trees and the edited databases. */
  function NewHome(plan: Plan, d: Disk, edits: seq<Label>): Home
    requires AreEdits(edits, |d.databases|)
  {
    Home(seq(|plan.swaps|, i requires 0 <= i < |plan.swaps| => At(d.files, Staged, i)), Edited(d.databases, edits))
  }

  /** An apply that has staged everything and meets no failure completes exactly if the new home is the promised one and
      the tracking update goes through; then the home is the new one. */
  lemma ApplyCompletesExactly(plan: Plan, s: State, edits: seq<Label>) returns (n: nat)
    requires StateOk(plan, s) && s.disk.journal.Some? && s.process == Running(Staging)
    requires StagedFrom(plan, s.disk.files, 0) && AreEdits(edits, |s.disk.databases|)
    ensures var end := Execute(plan, s, Gos(n) + edits + Gos(6));
      && (end.Some? <==> Promised(plan, NewHome(plan, s.disk, edits)) && TrackGoes(plan, s.disk.tracking))
      && (end.Some? ==>
            && AtRest(end.value) && end.value.disk.journal.value.status == Completed && end.value.reconciled
            && HomeOf(plan, end.value.disk) == NewHome(plan, s.disk, edits))
  {
    n := GoReachesEditing(plan, s);
    GosGo(plan, s, n);
    var t := Going(plan, s, n).value;
    EditsRun(plan, t, edits);
    ExecuteConcat(plan, s, Gos(n), edits);
    var u := t.(disk := t.disk.(databases := Edited(s.disk.databases, edits)));
    ExecuteConcat(plan, s, Gos(n) + edits, Gos(6));
    GosGo(plan, u, 6);
    EditedEndsExactly(plan, u);
    NewHomeIsThere(plan, s, t, u, edits);
  }

  lemma NewHomeIsThere(plan: Plan, s: State, t: State, u: State, edits: seq<Label>)
    requires s.process == Running(Staging) && ReachesEditing(plan, s, Staging, t)
    requires AreEdits(edits, |s.disk.databases|)
    requires u == t.(disk := t.disk.(databases := Edited(s.disk.databases, edits)))
    ensures HomeOf(plan, u.disk) == NewHome(plan, s.disk, edits)
    ensures HomeMatches(plan, u.disk) <==> Promised(plan, NewHome(plan, s.disk, edits))
  {
    assert HomeOf(plan, u.disk).trees == NewHome(plan, s.disk, edits).trees;
  }
}
