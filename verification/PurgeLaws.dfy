/** What a permanent deletion of trash destroys, told from the request: the revisions of the operations asked for,
    and nothing else, at one step and over whole runs. */
module PurgeLaws {
  import opened Basics
  import opened ObjectGraph
  import opened Metadata
  import opened HistoryInvariant
  import opened Catalog
  import opened Server
  import opened GcSafety
  import opened HistoryRuns

  /** An operation of the namespace that is in the trash and that was asked for, by its id or with all others. */
  ghost predicate Asked(h: History, ns: NamespaceId, requested: seq<OperationId>, purgeAll: bool, op: OperationId) {
    && op in h.operations && h.operations[op].namespace == ns && h.operations[op].state == InTrash
    && (purgeAll || op in requested)
  }

  /** A revision that an operation asked for has put into the trash. */
  ghost predicate Doomed(h: History, ns: NamespaceId, requested: seq<OperationId>, purgeAll: bool, r: RevisionId) {
    && r in h.revisions && h.revisions[r].state == Trashed && h.revisions[r].trashOperation.Some?
    && Asked(h, ns, requested, purgeAll, h.revisions[r].trashOperation.value)
  }

  ghost predicate LeavesOrphan(h: History, ns: NamespaceId, requested: seq<OperationId>, purgeAll: bool) {
    exists r :: && r in h.revisions && h.revisions[r].state != Purged && !Doomed(h, ns, requested, purgeAll, r)
                && h.revisions[r].parent.Some? && Doomed(h, ns, requested, purgeAll, h.revisions[r].parent.value)
  }

  /** Everything, or distinct operations of the namespace that are all in the trash; and no child is left behind. */
  ghost predicate Acceptable(h: History, ns: NamespaceId, requested: seq<OperationId>, purgeAll: bool) {
    && ns in h.namespaces
    && (purgeAll <==> requested == [])
    && (forall i, j :: 0 <= i < j < |requested| ==> requested[i] != requested[j])
    && (forall op :: op in requested ==> Asked(h, ns, requested, purgeAll, op))
    && (exists op :: Asked(h, ns, requested, purgeAll, op))
    && !LeavesOrphan(h, ns, requested, purgeAll)
  }

  /** A path of edges leads from the root document of a doomed revision to the object. */
  ghost predicate InDoomedGraph(h: History, edges: set<Edge>, ns: NamespaceId, requested: seq<OperationId>,
                                purgeAll: bool, o: Obj) {
    exists r, path :: Doomed(h, ns, requested, purgeAll, r) && PathTo(edges, {RootObject(r)}, o, path)
  }

  // ----- the plan -----

  ghost predicate Selects(h: History, ns: NamespaceId, requested: seq<OperationId>, purgeAll: bool,
                          selected: set<OperationId>) {
    forall op :: op in selected <==> Asked(h, ns, requested, purgeAll, op)
  }

  lemma DoomedBySelection(h: History, ns: NamespaceId, requested: seq<OperationId>, purgeAll: bool,
                          selected: set<OperationId>, r: RevisionId)
    requires HistoryOk(h) && Selects(h, ns, requested, purgeAll, selected)
    ensures r in TrashedBy(h, ns, selected) <==> Doomed(h, ns, requested, purgeAll, r)
  {
    if r in h.revisions {
      assert RevisionOk(h, r);
    }
  }

  lemma DependentMeansOrphan(h: History, ns: NamespaceId, requested: seq<OperationId>, purgeAll: bool,
                             selected: set<OperationId>)
    requires HistoryOk(h) && Selects(h, ns, requested, purgeAll, selected)
    ensures HasDependentTrash(h, ns, selected) <==> LeavesOrphan(h, ns, requested, purgeAll)
  {
    PurgeRefusedIffItOrphans(h, ns, selected);
    forall r ensures r in TrashedBy(h, ns, selected) <==> Doomed(h, ns, requested, purgeAll, r) {
      DoomedBySelection(h, ns, requested, purgeAll, selected, r);
    }
  }

  lemma DoomedHasRoot(h: History, ns: NamespaceId, requested: seq<OperationId>, purgeAll: bool, r: RevisionId)
    requires HistoryOk(h) && Doomed(h, ns, requested, purgeAll, r)
    ensures r in h.roots && h.roots[r].sha256 == r
  {
    assert RevisionOk(h, r);
  }

  lemma PathFromOneRoot(edges: set<Edge>, roots: set<Obj>, root: Obj, o: Obj, path: seq<Obj>)
    requires PathTo(edges, roots, o, path) && path[0] == root
    ensures PathTo(edges, {root}, o, path)
  {
  }

  lemma CandidateGraph(h: History, edges: set<Edge>, ns: NamespaceId, requested: seq<OperationId>, purgeAll: bool,
                       selected: set<OperationId>, o: Obj)
    requires HistoryOk(h) && Selects(h, ns, requested, purgeAll, selected)
    ensures var roots := set r | r in TrashedBy(h, ns, selected) && r in h.roots :: RootObject(h.roots[r].sha256);
            o in Reach(edges, roots) <==> InDoomedGraph(h, edges, ns, requested, purgeAll, o)
  {
    var roots := set r | r in TrashedBy(h, ns, selected) && r in h.roots :: RootObject(h.roots[r].sha256);
    ReachIsPathReach(edges, roots, o);
    if o in Reach(edges, roots) {
      var path :| PathTo(edges, roots, o, path);
      var r :| r in TrashedBy(h, ns, selected) && r in h.roots && RootObject(h.roots[r].sha256) == path[0];
      DoomedBySelection(h, ns, requested, purgeAll, selected, r);
      DoomedHasRoot(h, ns, requested, purgeAll, r);
      PathFromOneRoot(edges, roots, RootObject(r), o, path);
    }
    if InDoomedGraph(h, edges, ns, requested, purgeAll, o) {
      var r, path :| Doomed(h, ns, requested, purgeAll, r) && PathTo(edges, {RootObject(r)}, o, path);
      DoomedBySelection(h, ns, requested, purgeAll, selected, r);
      DoomedHasRoot(h, ns, requested, purgeAll, r);
      assert PathTo(edges, roots, o, path);
    }
  }

  /** A plan is made exactly for an acceptable request. */
  lemma PlannedIffAcceptable(h: History, objects: Objects, ns: NamespaceId, requested: seq<OperationId>, purgeAll: bool)
    requires HistoryOk(h)
    ensures BuildPurgePlan(h, objects, ns, requested, purgeAll).Ok? <==> Acceptable(h, ns, requested, purgeAll)
  {
    var active, wanted := ActiveOperations(h, ns), Elements(requested);
    var selected := if purgeAll then active else wanted;
    if (purgeAll <==> requested == []) && (forall op :: op in requested ==> Asked(h, ns, requested, purgeAll, op)) {
      assert Selects(h, ns, requested, purgeAll, selected);
      DependentMeansOrphan(h, ns, requested, purgeAll, selected);
      assert selected == {} <==> !exists op :: Asked(h, ns, requested, purgeAll, op);
      assert !purgeAll ==> wanted <= active;
    } else {
      assert !purgeAll && wanted <= active ==> forall op :: op in requested ==> op in wanted;
    }
  }

  lemma PlanSelects(h: History, objects: Objects, ns: NamespaceId, requested: seq<OperationId>, purgeAll: bool)
    requires BuildPurgePlan(h, objects, ns, requested, purgeAll).Ok?
    ensures Selects(h, ns, requested, purgeAll,
                    BuildPurgePlan(h, objects, ns, requested, purgeAll).value.operations)
    ensures !purgeAll ==> BuildPurgePlan(h, objects, ns, requested, purgeAll).value.operations == Elements(requested)
  {
  }

  /** The plan names the operations asked for, counts the revisions they hold, and lists with its length every stored
      object that a path of edges links to one of those revisions. */
  lemma PlanMeans(h: History, objects: Objects, ns: NamespaceId, requested: seq<OperationId>, purgeAll: bool)
    requires HistoryOk(h) && BuildPurgePlan(h, objects, ns, requested, purgeAll).Ok?
    ensures var plan := BuildPurgePlan(h, objects, ns, requested, purgeAll).value;
            && (!purgeAll ==> forall op :: op in plan.operations <==> op in requested)
            && (forall op :: op in plan.operations <==> Asked(h, ns, requested, purgeAll, op))
            && plan.revisionCount == |set r | r in h.revisions && Doomed(h, ns, requested, purgeAll, r)|
            && (forall o :: o in plan.candidates <==>
                  o in objects.storage && InDoomedGraph(h, objects.edges, ns, requested, purgeAll, o))
            && (forall o :: o in plan.candidates ==> plan.candidates[o] == objects.storage[o].byteLength)
  {
    var plan := BuildPurgePlan(h, objects, ns, requested, purgeAll).value;
    PlanSelects(h, objects, ns, requested, purgeAll);
    forall r ensures r in TrashedBy(h, ns, plan.operations) <==> Doomed(h, ns, requested, purgeAll, r) {
      DoomedBySelection(h, ns, requested, purgeAll, plan.operations, r);
    }
    assert TrashedBy(h, ns, plan.operations) == set r | r in h.revisions && Doomed(h, ns, requested, purgeAll, r);
    forall o ensures o in plan.candidates <==>
        o in objects.storage && InDoomedGraph(h, objects.edges, ns, requested, purgeAll, o)
    {
      CandidateGraph(h, objects.edges, ns, requested, purgeAll, plan.operations, o);
    }
  }

  // ----- the step -----

  /** The operations asked for are emptied, their revisions are purged and lose their root rows; all else stays. */
  ghost predicate Destroys(h: History, h': History, ns: NamespaceId, requested: seq<OperationId>, purgeAll: bool) {
    && h'.namespaces == h.namespaces
    && h'.operations.Keys == h.operations.Keys && h'.revisions.Keys == h.revisions.Keys
    && (forall op :: op in h.operations ==>
          h'.operations[op] == if Asked(h, ns, requested, purgeAll, op) then h.operations[op].(state := Emptied)
                               else h.operations[op])
    && (forall r :: r in h.revisions ==>
          h'.revisions[r] == if Doomed(h, ns, requested, purgeAll, r) then h.revisions[r].(state := Purged)
                             else h.revisions[r])
    && (forall r :: r in h'.roots <==> r in h.roots && !Doomed(h, ns, requested, purgeAll, r))
    && (forall r :: r in h'.roots ==> h'.roots[r] == h.roots[r])
  }

  lemma PurgeDestroys(h: History, ns: NamespaceId, requested: seq<OperationId>, purgeAll: bool,
                      selected: set<OperationId>)
    requires HistoryOk(h) && Selects(h, ns, requested, purgeAll, selected)
    ensures Destroys(h, PurgeRevisions(h, ns, selected), ns, requested, purgeAll)
  {
    forall r ensures r in TrashedBy(h, ns, selected) <==> Doomed(h, ns, requested, purgeAll, r) {
      DoomedBySelection(h, ns, requested, purgeAll, selected, r);
    }
  }

  /** A request to delete trash either changes nothing at all, or destroys exactly what it asked for: in the history
      only the operations asked for and their revisions, in the object tables nothing yet, and no file. */
  lemma PurgeDestroysWhatWasAsked(cat: Contents, s: Sys, l: Label)
    requires SysOk(cat, s) && s.mode == Serving(map[]) && l.StartPurge? && Next(cat, s, l).Some?
    ensures var s' := Next(cat, s, l).value;
            if !s'.mode.Collecting? then s' == s
            else
              && Acceptable(s.history, l.ns, l.requested, l.purgeAll)
              && Destroys(s.history, s'.history, l.ns, l.requested, l.purgeAll)
              && s'.objects.storage == s.objects.storage && s'.objects.edges == s.objects.edges
              && s'.files == s.files && s'.quarantine == s.quarantine && s'.clock == s.clock
  {
    var s' := Next(cat, s, l).value;
    if s'.mode.Collecting? {
      PlannedIffAcceptable(s.history, s.objects, l.ns, l.requested, l.purgeAll);
      PlanSelects(s.history, s.objects, l.ns, l.requested, l.purgeAll);
      var plan := BuildPurgePlan(s.history, s.objects, l.ns, l.requested, l.purgeAll).value;
      PurgeDestroys(s.history, l.ns, l.requested, l.purgeAll, plan.operations);
    }
  }

  lemma PlanCommits(h: History, objects: Objects, ns: NamespaceId, requested: seq<OperationId>, purgeAll: bool,
                    operation: OperationId, now: Time)
    requires BuildPurgePlan(h, objects, ns, requested, purgeAll).Ok?
    requires forall e :: e in objects.queue ==> e.operation != operation
    ensures CommitPurge(h, objects, ns, BuildPurgePlan(h, objects, ns, requested, purgeAll).value, operation, now).Ok?
  {
    var plan := BuildPurgePlan(h, objects, ns, requested, purgeAll).value;
    PlanSelects(h, objects, ns, requested, purgeAll);
    assert plan.operations <= ActiveOperations(h, ns);
    assert PlanSelected(h, objects, ns, plan.operations) == Ok(plan);
    forall o | o in plan.candidates
      ensures o in objects.storage && objects.storage[o].byteLength == plan.candidates[o]
    {
    }
  }

  /** A plan is carried out, under an id that is new to the queue, exactly while planning the same operations again
      gives that very plan. */
  lemma OnlyACurrentPlanIsCarriedOut(h: History, objects: Objects, ns: NamespaceId, requested: seq<OperationId>,
                                     expected: PurgePlan, operation: OperationId, now: Time)
    requires Distinct(requested) && expected.operations == Elements(requested)
    requires forall e :: e in objects.queue ==> e.operation != operation
    ensures CommitPurge(h, objects, ns, expected, operation, now).Ok?
            <==> BuildPurgePlan(h, objects, ns, requested, false) == Ok(expected)
  {
    if BuildPurgePlan(h, objects, ns, requested, false) == Ok(expected) {
      PlanCommits(h, objects, ns, requested, false, operation, now);
    }
    if requested == [] {
      assert expected.operations == {};
    } else {
      assert requested[0] in expected.operations;
    }
  }

  /** Under an id that is new to the queue an acceptable request always goes through. */
  lemma AcceptablePurgeGoesThrough(cat: Contents, s: Sys, l: Label)
    requires SysOk(cat, s) && s.mode == Serving(map[]) && l.StartPurge?
    requires forall e :: e in s.objects.queue ==> e.operation != l.operation
    ensures Next(cat, s, l).Some?
    ensures Next(cat, s, l).value.mode.Collecting? <==> Acceptable(s.history, l.ns, l.requested, l.purgeAll)
  {
    PlannedIffAcceptable(s.history, s.objects, l.ns, l.requested, l.purgeAll);
    if BuildPurgePlan(s.history, s.objects, l.ns, l.requested, l.purgeAll).Ok? {
      PlanCommits(s.history, s.objects, l.ns, l.requested, l.purgeAll, l.operation, s.clock);
    }
  }

  // ----- whole runs -----

  /** The label asks for the permanent deletion of the operation, which belongs to `ns`. */
  ghost predicate AsksFor(l: Label, ns: NamespaceId, op: OperationId) {
    l.StartPurge? && l.ns == ns && (l.purgeAll || op in l.requested)
  }

  /** An operation that nobody restores and nobody asks to delete keeps its row and all its revisions. */
  lemma SparedAtStep(cat: Contents, s: Sys, l: Label, op: OperationId)
    requires SysOk(cat, s) && Next(cat, s, l).Some?
    requires op in s.history.operations && s.history.operations[op].state == InTrash
    requires !AsksFor(l, s.history.operations[op].namespace, op) && !(l.Restore? && l.op == op)
    ensures var h' := Next(cat, s, l).value.history;
            op in h'.operations && h'.operations[op] == s.history.operations[op]
  {
    if l.StartPurge? && s.mode == Serving(map[]) {
      PurgeDestroysWhatWasAsked(cat, s, l);
    } else if !l.Truncate? && !l.Restore? && !l.StartPurge? {
      SharedStepsKeepOperations(cat, s, l);
    }
  }

  lemma SparedAtRunStep(cat: Contents, states: seq<Sys>, labels: seq<Label>, j: nat, op: OperationId)
    requires Run(cat, states, labels) && j < |labels|
    requires op in states[j].history.operations && states[j].history.operations[op].state == InTrash
    requires !AsksFor(labels[j], states[j].history.operations[op].namespace, op)
    requires !(labels[j].Restore? && labels[j].op == op)
    ensures op in states[j + 1].history.operations
    ensures states[j + 1].history.operations[op] == states[j].history.operations[op]
  {
    RunKeeps(cat, states, labels, j);
    assert StepAt(cat, states, labels, j);
    SparedAtStep(cat, states[j], labels[j], op);
  }

  lemma {:induction false} SparedOverRun(cat: Contents, states: seq<Sys>, labels: seq<Label>, i: nat, j: nat,
                                         op: OperationId)
    requires Run(cat, states, labels) && i <= j < |states|
    requires op in states[i].history.operations && states[i].history.operations[op].state == InTrash
    requires forall k :: i <= k < j ==>
      !AsksFor(labels[k], states[i].history.operations[op].namespace, op) && !(labels[k].Restore? && labels[k].op == op)
    ensures op in states[j].history.operations
    ensures states[j].history.operations[op] == states[i].history.operations[op]
    decreases j - i
  {
    if i < j {
      SparedOverRun(cat, states, labels, i, j - 1, op);
      SparedAtRunStep(cat, states, labels, j - 1, op);
    }
  }

  /** Over every run, what an operation holds stays in the trash, each revision with its root row, until the
      operation itself is restored or its deletion is asked for. */
  lemma TrashStaysUntilAskedFor(cat: Contents, states: seq<Sys>, labels: seq<Label>, i: nat, j: nat, op: OperationId,
                                r: RevisionId)
    requires Run(cat, states, labels) && i <= j < |states|
    requires op in states[i].history.operations && states[i].history.operations[op].state == InTrash
    requires r in states[i].history.revisions && states[i].history.revisions[r].trashOperation == Some(op)
    requires forall k :: i <= k < j ==>
      !AsksFor(labels[k], states[i].history.operations[op].namespace, op) && !(labels[k].Restore? && labels[k].op == op)
    ensures op in states[j].history.operations && states[j].history.operations[op] == states[i].history.operations[op]
    ensures r in states[j].history.revisions
    ensures states[j].history.revisions[r].state == Trashed && states[j].history.revisions[r].trashOperation == Some(op)
    ensures r in states[j].history.roots && states[j].history.roots[r].sha256 == r
  {
    SparedOverRun(cat, states, labels, i, j, op);
    RunEvolves(cat, states, labels, i, j);
    var a, b := states[i].history, states[j].history;
    StillTagged(a, b, op, r);
    TaggedIsTrashed(b, op, r);
    assert RevisionOk(b, r);
  }

  /** The revisions of an operation that is still in the trash are those it had. */
  lemma StillTagged(a: History, b: History, op: OperationId, r: RevisionId)
    requires HistoryOk(a) && HistoryOk(b) && SameForest(a.revisions, b.revisions)
    requires op in a.operations && op in b.operations && b.operations[op] == a.operations[op]
    requires a.operations[op].state == InTrash && r in TaggedWith(a.revisions, op)
    ensures r in TaggedWith(b.revisions, op)
  {
    var operation := a.operations[op];
    assert OperationOk(a, op) && OperationOk(b, op);
    if operation.newHead.Some? {
      AncestryClosed(a.revisions, operation.oldHead, operation.newHead.value);
    }
    AncestryStable(a.revisions, b.revisions, operation.oldHead);
    AncestryStable(a.revisions, b.revisions, operation.newHead);
  }
}
