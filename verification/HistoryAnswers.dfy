/** What commit, truncation and restoring answer, and what they leave in every table: exactly when each goes through,
    what each refusal says, and, over whole runs, where a stored revision comes from and how long trash can be
    restored. */
module HistoryAnswers {
  import opened Basics
  import opened Metadata
  import opened HistoryInvariant
  import opened Catalog
  import opened Server
  import opened GcSafety
  import opened HistoryRuns

  /** The tables differ at one key at most. */
  ghost predicate OnlyAt<K, V>(m: map<K, V>, m': map<K, V>, k: K) {
    && m'.Keys == m.Keys + {k}
    && forall x :: x in m && x != k ==> m'[x] == m[x]
  }

  lemma UpdatedOnlyAt<K, V>(m: map<K, V>, k: K, v: V)
    ensures OnlyAt(m, m[k := v], k) && m[k := v][k] == v
  {
  }

  // ----- commit -----

  /** The namespace is there, at this head and epoch. */
  ghost predicate IsAt(h: History, ns: NamespaceId, head: Option<RevisionId>, epoch: nat) {
    ns in h.namespaces && h.namespaces[ns].head == head && h.namespaces[ns].epoch == epoch
  }

  /** The tables hold this very revision, root row included. */
  ghost predicate Holds(h: History, revision: NewRevision) {
    && revision.id in h.revisions && revision.id in h.roots
    && h.revisions[revision.id].namespace == revision.namespace
    && h.revisions[revision.id].parent == revision.parent
    && h.revisions[revision.id].details == revision.details
    && h.roots[revision.id].schema == revision.schema
  }

  /** The revision is added as an active one and becomes the head; nothing else changes. */
  ghost predicate Adds(h: History, h': History, revision: NewRevision) {
    && Holds(h', revision)
    && h'.revisions[revision.id].state == Active
    && h'.operations == h.operations
    && OnlyAt(h.revisions, h'.revisions, revision.id) && OnlyAt(h.roots, h'.roots, revision.id)
    && OnlyAt(h.namespaces, h'.namespaces, revision.namespace)
    && revision.namespace in h.namespaces
    && IsAt(h', revision.namespace, Some(revision.id), h.namespaces[revision.namespace].epoch)
  }

  lemma HeadIsStored(h: History, ns: NamespaceId)
    requires HistoryOk(h) && ns in h.namespaces && h.namespaces[ns].head.Some?
    ensures h.namespaces[ns].head.value in h.revisions && h.namespaces[ns].head.value in h.roots
    ensures h.revisions[h.namespaces[ns].head.value].namespace == ns
  {
    var head := h.namespaces[ns].head;
    assert NamespaceOk(h, ns);
    assert head.value in Ancestry(h.revisions, head);
    assert head.value in InState(h.revisions, ns, Active);
    assert RevisionOk(h, head.value);
  }

  lemma CommittedAdds(h: History, revision: NewRevision)
    requires revision.namespace in h.namespaces && revision.id !in h.revisions && revision.id !in h.roots
    ensures Adds(h, Committed(h, revision), revision)
  {
    var h' := Committed(h, revision);
    UpdatedOnlyAt(h.revisions, revision.id, h'.revisions[revision.id]);
    UpdatedOnlyAt(h.roots, revision.id, Root(revision.id, revision.schema));
    UpdatedOnlyAt(h.namespaces, revision.namespace, h'.namespaces[revision.namespace]);
  }

  lemma ParentIsStored(h: History, revision: NewRevision)
    requires HistoryOk(h) && revision.namespace in h.namespaces
    requires revision.parent == h.namespaces[revision.namespace].head
    ensures revision.parent.Some? ==>
      revision.parent.value in h.revisions && h.revisions[revision.parent.value].namespace == revision.namespace
  {
    if revision.parent.Some? {
      HeadIsStored(h, revision.namespace);
    }
  }

  /** A commit is answered Created exactly if the namespace is at the head and epoch expected, the id is new and the
      parent is that head; the revision is then added. */
  lemma CreatedExactly(h: History, expectedHead: Option<RevisionId>, expectedEpoch: nat, revision: NewRevision)
    requires HistoryOk(h)
    ensures var answer := CommitRevisionRoot(h, expectedHead, expectedEpoch, revision);
            && (answer.Ok? && answer.value.1 == Created <==>
                  && IsAt(h, revision.namespace, expectedHead, expectedEpoch)
                  && revision.id !in h.revisions && revision.parent == expectedHead)
            && (answer.Ok? && answer.value.1 == Created ==> Adds(h, answer.value.0, revision))
  {
    if IsAt(h, revision.namespace, expectedHead, expectedEpoch) && revision.id !in h.revisions
       && revision.parent == expectedHead {
      ParentIsStored(h, revision);
      CommittedAdds(h, revision);
    } else if CommitRevisionRoot(h, expectedHead, expectedEpoch, revision).Ok? {
      assert revision.id in h.revisions;
    }
  }

  /** It is answered AlreadyCommitted exactly if the very revision is the head at that epoch; then nothing changes. */
  lemma AlreadyCommittedExactly(h: History, expectedHead: Option<RevisionId>, expectedEpoch: nat, revision: NewRevision)
    requires HistoryOk(h)
    ensures var answer := CommitRevisionRoot(h, expectedHead, expectedEpoch, revision);
            && (answer.Ok? && answer.value.1 == AlreadyCommitted <==>
                  IsAt(h, revision.namespace, Some(revision.id), expectedEpoch) && Holds(h, revision))
            && (answer.Ok? && answer.value.1 == AlreadyCommitted ==> answer.value.0 == h)
  {
    if revision.namespace in h.namespaces && h.namespaces[revision.namespace].head == Some(revision.id) {
      HeadIsStored(h, revision.namespace);
    }
  }

  /** What a refused commit says: the present epoch if another was expected, else, for a revision that is new, the
      present head if another was expected. */
  lemma CommitRefusesExactly(h: History, expectedHead: Option<RevisionId>, expectedEpoch: nat, revision: NewRevision)
    requires HistoryOk(h) && CommitRevisionRoot(h, expectedHead, expectedEpoch, revision).Err?
    ensures var error := CommitRevisionRoot(h, expectedHead, expectedEpoch, revision).error;
            if revision.namespace !in h.namespaces then error == NotFound
            else
              var current := h.namespaces[revision.namespace];
              if current.epoch != expectedEpoch then error == EpochMismatch(current.epoch)
              else if revision.id !in h.revisions && current.head != expectedHead then
                error == HeadMismatch(current.head)
              else error == RevisionConflict
  {
    if revision.namespace in h.namespaces && h.namespaces[revision.namespace].head.Some? {
      HeadIsStored(h, revision.namespace);
    }
  }

  /** A client that did not hear the answer can commit again, whatever head it now expects: it is told that the revision
      is there, and nothing changes. */
  lemma CommitCanBeRetried(h: History, expectedHead: Option<RevisionId>, anyHead: Option<RevisionId>,
                           expectedEpoch: nat, revision: NewRevision)
    requires CommitRevisionRoot(h, expectedHead, expectedEpoch, revision).Ok?
    ensures var h' := CommitRevisionRoot(h, expectedHead, expectedEpoch, revision).value.0;
            CommitRevisionRoot(h', anyHead, expectedEpoch, revision) == Ok((h', AlreadyCommitted))
  {
  }

  // ----- truncation -----

  ghost predicate Truncatable(h: History, ns: NamespaceId, head: Option<RevisionId>, epoch: nat,
                              newHead: Option<RevisionId>, op: OperationId) {
    && IsAt(h, ns, head, epoch)
    && newHead != head && (newHead.Some? ==> newHead.value in Ancestry(h.revisions, head))
    && |Ancestry(h.revisions, head) - Ancestry(h.revisions, newHead)| <= 100_000
    && epoch < 0xFFFF_FFFF_FFFF_FFFF
    && op !in h.operations
  }

  /** The revisions above the new head are put into the trash under `op`, for thirty days; the namespace is at the new
      head, one epoch on; nothing else changes. */
  ghost predicate Cuts(h: History, h': History, ns: NamespaceId, newHead: Option<RevisionId>, op: OperationId,
                       now: Time)
    requires ns in h.namespaces
  {
    var head, epoch := h.namespaces[ns].head, h.namespaces[ns].epoch;
    var cut := Ancestry(h.revisions, head) - Ancestry(h.revisions, newHead);
    && h'.roots == h.roots
    && IsAt(h', ns, newHead, epoch + 1)
    && OnlyAt(h.namespaces, h'.namespaces, ns) && OnlyAt(h.operations, h'.operations, op)
    && h'.operations[op].namespace == ns && h'.operations[op].state == InTrash
    && h'.operations[op].oldHead == head && h'.operations[op].newHead == newHead
    && h'.operations[op].epochBefore == epoch && h'.operations[op].epochAfter == epoch + 1
    && h'.operations[op].expiresAt == now + 2_592_000_000 && h'.operations[op].revisionCount == |cut|
    && h'.revisions.Keys == h.revisions.Keys
    && (forall r :: r in h.revisions && r !in cut ==> h'.revisions[r] == h.revisions[r])
    && (forall r :: r in cut ==>
          && r in h.revisions && h.revisions[r].state == Active
          && h'.revisions[r] == h.revisions[r].(state := Trashed, trashOperation := Some(op)))
  }

  lemma TruncatedCuts(h: History, ns: NamespaceId, newHead: Option<RevisionId>, op: OperationId, now: Time)
    requires HistoryOk(h) && ns in h.namespaces && OnChain(h.revisions, newHead, h.namespaces[ns].head)
    requires op !in h.operations
    ensures Cuts(h, Truncated(h, ns, newHead, op, now), ns, newHead, op, now)
  {
    var h' := Truncated(h, ns, newHead, op, now);
    UpdatedOnlyAt(h.namespaces, ns, h'.namespaces[ns]);
    UpdatedOnlyAt(h.operations, op, h'.operations[op]);
    CutSegment(h, ns, newHead);
    forall r | r in Segment(h.revisions, h.namespaces[ns].head, newHead)
      ensures r in h.revisions && h.revisions[r].state == Active
    {
      assert r in InState(h.revisions, ns, Active);
    }
  }

  /** A truncation goes through exactly if the namespace is at the head and epoch expected, the new head is below it on
      its chain, the cut is not too long, the epoch can still grow and the operation is new. */
  lemma TruncationAnswersExactly(h: History, ns: NamespaceId, head: Option<RevisionId>, epoch: nat,
                                 newHead: Option<RevisionId>, op: OperationId, now: Time)
    requires HistoryOk(h)
    ensures TruncateHistory(h, ns, head, epoch, newHead, op, now).Ok? <==> Truncatable(h, ns, head, epoch, newHead, op)
    ensures Truncatable(h, ns, head, epoch, newHead, op) ==>
      Cuts(h, TruncateHistory(h, ns, head, epoch, newHead, op, now).value, ns, newHead, op, now)
  {
    if Truncatable(h, ns, head, epoch, newHead, op) {
      TruncatedCuts(h, ns, newHead, op, now);
    }
  }

  lemma TruncationRefusesExactly(h: History, ns: NamespaceId, head: Option<RevisionId>, epoch: nat,
                                 newHead: Option<RevisionId>, op: OperationId, now: Time)
    requires TruncateHistory(h, ns, head, epoch, newHead, op, now).Err?
    ensures var error := TruncateHistory(h, ns, head, epoch, newHead, op, now).error;
            if ns !in h.namespaces then error == NotFound
            else if h.namespaces[ns].head != head then error == HeadMismatch(h.namespaces[ns].head)
            else if h.namespaces[ns].epoch != epoch then error == EpochMismatch(h.namespaces[ns].epoch)
            else error == RevisionConflict || error == Sqlite
  {
  }

  // ----- restoring -----

  ghost predicate Restorable(h: History, ns: NamespaceId, op: OperationId, head: Option<RevisionId>, epoch: nat,
                             now: Time) {
    && IsAt(h, ns, head, epoch) && epoch < 0xFFFF_FFFF_FFFF_FFFF
    && op in h.operations && h.operations[op].namespace == ns && h.operations[op].state == InTrash
    && h.operations[op].newHead == head && now < h.operations[op].expiresAt
  }

  /** The revisions of the operation are active again, the namespace is at its old head, one epoch on, and the
      operation is restored; nothing else changes. */
  ghost predicate BringsBack(h: History, h': History, ns: NamespaceId, op: OperationId)
    requires ns in h.namespaces && op in h.operations
  {
    && h'.roots == h.roots
    && IsAt(h', ns, h.operations[op].oldHead, h.namespaces[ns].epoch + 1)
    && OnlyAt(h.namespaces, h'.namespaces, ns) && OnlyAt(h.operations, h'.operations, op)
    && h'.operations[op] == h.operations[op].(state := Restored)
    && h'.revisions.Keys == h.revisions.Keys
    && (forall r :: r in h.revisions ==>
          h'.revisions[r] == if h.revisions[r].trashOperation == Some(op)
                             then h.revisions[r].(state := Active, trashOperation := None) else h.revisions[r])
  }

  /** A restore goes through exactly for unexpired trash of the namespace, if this is back at the head it was cut to. */
  lemma RestoringAnswersExactly(h: History, ns: NamespaceId, op: OperationId, head: Option<RevisionId>, epoch: nat,
                                now: Time)
    ensures RestoreHistoryTrash(h, ns, op, head, epoch, now).Ok? <==> Restorable(h, ns, op, head, epoch, now)
    ensures Restorable(h, ns, op, head, epoch, now) ==>
      BringsBack(h, RestoreHistoryTrash(h, ns, op, head, epoch, now).value, ns, op)
  {
    if Restorable(h, ns, op, head, epoch, now) {
      var h' := Reinstated(h, ns, op);
      UpdatedOnlyAt(h.namespaces, ns, h'.namespaces[ns]);
      UpdatedOnlyAt(h.operations, op, h'.operations[op]);
    }
  }

  lemma RestoringRefusesExactly(h: History, ns: NamespaceId, op: OperationId, head: Option<RevisionId>, epoch: nat,
                                now: Time)
    requires RestoreHistoryTrash(h, ns, op, head, epoch, now).Err?
    ensures var error := RestoreHistoryTrash(h, ns, op, head, epoch, now).error;
            if ns !in h.namespaces then error == NotFound
            else if h.namespaces[ns].head != head then error == HeadMismatch(h.namespaces[ns].head)
            else if h.namespaces[ns].epoch != epoch then error == EpochMismatch(h.namespaces[ns].epoch)
            else if op !in h.operations || h.operations[op].namespace != ns then error == NotFound
            else error == RevisionConflict
  {
  }

  /** Trash that garbage collection still protects is trash that can be restored, as soon as the namespace is back at
      the head it was cut to; and the other way round. */
  lemma ProtectedWhileRestorable(h: History, r: RevisionId, now: Time)
    requires HistoryOk(h) && r in h.revisions && h.revisions[r].state == Trashed
    ensures h.revisions[r].trashOperation.Some? && h.revisions[r].trashOperation.value in h.operations
    ensures var op := h.revisions[r].trashOperation.value;
            var ns, head := h.revisions[r].namespace, h.operations[op].newHead;
            Protected(h, r, now) <==>
              RestoreHistoryTrash(h.(namespaces := h.namespaces[ns := Namespace(head, 0)]), ns, op, head, 0, now).Ok?
  {
    assert RevisionOk(h, r);
  }

  // ----- the steps of the server -----

  /** A commit whose checks have all passed can be finished, and changes the history exactly if its document is of the
      namespace and parent announced and the namespace is still at the head and epoch expected; the revision that the
      document describes is then added. */
  lemma CommitFinishesExactly(cat: Contents, s: Sys, t: nat)
    requires SysOk(cat, s) && s.mode.Serving? && t in s.mode.tasks && s.mode.tasks[t].Commit?
    requires s.mode.tasks[t].done == |RootChecks(cat, s.mode.tasks[t].root)|
    ensures Next(cat, s, FinishCommit(t)).Some?
    ensures var c, h, h' := s.mode.tasks[t], s.history, Next(cat, s, FinishCommit(t)).value.history;
            var d := ContentOf(cat, RootObject(c.root));
            if d.RevisionDocument? && d.namespace == c.namespace && d.parent == c.expectedHead
               && IsAt(h, c.namespace, c.expectedHead, c.expectedEpoch) && c.root !in h.revisions
            then Adds(h, h', NewRevision(c.root, d.namespace, d.parent, d.details, 4))
            else h' == h
    ensures var c, d := s.mode.tasks[t], ContentOf(cat, RootObject(s.mode.tasks[t].root));
            CommitAnswer(cat, s.history, c).Ok? ==>
              d.RevisionDocument? && d.namespace == c.namespace && d.parent == c.expectedHead
  {
    var c := s.mode.tasks[t];
    if ContentOf(cat, RootObject(c.root)).RevisionDocument? {
      CreatedExactly(s.history, c.expectedHead, c.expectedEpoch, RevisionOf(cat, c.root));
      AlreadyCommittedExactly(s.history, c.expectedHead, c.expectedEpoch, RevisionOf(cat, c.root));
    }
  }

  /** A truncation that finds the gate free cuts the history, or changes nothing at all. */
  lemma TruncateStepExactly(cat: Contents, s: Sys, l: Label)
    requires HistoryOk(s.history) && s.mode == Serving(map[]) && l.Truncate?
    ensures Next(cat, s, l).Some?
    ensures var s' := Next(cat, s, l).value;
            && s' == s.(history := s'.history)
            && if Truncatable(s.history, l.ns, l.head, l.epoch, l.newHead, l.op) then
                 Cuts(s.history, s'.history, l.ns, l.newHead, l.op, s.clock)
               else s' == s
  {
    TruncationAnswersExactly(s.history, l.ns, l.head, l.epoch, l.newHead, l.op, s.clock);
  }

  /** And so does a restore. */
  lemma RestoreStepExactly(cat: Contents, s: Sys, l: Label)
    requires s.mode == Serving(map[]) && l.Restore?
    ensures Next(cat, s, l).Some?
    ensures var s' := Next(cat, s, l).value;
            && s' == s.(history := s'.history)
            && if Restorable(s.history, l.ns, l.op, l.head, l.epoch, s.clock) then
                 BringsBack(s.history, s'.history, l.ns, l.op)
               else s' == s
  {
    RestoringAnswersExactly(s.history, l.ns, l.op, l.head, l.epoch, s.clock);
  }

  // ----- whole runs -----

  /** A restore comes less than thirty days after the truncation it undoes. */
  lemma RestoredWithinThirtyDays(cat: Contents, states: seq<Sys>, labels: seq<Label>, i: nat, j: nat,
                                 ns: NamespaceId, op: OperationId)
    requires Run(cat, states, labels) && i < j < |labels|
    requires Truncates(states, labels, i, ns, op) && Restores(states, labels, j, op)
    ensures states[j].clock < states[i].clock + 2_592_000_000
  {
    TrashExpires(cat, states, labels, i, j, ns, op);
    assert StepAt(cat, states, labels, j);
    RestoredBeforeExpiry(cat, states[j], labels[j], op);
  }

  lemma RestoredBeforeExpiry(cat: Contents, s: Sys, l: Label, op: OperationId)
    requires Next(cat, s, l).Some?
    requires op in s.history.operations && s.history.operations[op].state == InTrash
    requires op in Next(cat, s, l).value.history.operations
    requires Next(cat, s, l).value.history.operations[op].state == Restored
    ensures s.clock < s.history.operations[op].expiresAt
  {
    if !l.Restore? {
      OtherStepsDoNotRestore(cat, s, l, op);
    }
  }

  /** The operation recorded at step `i` keeps its namespace, its heads and its expiry. */
  lemma TrashExpires(cat: Contents, states: seq<Sys>, labels: seq<Label>, i: nat, j: nat, ns: NamespaceId,
                     op: OperationId)
    requires Run(cat, states, labels) && i < j < |states| && i < |labels| && Truncates(states, labels, i, ns, op)
    ensures op in states[j].history.operations
    ensures states[j].history.operations[op].namespace == ns
    ensures states[j].history.operations[op].newHead == labels[i].newHead
    ensures states[j].history.operations[op].expiresAt == states[i].clock + 2_592_000_000
  {
    assert StepAt(cat, states, labels, i);
    RunEvolves(cat, states, labels, i + 1, j);
    assert SameOperation(states[i + 1].history, states[j].history, op);
  }

  /** In a run, trash can be restored exactly while it is in the trash, the namespace is back at the head it was cut to
      and the request knows that head and the epoch, for thirty days. */
  lemma RestorableForThirtyDays(cat: Contents, states: seq<Sys>, labels: seq<Label>, i: nat, j: nat, ns: NamespaceId,
                                op: OperationId, head: Option<RevisionId>, epoch: nat)
    requires Run(cat, states, labels) && i < j < |states| && i < |labels| && Truncates(states, labels, i, ns, op)
    requires states[j].mode == Serving(map[]) && epoch < 0xFFFF_FFFF_FFFF_FFFF
    ensures Next(cat, states[j], Restore(ns, op, head, epoch)).Some?
    ensures op in states[j].history.operations
    ensures Next(cat, states[j], Restore(ns, op, head, epoch)).value.history != states[j].history <==>
      && states[j].history.operations[op].state == InTrash
      && IsAt(states[j].history, ns, head, epoch) && head == labels[i].newHead
      && states[j].clock < states[i].clock + 2_592_000_000
  {
    TrashExpires(cat, states, labels, i, j, ns, op);
    RestoringAnswersExactly(states[j].history, ns, op, head, epoch, states[j].clock);
  }

  /** The row is what the document under the revision's id says. */
  ghost predicate AsDocumented(cat: Contents, h: History, r: RevisionId)
    requires r in h.revisions
  {
    match ContentOf(cat, RootObject(r))
    case RevisionDocument(ns, parent, details, _) =>
      && h.revisions[r].namespace == ns && h.revisions[r].parent == parent && h.revisions[r].details == details
      && (r in h.roots ==> h.roots[r] == Root(r, 4))
    case _ => false
  }

  /** Step `l` finishes a commit of `r` that is answered Created. */
  ghost predicate CreatesRevision(cat: Contents, s: Sys, l: Label, r: RevisionId) {
    && l.FinishCommit? && s.mode.Serving? && l.task in s.mode.tasks && s.mode.tasks[l.task].Commit?
    && s.mode.tasks[l.task].root == r
    && CommitAnswer(cat, s.history, s.mode.tasks[l.task]).Ok?
    && CommitAnswer(cat, s.history, s.mode.tasks[l.task]).value.1 == Created
  }

  /** The row of `r` and its root row, if it keeps that, say what they said. */
  ghost predicate KeepsRow(h: History, h': History, r: RevisionId)
    requires r in h.revisions
  {
    && r in h'.revisions
    && h'.revisions[r].namespace == h.revisions[r].namespace
    && h'.revisions[r].parent == h.revisions[r].parent && h'.revisions[r].details == h.revisions[r].details
    && (r in h'.roots ==> r in h.roots && h'.roots[r] == h.roots[r])
  }

  lemma ExclusiveKeepsRow(cat: Contents, s: Sys, l: Label, r: RevisionId)
    requires s.mode == Serving(map[]) && NextExclusive(cat, s, l).Some?
    ensures r in NextExclusive(cat, s, l).value.history.revisions <==> r in s.history.revisions
    ensures r in s.history.revisions ==> KeepsRow(s.history, NextExclusive(cat, s, l).value.history, r)
  {
    var h, h' := s.history, NextExclusive(cat, s, l).value.history;
    if h' != h {
      match l
      case Truncate(ns, _, _, newHead, op) => assert h' == Truncated(h, ns, newHead, op, s.clock);
      case Restore(ns, op, _, _) => assert h' == Reinstated(h, ns, op);
      case StartPurge(ns, requested, purgeAll, _) =>
        PurgeKeepsRow(h, ns, BuildPurgePlan(h, s.objects, ns, requested, purgeAll).value.operations, r);
    }
  }

  lemma PurgeKeepsRow(h: History, ns: NamespaceId, selected: set<OperationId>, r: RevisionId)
    ensures r in PurgeRevisions(h, ns, selected).revisions <==> r in h.revisions
    ensures r in h.revisions ==> KeepsRow(h, PurgeRevisions(h, ns, selected), r)
  {
  }

  lemma CommitKeepsRow(cat: Contents, s: Sys, l: Label, r: RevisionId)
    requires s.mode.Serving? && NextTask(cat, s, l).Some?
    ensures r in s.history.revisions ==> KeepsRow(s.history, NextTask(cat, s, l).value.history, r)
    ensures r in NextTask(cat, s, l).value.history.revisions && r !in s.history.revisions ==>
      CreatesRevision(cat, s, l, r) && AsDocumented(cat, NextTask(cat, s, l).value.history, r)
  {
  }

  lemma StepKeepsRow(cat: Contents, s: Sys, l: Label, r: RevisionId)
    requires Next(cat, s, l).Some?
    ensures r in s.history.revisions ==> KeepsRow(s.history, Next(cat, s, l).value.history, r)
    ensures r in Next(cat, s, l).value.history.revisions && r !in s.history.revisions ==>
      CreatesRevision(cat, s, l, r) && AsDocumented(cat, Next(cat, s, l).value.history, r)
  {
    if !l.Tick? && !l.Crash? && !l.Boot? && !l.CreateNamespace? {
      if !s.mode.Serving? {
        SweepKeepsHistory(s, l);
      } else if l.Truncate? || l.Restore? || l.StartPurge? || l.StartGc? {
        ExclusiveKeepsRow(cat, s, l, r);
      } else {
        CommitKeepsRow(cat, s, l, r);
      }
    }
  }

  /** Over every run, a revision that is stored was created by one commit, and its row and root row say to this day what
      its document says. */
  lemma {:induction false} StoredAsCommitted(cat: Contents, states: seq<Sys>, labels: seq<Label>, j: nat,
                                             r: RevisionId)
    returns (i: nat)
    requires Run(cat, states, labels) && j < |states| && r in states[j].history.revisions
    ensures i < j && CreatesRevision(cat, states[i], labels[i], r)
    ensures r !in states[i].history.revisions && r in states[i + 1].history.revisions
    ensures AsDocumented(cat, states[j].history, r)
  {
    if j == 0 {
      assert false;
    } else {
      assert StepAt(cat, states, labels, j - 1);
      StepKeepsRow(cat, states[j - 1], labels[j - 1], r);
      if r in states[j - 1].history.revisions {
        i := StoredAsCommitted(cat, states, labels, j - 1, r);
      } else {
        i := j - 1;
      }
    }
  }
}
