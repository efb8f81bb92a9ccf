/** What every transaction keeps true of the history tables. */
module HistoryInvariant {
  import opened Basics
  import opened Metadata

  // ----- parent chains -----

  /** Parents are present, in the same namespace, and older: the parent relation is a forest. */
  ghost predicate Ranked(revs: Revisions) {
    forall r {:trigger RowRanked(revs, r)} :: r in revs ==> RowRanked(revs, r)
  }

  ghost predicate RowRanked(revs: Revisions, r: RevisionId)
    requires r in revs
  {
    && revs[r].rowid < |revs|
    && (revs[r].parent.Some? ==>
          && revs[r].parent.value in revs
          && revs[revs[r].parent.value].rowid < revs[r].rowid
          && revs[revs[r].parent.value].namespace == revs[r].namespace)
  }

  ghost predicate Known(revs: Revisions, from: Option<RevisionId>) {
    from.Some? ==> from.value in revs
  }

  lemma {:induction false} AncestryClosed(revs: Revisions, from: Option<RevisionId>, a: RevisionId)
    requires Ranked(revs) && a in Ancestry(revs, from)
    ensures from.Some? && from.value in revs && a in revs
    ensures revs[a].namespace == revs[from.value].namespace
    ensures revs[a].rowid <= revs[from.value].rowid
    ensures revs[a].rowid == revs[from.value].rowid ==> a == from.value
    ensures revs[a].parent.Some? ==> revs[a].parent.value in Ancestry(revs, from)
    ensures Ancestry(revs, Some(a)) <= Ancestry(revs, from)
    decreases if from.Some? && from.value in revs then revs[from.value].rowid + 1 else 0
  {
    assert RowRanked(revs, from.value);
    if a != from.value {
      AncestryClosed(revs, revs[from.value].parent, a);
    }
  }

  /** Two revisions on one chain: one is an ancestor of the other. */
  lemma {:induction false} ChainIsLinear(revs: Revisions, from: Option<RevisionId>, a: RevisionId, b: RevisionId)
    requires Ranked(revs) && a in Ancestry(revs, from) && b in Ancestry(revs, from)
    ensures a in Ancestry(revs, Some(b)) || b in Ancestry(revs, Some(a))
    decreases if from.Some? && from.value in revs then revs[from.value].rowid + 1 else 0
  {
    if a != from.value && b != from.value {
      ChainIsLinear(revs, revs[from.value].parent, a, b);
    }
  }

  /** Parents never change and rows are never deleted. */
  ghost predicate SameForest(revs: Revisions, revs': Revisions) {
    forall r :: r in revs ==>
      && r in revs' && revs'[r].parent == revs[r].parent
      && revs'[r].rowid == revs[r].rowid && revs'[r].namespace == revs[r].namespace
  }

  lemma {:induction false} AncestryStable(revs: Revisions, revs': Revisions, from: Option<RevisionId>)
    requires Ranked(revs) && SameForest(revs, revs') && Known(revs, from)
    ensures Ancestry(revs', from) == Ancestry(revs, from)
    decreases if from.Some? && from.value in revs then revs[from.value].rowid + 1 else 0
  {
    if from.Some? {
      assert RowRanked(revs, from.value);
      AncestryStable(revs, revs', revs[from.value].parent);
    }
  }

  // ----- the invariant -----

  /** The part of the chain of `oldHead` that truncating to `newHead` cuts off. */
  function Segment(revs: Revisions, oldHead: Option<RevisionId>, newHead: Option<RevisionId>): set<RevisionId> {
    Ancestry(revs, oldHead) - Ancestry(revs, newHead)
  }

  ghost predicate NamespaceOk(h: History, ns: NamespaceId)
    requires ns in h.namespaces
  {
    && Known(h.revisions, h.namespaces[ns].head)
    && InState(h.revisions, ns, Active) == Ancestry(h.revisions, h.namespaces[ns].head)
  }

  ghost predicate RevisionOk(h: History, r: RevisionId)
    requires r in h.revisions
  {
    var row := h.revisions[r];
    && row.namespace in h.namespaces
    && (row.state == Active ==> row.trashOperation.None?)
    && (row.state != Active ==>
          && row.trashOperation.Some?
          && row.trashOperation.value in h.operations
          && h.operations[row.trashOperation.value].namespace == row.namespace
          && h.operations[row.trashOperation.value].state == if row.state == Trashed then InTrash else Emptied)
    && (r in h.roots <==> row.state != Purged)
    && (r in h.roots ==> h.roots[r].sha256 == r)
    && (row.state != Purged && row.parent.Some? && row.parent.value in h.revisions ==>
          h.revisions[row.parent.value].state != Purged)
  }

  ghost predicate OperationOk(h: History, op: OperationId)
    requires op in h.operations
  {
    var operation := h.operations[op];
    operation.state == InTrash ==>
      && operation.namespace in h.namespaces
      && operation.oldHead.Some?
      && operation.oldHead.value in h.revisions
      && h.revisions[operation.oldHead.value].namespace == operation.namespace
      && operation.oldHead != operation.newHead
      && OnChain(h.revisions, operation.newHead, operation.oldHead)
      && TaggedWith(h.revisions, op) == Segment(h.revisions, operation.oldHead, operation.newHead)
      && operation.revisionCount == |TaggedWith(h.revisions, op)|
  }

  ghost predicate HistoryOk(h: History) {
    && Ranked(h.revisions)
    && h.roots.Keys <= h.revisions.Keys
    && (forall ns {:trigger NamespaceOk(h, ns)} :: ns in h.namespaces ==> NamespaceOk(h, ns))
    && (forall r {:trigger RevisionOk(h, r)} :: r in h.revisions ==> RevisionOk(h, r))
    && (forall op {:trigger OperationOk(h, op)} :: op in h.operations ==> OperationOk(h, op))
  }

  lemma EmptyHistoryOk()
    ensures HistoryOk(History(map[], map[], map[], map[]))
  {
  }

  lemma RankedStable(revs: Revisions, revs': Revisions)
    requires Ranked(revs) && SameForest(revs, revs') && revs'.Keys == revs.Keys
    ensures Ranked(revs')
  {
    assert |revs'| == |revs'.Keys| && |revs| == |revs.Keys|;
    forall r | r in revs' ensures RowRanked(revs', r) {
      assert RowRanked(revs, r);
    }
  }

  lemma NamespaceStable(h: History, h': History, ns: NamespaceId)
    requires HistoryOk(h) && SameForest(h.revisions, h'.revisions)
    requires ns in h.namespaces && ns in h'.namespaces && h'.namespaces[ns].head == h.namespaces[ns].head
    requires InState(h'.revisions, ns, Active) == InState(h.revisions, ns, Active)
    ensures NamespaceOk(h', ns)
  {
    assert NamespaceOk(h, ns);
    AncestryStable(h.revisions, h'.revisions, h.namespaces[ns].head);
  }

  lemma OperationStable(h: History, h': History, op: OperationId)
    requires HistoryOk(h) && SameForest(h.revisions, h'.revisions)
    requires h.namespaces.Keys <= h'.namespaces.Keys
    requires op in h.operations && op in h'.operations && h'.operations[op] == h.operations[op]
    requires h.operations[op].state == InTrash ==> TaggedWith(h'.revisions, op) == TaggedWith(h.revisions, op)
    ensures OperationOk(h', op)
  {
    assert OperationOk(h, op);
    var operation := h.operations[op];
    if operation.state == InTrash {
      if operation.newHead.Some? {
        AncestryClosed(h.revisions, operation.oldHead, operation.newHead.value);
      }
      AncestryStable(h.revisions, h'.revisions, operation.oldHead);
      AncestryStable(h.revisions, h'.revisions, operation.newHead);
    }
  }

  /** Every revision tagged with an operation in the trash is trashed and in its namespace. */
  lemma TaggedIsTrashed(h: History, op: OperationId, r: RevisionId)
    requires HistoryOk(h) && op in h.operations && h.operations[op].state == InTrash
    requires r in TaggedWith(h.revisions, op)
    ensures h.revisions[r].state == Trashed && h.revisions[r].namespace == h.operations[op].namespace
  {
    assert RevisionOk(h, r);
  }

  lemma CreateNamespaceKeepsHistory(h: History, ns: NamespaceId)
    requires HistoryOk(h) && ns !in h.namespaces
    ensures HistoryOk(h.(namespaces := h.namespaces[ns := Namespace(None, 0)]))
  {
    var h' := h.(namespaces := h.namespaces[ns := Namespace(None, 0)]);
    forall r | r in h.revisions ensures RevisionOk(h', r) {
      assert RevisionOk(h, r);
    }
    forall n | n in h'.namespaces ensures NamespaceOk(h', n) {
      if n != ns {
        NamespaceStable(h, h', n);
      } else {
        forall r | r in h.revisions ensures h.revisions[r].namespace != ns {
          assert RevisionOk(h, r);
        }
        assert InState(h.revisions, ns, Active) == {};
      }
    }
    forall op | op in h'.operations ensures OperationOk(h', op) {
      OperationStable(h, h', op);
    }
  }

  // ----- commit -----

  ghost predicate CommitReady(h: History, revision: NewRevision) {
    && revision.namespace in h.namespaces
    && revision.id !in h.revisions
    && revision.parent == h.namespaces[revision.namespace].head
  }

  lemma CommittedForest(h: History, revision: NewRevision)
    requires HistoryOk(h) && CommitReady(h, revision)
    ensures Ranked(Committed(h, revision).revisions)
    ensures SameForest(h.revisions, Committed(h, revision).revisions)
    ensures Ancestry(Committed(h, revision).revisions, Some(revision.id))
            == {revision.id} + Ancestry(h.revisions, revision.parent)
  {
    var revs, revs' := h.revisions, Committed(h, revision).revisions;
    CommittedParent(h, revision);
    CommittedRanked(h, revision);
    AncestryStable(revs, revs', revision.parent);
    AncestryOfRow(revs', revision.id);
  }

  lemma AncestryOfRow(revs: Revisions, r: RevisionId)
    requires Ranked(revs) && r in revs
    ensures Ancestry(revs, Some(r)) == {r} + Ancestry(revs, revs[r].parent)
  {
    assert RowRanked(revs, r);
  }

  /** The parent of a commit is the head, an active revision. */
  lemma CommittedParent(h: History, revision: NewRevision)
    requires HistoryOk(h) && CommitReady(h, revision)
    ensures revision.parent.Some? ==>
      && revision.parent.value in h.revisions && RowRanked(h.revisions, revision.parent.value)
      && h.revisions[revision.parent.value].namespace == revision.namespace
  {
    assert NamespaceOk(h, revision.namespace);
    if revision.parent.Some? {
      assert revision.parent.value in Ancestry(h.revisions, revision.parent);
      assert revision.parent.value in InState(h.revisions, revision.namespace, Active);
    }
  }

  lemma RankedInsert(revs: Revisions, id: RevisionId, row: Revision)
    requires Ranked(revs) && id !in revs && row.rowid == |revs|
    requires row.parent.Some? ==>
      && row.parent.value in revs && RowRanked(revs, row.parent.value)
      && revs[row.parent.value].namespace == row.namespace
    ensures Ranked(revs[id := row])
  {
    var revs' := revs[id := row];
    assert revs'.Keys == revs.Keys + {id};
    assert |revs'| == |revs'.Keys| && |revs| == |revs.Keys|;
    forall r | r in revs' ensures RowRanked(revs', r) {
      assert r != id ==> RowRanked(revs, r);
    }
  }

  lemma CommittedRanked(h: History, revision: NewRevision)
    requires HistoryOk(h) && CommitReady(h, revision)
    ensures Ranked(Committed(h, revision).revisions)
  {
    CommittedParent(h, revision);
    RankedInsert(h.revisions, revision.id, Committed(h, revision).revisions[revision.id]);
  }

  lemma CommittedRevisions(h: History, revision: NewRevision)
    requires HistoryOk(h) && CommitReady(h, revision)
    ensures var h' := Committed(h, revision);
            && (forall r :: r in h'.revisions ==> RevisionOk(h', r))
            && (forall o :: TaggedWith(h'.revisions, o) == TaggedWith(h.revisions, o))
  {
    var h' := Committed(h, revision);
    assert NamespaceOk(h, revision.namespace);
    forall r | r in h'.revisions ensures RevisionOk(h', r) {
      if r != revision.id {
        assert RevisionOk(h, r) && RowRanked(h.revisions, r);
      } else if revision.parent.Some? {
        assert revision.parent.value in Ancestry(h.revisions, revision.parent);
        assert revision.parent.value in InState(h.revisions, revision.namespace, Active);
      }
    }
    forall o ensures TaggedWith(h'.revisions, o) == TaggedWith(h.revisions, o) {
    }
  }

  lemma CommittedNamespaces(h: History, revision: NewRevision)
    requires HistoryOk(h) && CommitReady(h, revision)
    ensures var h' := Committed(h, revision);
            forall n :: n in h'.namespaces ==> NamespaceOk(h', n)
  {
    var h' := Committed(h, revision);
    CommittedForest(h, revision);
    CommittedHead(h, revision);
    forall n | n in h'.namespaces ensures NamespaceOk(h', n) {
      if n != revision.namespace {
        CommittedActive(h, revision, n);
        NamespaceStable(h, h', n);
      }
    }
  }

  lemma CommittedHead(h: History, revision: NewRevision)
    requires HistoryOk(h) && CommitReady(h, revision)
    ensures NamespaceOk(Committed(h, revision), revision.namespace)
  {
    assert NamespaceOk(h, revision.namespace);
    CommittedForest(h, revision);
    CommittedActive(h, revision, revision.namespace);
  }

  lemma CommittedActive(h: History, revision: NewRevision, n: NamespaceId)
    requires CommitReady(h, revision)
    ensures InState(Committed(h, revision).revisions, n, Active)
            == InState(h.revisions, n, Active) + if n == revision.namespace then {revision.id} else {}
  {
  }

  lemma CommitKeepsHistory(h: History, revision: NewRevision)
    requires HistoryOk(h) && CommitReady(h, revision)
    ensures HistoryOk(Committed(h, revision))
  {
    var h' := Committed(h, revision);
    CommittedForest(h, revision);
    CommittedRevisions(h, revision);
    CommittedNamespaces(h, revision);
    forall op | op in h'.operations ensures OperationOk(h', op) {
      OperationStable(h, h', op);
    }
  }

  // ----- truncate -----

  ghost predicate TruncateReady(h: History, ns: NamespaceId, newHead: Option<RevisionId>, op: OperationId) {
    && ns in h.namespaces
    && newHead != h.namespaces[ns].head
    && OnChain(h.revisions, newHead, h.namespaces[ns].head)
    && op !in h.operations
  }

  /** The segment that truncation cuts is active and untagged. */
  lemma CutSegment(h: History, ns: NamespaceId, newHead: Option<RevisionId>)
    requires HistoryOk(h) && ns in h.namespaces && OnChain(h.revisions, newHead, h.namespaces[ns].head)
    ensures var removed := Segment(h.revisions, h.namespaces[ns].head, newHead);
            && removed <= InState(h.revisions, ns, Active)
            && Ancestry(h.revisions, newHead) <= Ancestry(h.revisions, h.namespaces[ns].head)
            && (forall r :: r in removed ==> h.revisions[r].trashOperation.None?)
  {
    assert NamespaceOk(h, ns);
    if newHead.Some? {
      AncestryClosed(h.revisions, h.namespaces[ns].head, newHead.value);
    }
    forall r | r in Segment(h.revisions, h.namespaces[ns].head, newHead)
      ensures r in InState(h.revisions, ns, Active) && h.revisions[r].trashOperation.None?
    {
      assert r in InState(h.revisions, ns, Active);
      assert RevisionOk(h, r);
    }
  }

  /** What truncation does to the rows: exactly the cut segment changes state. */
  lemma TruncatedRows(h: History, ns: NamespaceId, newHead: Option<RevisionId>, op: OperationId, now: Time)
    requires HistoryOk(h) && TruncateReady(h, ns, newHead, op)
    ensures var revs' := Truncated(h, ns, newHead, op, now).revisions;
            var removed := Segment(h.revisions, h.namespaces[ns].head, newHead);
            && SameForest(h.revisions, revs')
            && removed <= InState(h.revisions, ns, Active)
            && Ancestry(h.revisions, newHead) <= Ancestry(h.revisions, h.namespaces[ns].head)
            && (forall r :: r in removed ==> revs'[r].state == Trashed && revs'[r].trashOperation == Some(op))
            && (forall r :: r in h.revisions && r !in removed ==> revs'[r] == h.revisions[r])
            && TaggedWith(revs', op) == removed
            && (forall o :: o != op ==> TaggedWith(revs', o) == TaggedWith(h.revisions, o))
  {
    var revs, revs' := h.revisions, Truncated(h, ns, newHead, op, now).revisions;
    var removed := Segment(revs, h.namespaces[ns].head, newHead);
    CutSegment(h, ns, newHead);
    forall r | r in removed ensures r in revs && revs[r].state == Active {
      assert r in InState(revs, ns, Active);
    }
    NewTag(h, op);
    RetaggedWith(revs, removed, op);
  }

  /** No row carries the id of an operation that does not exist yet. */
  lemma NewTag(h: History, op: OperationId)
    requires HistoryOk(h) && op !in h.operations
    ensures forall r :: r in h.revisions ==> h.revisions[r].trashOperation != Some(op)
  {
    forall r | r in h.revisions ensures h.revisions[r].trashOperation != Some(op) {
      assert RevisionOk(h, r);
    }
  }

  lemma RetaggedWith(revs: Revisions, removed: set<RevisionId>, op: OperationId)
    requires forall r :: r in removed ==> r in revs && revs[r].state == Active && revs[r].trashOperation.None?
    requires forall r :: r in revs ==> revs[r].trashOperation != Some(op)
    ensures TaggedWith(TrashRevisions(revs, removed, op), op) == removed
    ensures forall o :: o != op ==> TaggedWith(TrashRevisions(revs, removed, op), o) == TaggedWith(revs, o)
  {
  }

  lemma TruncatedRevisions(h: History, ns: NamespaceId, newHead: Option<RevisionId>, op: OperationId, now: Time)
    requires HistoryOk(h) && TruncateReady(h, ns, newHead, op)
    ensures var h' := Truncated(h, ns, newHead, op, now);
            forall r :: r in h'.revisions ==> RevisionOk(h', r)
  {
    var h' := Truncated(h, ns, newHead, op, now);
    forall r | r in h'.revisions ensures RevisionOk(h', r) {
      TruncatedRevision(h, ns, newHead, op, now, r);
    }
  }

  lemma TruncatedRevision(
    h: History, ns: NamespaceId, newHead: Option<RevisionId>, op: OperationId, now: Time, r: RevisionId)
    requires HistoryOk(h) && TruncateReady(h, ns, newHead, op) && r in h.revisions
    ensures RevisionOk(Truncated(h, ns, newHead, op, now), r)
  {
    assert RevisionOk(h, r) && RowRanked(h.revisions, r);
    CutSegment(h, ns, newHead);
    if r in Segment(h.revisions, h.namespaces[ns].head, newHead) {
      assert r in InState(h.revisions, ns, Active);
    }
  }

  lemma TruncatedOperation(h: History, ns: NamespaceId, newHead: Option<RevisionId>, op: OperationId, now: Time)
    requires HistoryOk(h) && TruncateReady(h, ns, newHead, op)
    ensures OperationOk(Truncated(h, ns, newHead, op, now), op)
  {
    var revs' := Truncated(h, ns, newHead, op, now).revisions;
    var head := h.namespaces[ns].head;
    TruncatedRows(h, ns, newHead, op, now);
    assert NamespaceOk(h, ns);
    AncestryStable(h.revisions, revs', head);
    if newHead.Some? {
      AncestryClosed(h.revisions, head, newHead.value);
    }
    AncestryStable(h.revisions, revs', newHead);
    assert head.value in Ancestry(h.revisions, head);
    assert head.value in InState(h.revisions, ns, Active);
  }

  lemma TruncateKeepsHistory(h: History, ns: NamespaceId, newHead: Option<RevisionId>, op: OperationId, now: Time)
    requires HistoryOk(h) && TruncateReady(h, ns, newHead, op)
    ensures HistoryOk(Truncated(h, ns, newHead, op, now))
  {
    var h' := Truncated(h, ns, newHead, op, now);
    TruncatedRows(h, ns, newHead, op, now);
    RankedStable(h.revisions, h'.revisions);
    TruncatedNamespaces(h, ns, newHead, op, now);
    TruncatedRevisions(h, ns, newHead, op, now);
    TruncatedOperation(h, ns, newHead, op, now);
    forall o | o in h'.operations ensures OperationOk(h', o) {
      if o != op {
        OperationStable(h, h', o);
      }
    }
  }

  lemma TruncatedNamespaces(h: History, ns: NamespaceId, newHead: Option<RevisionId>, op: OperationId, now: Time)
    requires HistoryOk(h) && TruncateReady(h, ns, newHead, op)
    ensures var h' := Truncated(h, ns, newHead, op, now);
            forall n :: n in h'.namespaces ==> NamespaceOk(h', n)
  {
    var h' := Truncated(h, ns, newHead, op, now);
    TruncatedRows(h, ns, newHead, op, now);
    TruncatedHead(h, ns, newHead, op, now);
    forall n | n in h'.namespaces ensures NamespaceOk(h', n) {
      if n != ns {
        TruncatedActive(h.revisions, Segment(h.revisions, h.namespaces[ns].head, newHead), op, n);
        assert InState(h'.revisions, n, Active) == InState(h.revisions, n, Active);
        NamespaceStable(h, h', n);
      }
    }
  }

  lemma TruncatedActive(revs: Revisions, removed: set<RevisionId>, op: OperationId, n: NamespaceId)
    ensures InState(TrashRevisions(revs, removed, op), n, Active) == InState(revs, n, Active) - removed
  {
  }

  lemma TruncatedHead(h: History, ns: NamespaceId, newHead: Option<RevisionId>, op: OperationId, now: Time)
    requires HistoryOk(h) && TruncateReady(h, ns, newHead, op)
    ensures NamespaceOk(Truncated(h, ns, newHead, op, now), ns)
  {
    var head := h.namespaces[ns].head;
    var removed := Segment(h.revisions, head, newHead);
    var revs' := TrashRevisions(h.revisions, removed, op);
    assert NamespaceOk(h, ns);
    TruncatedActive(h.revisions, removed, op, ns);
    CutSegment(h, ns, newHead);
    assert Ancestry(h.revisions, newHead) == Ancestry(h.revisions, head) - removed;
    if newHead.Some? {
      AncestryClosed(h.revisions, head, newHead.value);
    }
    AncestryStable(h.revisions, revs', newHead);
  }

  // ----- restore -----

  ghost predicate RestoreReady(h: History, ns: NamespaceId, op: OperationId) {
    && ns in h.namespaces
    && op in h.operations
    && h.operations[op].namespace == ns
    && h.operations[op].state == InTrash
    && h.operations[op].newHead == h.namespaces[ns].head
  }

  lemma ReinstatedRows(h: History, ns: NamespaceId, op: OperationId)
    requires HistoryOk(h) && RestoreReady(h, ns, op)
    ensures var revs, revs' := h.revisions, Reinstated(h, ns, op).revisions;
            var tagged := TaggedWith(revs, op);
            && SameForest(revs, revs')
            && (forall r :: r in tagged ==> revs[r].state == Trashed && revs[r].namespace == ns)
            && (forall r :: r in tagged ==> revs'[r].state == Active && revs'[r].trashOperation == None)
            && (forall r :: r in revs && r !in tagged ==> revs'[r] == revs[r])
            && (forall o :: o != op ==> TaggedWith(revs', o) == TaggedWith(revs, o))
  {
    var revs, revs' := h.revisions, Reinstated(h, ns, op).revisions;
    forall r | r in TaggedWith(revs, op) ensures revs[r].state == Trashed && revs[r].namespace == ns {
      TaggedIsTrashed(h, op, r);
    }
    forall o | o != op ensures TaggedWith(revs', o) == TaggedWith(revs, o) {
    }
  }

  lemma ReinstatedAncestry(h: History, ns: NamespaceId, op: OperationId)
    requires HistoryOk(h) && RestoreReady(h, ns, op)
    ensures Ancestry(h.revisions, h.operations[op].oldHead)
            == Ancestry(h.revisions, h.namespaces[ns].head) + TaggedWith(h.revisions, op)
  {
    var operation := h.operations[op];
    assert OperationOk(h, op);
    if operation.newHead.Some? {
      AncestryClosed(h.revisions, operation.oldHead, operation.newHead.value);
    }
  }

  lemma ReinstatedActive(h: History, ns: NamespaceId, op: OperationId, n: NamespaceId)
    requires ns in h.namespaces && op in h.operations
    requires forall r :: r in TaggedWith(h.revisions, op) ==>
        h.revisions[r].state == Trashed && h.revisions[r].namespace == ns
    ensures InState(Reinstated(h, ns, op).revisions, n, Active)
            == InState(h.revisions, n, Active) + if n == ns then TaggedWith(h.revisions, op) else {}
  {
  }

  lemma ReinstatedNamespaces(h: History, ns: NamespaceId, op: OperationId)
    requires HistoryOk(h) && RestoreReady(h, ns, op)
    ensures var h' := Reinstated(h, ns, op);
            forall n :: n in h'.namespaces ==> NamespaceOk(h', n)
  {
    var h' := Reinstated(h, ns, op);
    var tagged := TaggedWith(h.revisions, op);
    ReinstatedRows(h, ns, op);
    ReinstatedAncestry(h, ns, op);
    assert OperationOk(h, op);
    forall n | n in h'.namespaces ensures NamespaceOk(h', n) {
      assert NamespaceOk(h, n);
      ReinstatedActive(h, ns, op, n);
      if n != ns {
        NamespaceStable(h, h', n);
      } else {
        AncestryStable(h.revisions, h'.revisions, h.operations[op].oldHead);
      }
    }
  }

  lemma RestoreKeepsHistory(h: History, ns: NamespaceId, op: OperationId)
    requires HistoryOk(h) && RestoreReady(h, ns, op)
    ensures HistoryOk(Reinstated(h, ns, op))
  {
    var h' := Reinstated(h, ns, op);
    ReinstatedRows(h, ns, op);
    ReinstatedNamespaces(h, ns, op);
    RankedStable(h.revisions, h'.revisions);
    forall r | r in h'.revisions ensures RevisionOk(h', r) {
      assert RevisionOk(h, r) && RowRanked(h.revisions, r);
    }
    forall o | o in h'.operations ensures OperationOk(h', o) {
      if o != op {
        OperationStable(h, h', o);
      }
    }
  }

  // ----- purge -----

  /** A trashed revision's parent is trashed with it or is the head it was cut back to. */
  lemma ParentOfSegment(revs: Revisions, oldHead: Option<RevisionId>, newHead: Option<RevisionId>, r: RevisionId)
    requires Ranked(revs) && OnChain(revs, newHead, oldHead)
    requires r in Segment(revs, oldHead, newHead) && r in revs && revs[r].parent.Some?
    ensures revs[r].parent.value in Segment(revs, oldHead, newHead) || revs[r].parent == newHead
  {
    var p := revs[r].parent.value;
    AncestryClosed(revs, oldHead, r);
    if p in Ancestry(revs, newHead) {
      AncestryClosed(revs, newHead, p);
      ChainIsLinear(revs, oldHead, r, newHead.value);
      AncestryClosed(revs, Some(p), newHead.value);
    }
  }

  lemma PurgedRows(h: History, ns: NamespaceId, selected: set<OperationId>)
    requires HistoryOk(h) && selected <= ActiveOperations(h, ns)
    ensures var revs, revs' := h.revisions, PurgeRevisions(h, ns, selected).revisions;
            && SameForest(revs, revs')
            && (forall r :: r in revs && revs[r].trashOperation.Some? && revs[r].trashOperation.value in selected
                  ==> r in TrashedBy(h, ns, selected))
            && (forall o :: TaggedWith(revs', o) == TaggedWith(revs, o))
            && (forall n :: InState(revs', n, Active) == InState(revs, n, Active))
  {
    var revs, revs' := h.revisions, PurgeRevisions(h, ns, selected).revisions;
    forall r | r in revs && revs[r].trashOperation.Some? && revs[r].trashOperation.value in selected
      ensures r in TrashedBy(h, ns, selected)
    {
      TaggedIsTrashed(h, revs[r].trashOperation.value, r);
    }
    forall o ensures TaggedWith(revs', o) == TaggedWith(revs, o) {
    }
    forall n ensures InState(revs', n, Active) == InState(revs, n, Active) {
    }
  }

  /** Deleting the selected trash leaves every surviving revision with its parent. */
  lemma PurgeKeepsHistory(h: History, ns: NamespaceId, selected: set<OperationId>)
    requires HistoryOk(h) && selected <= ActiveOperations(h, ns)
    requires !HasDependentTrash(h, ns, selected)
    ensures HistoryOk(PurgeRevisions(h, ns, selected))
  {
    var h' := PurgeRevisions(h, ns, selected);
    PurgedRows(h, ns, selected);
    RankedStable(h.revisions, h'.revisions);
    forall n | n in h'.namespaces ensures NamespaceOk(h', n) {
      NamespaceStable(h, h', n);
    }
    forall r | r in h'.revisions ensures RevisionOk(h', r) {
      assert RevisionOk(h, r) && RowRanked(h.revisions, r);
      if r !in TrashedBy(h, ns, selected) && h.revisions[r].state != Purged && h.revisions[r].parent.Some? {
        SurvivorKeepsParent(h, ns, selected, r);
      }
    }
    forall o | o in h'.operations ensures OperationOk(h', o) {
      if h'.operations[o].state == InTrash {
        OperationStable(h, h', o);
      }
    }
  }

  lemma SurvivorKeepsParent(h: History, ns: NamespaceId, selected: set<OperationId>, r: RevisionId)
    requires HistoryOk(h) && selected <= ActiveOperations(h, ns)
    requires !HasDependentTrash(h, ns, selected)
    requires r in h.revisions && r !in TrashedBy(h, ns, selected)
    requires h.revisions[r].state != Purged && h.revisions[r].parent.Some?
    ensures h.revisions[r].parent.value in h.revisions
    ensures h.revisions[r].parent.value !in TrashedBy(h, ns, selected)
  {
    var p := h.revisions[r].parent.value;
    assert RevisionOk(h, r) && RowRanked(h.revisions, r);
    if h.revisions[r].state == Active {
      var n := h.revisions[r].namespace;
      assert NamespaceOk(h, n);
      assert r in InState(h.revisions, n, Active);
      AncestryClosed(h.revisions, h.namespaces[n].head, r);
      assert p in InState(h.revisions, n, Active);
    } else {
      var op := h.revisions[r].trashOperation.value;
      assert OperationOk(h, op);
      assert r in TaggedWith(h.revisions, op);
      ParentOfSegment(h.revisions, h.operations[op].oldHead, h.operations[op].newHead, r);
      assert p in TrashedBy(h, ns, selected) && p !in TaggedWith(h.revisions, op)
        ==> op in ActiveOperations(h, ns);
    }
  }

  /** Planning refuses a selection exactly when deleting it would orphan a surviving revision. */
  ghost predicate Orphans(h: History, doomed: set<RevisionId>) {
    exists r :: r in h.revisions && r !in doomed && h.revisions[r].state != Purged
                && h.revisions[r].parent.Some? && h.revisions[r].parent.value in doomed
  }

  lemma PurgeRefusedIffItOrphans(h: History, ns: NamespaceId, selected: set<OperationId>)
    requires HistoryOk(h) && selected <= ActiveOperations(h, ns)
    ensures HasDependentTrash(h, ns, selected) <==> Orphans(h, TrashedBy(h, ns, selected))
  {
    var doomed := TrashedBy(h, ns, selected);
    if Orphans(h, doomed) && !HasDependentTrash(h, ns, selected) {
      var r :| r in h.revisions && r !in doomed && h.revisions[r].state != Purged
               && h.revisions[r].parent.Some? && h.revisions[r].parent.value in doomed;
      SurvivorKeepsParent(h, ns, selected, r);
    }
    if HasDependentTrash(h, ns, selected) {
      var op :| op in ActiveOperations(h, ns) && op !in selected
                && h.operations[op].newHead.Some? && h.operations[op].newHead.value in doomed;
      var operation := h.operations[op];
      assert OperationOk(h, op);
      var r := ChildOnChain(h.revisions, operation.oldHead, operation.newHead.value);
      assert RowRanked(h.revisions, r);
      if r in Ancestry(h.revisions, operation.newHead) {
        AncestryClosed(h.revisions, operation.newHead, r);
      }
      assert r in TaggedWith(h.revisions, op);
      assert RevisionOk(h, r);
    }
  }

  lemma {:induction false} ChildOnChain(revs: Revisions, from: Option<RevisionId>, a: RevisionId)
    returns (child: RevisionId)
    requires Ranked(revs) && a in Ancestry(revs, from) && from != Some(a)
    ensures child in Ancestry(revs, from) && child in revs && revs[child].parent == Some(a)
    decreases if from.Some? && from.value in revs then revs[from.value].rowid + 1 else 0
  {
    if revs[from.value].parent == Some(a) {
      child := from.value;
    } else {
      child := ChildOnChain(revs, revs[from.value].parent, a);
    }
  }

  // ----- bookkeeping -----

  ghost function CountSum(h: History, ops: set<OperationId>): nat
    requires ops <= h.operations.Keys
  {
    if ops == {} then 0
    else var op :| op in ops; h.operations[op].revisionCount + CountSum(h, ops - {op})
  }

  lemma CountOneOperation(h: History, ns: NamespaceId, ops: set<OperationId>, op: OperationId)
    requires HistoryOk(h) && ops <= ActiveOperations(h, ns) && op in ops
    ensures |TrashedBy(h, ns, ops)| == h.operations[op].revisionCount + |TrashedBy(h, ns, ops - {op})|
  {
    var tagged := TaggedWith(h.revisions, op);
    assert OperationOk(h, op);
    forall r | r in tagged ensures h.revisions[r].state == Trashed && h.revisions[r].namespace == ns {
      TaggedIsTrashed(h, op, r);
    }
    assert TrashedBy(h, ns, ops) == TrashedBy(h, ns, ops - {op}) + tagged;
    assert TrashedBy(h, ns, ops - {op}) !! tagged;
  }

  /** The recorded counts of the operations in the trash add up to the trashed revisions. */
  lemma {:induction false} CountsAddUp(h: History, ns: NamespaceId, ops: set<OperationId>)
    requires HistoryOk(h) && ops <= ActiveOperations(h, ns)
    ensures CountSum(h, ops) == |TrashedBy(h, ns, ops)|
  {
    if ops != {} {
      var op :| op in ops && CountSum(h, ops) == h.operations[op].revisionCount + CountSum(h, ops - {op});
      CountsAddUp(h, ns, ops - {op});
      CountOneOperation(h, ns, ops, op);
    } else {
      assert TrashedBy(h, ns, ops) == {};
    }
  }

  lemma RevisionCountsMatchTrash(h: History, ns: NamespaceId)
    requires HistoryOk(h)
    ensures CountSum(h, ActiveOperations(h, ns)) == |InState(h.revisions, ns, Trashed)|
  {
    CountsAddUp(h, ns, ActiveOperations(h, ns));
    forall r | r in InState(h.revisions, ns, Trashed) ensures r in TrashedBy(h, ns, ActiveOperations(h, ns)) {
      assert RevisionOk(h, r);
    }
    assert InState(h.revisions, ns, Trashed) == TrashedBy(h, ns, ActiveOperations(h, ns));
  }
}
