/** What the history tables promise over whole runs: the commit token, and exact restoring. */
module HistoryRuns {
  import opened Basics
  import opened Metadata
  import opened HistoryInvariant
  import opened Catalog
  import opened Server
  import opened GcSafety

  /** The length of the chain that ends in `head`. */
  function Depth(revs: Revisions, head: Option<RevisionId>): nat {
    |Ancestry(revs, head)|
  }

  /** (epoch, depth of head) of `ns` is lexicographically smaller in `h` than in `h'`. */
  ghost predicate TokenLess(h: History, h': History, ns: NamespaceId)
    requires ns in h.namespaces && ns in h'.namespaces
  {
    var a, b := h.namespaces[ns], h'.namespaces[ns];
    || a.epoch < b.epoch
    || (a.epoch == b.epoch && Depth(h.revisions, a.head) < Depth(h'.revisions, b.head))
  }

  /** Nothing moved the head of `ns`, or the token grew. */
  ghost predicate TokenAdvances(h: History, h': History, ns: NamespaceId)
    requires ns in h.namespaces && ns in h'.namespaces
  {
    h'.namespaces[ns] == h.namespaces[ns] || TokenLess(h, h', ns)
  }

  /** The recorded ends of a trash operation. */
  ghost predicate SameOperation(h: History, h': History, op: OperationId)
    requires op in h.operations
  {
    && op in h'.operations
    && h'.operations[op].namespace == h.operations[op].namespace
    && h'.operations[op].oldHead == h.operations[op].oldHead
    && h'.operations[op].newHead == h.operations[op].newHead
    && h'.operations[op].expiresAt == h.operations[op].expiresAt
  }

  ghost predicate Evolves(h: History, h': History) {
    && SameForest(h.revisions, h'.revisions)
    && h.namespaces.Keys <= h'.namespaces.Keys
    && (forall ns :: ns in h.namespaces ==> TokenAdvances(h, h', ns))
    && (forall op :: op in h.operations ==> SameOperation(h, h', op))
  }

  lemma CommitEvolves(h: History, revision: NewRevision)
    requires HistoryOk(h) && CommitReady(h, revision)
    ensures Evolves(h, Committed(h, revision))
    ensures TokenLess(h, Committed(h, revision), revision.namespace)
  {
    CommittedForest(h, revision);
    if revision.id in Ancestry(h.revisions, revision.parent) {
      AncestryClosed(h.revisions, revision.parent, revision.id);
    }
  }

  lemma TruncateEvolves(h: History, ns: NamespaceId, newHead: Option<RevisionId>, op: OperationId, now: Time)
    requires HistoryOk(h) && TruncateReady(h, ns, newHead, op)
    ensures Evolves(h, Truncated(h, ns, newHead, op, now))
  {
  }

  lemma RestoreEvolves(h: History, ns: NamespaceId, op: OperationId)
    requires HistoryOk(h) && RestoreReady(h, ns, op)
    ensures Evolves(h, Reinstated(h, ns, op))
  {
  }

  lemma PurgeEvolves(h: History, ns: NamespaceId, selected: set<OperationId>)
    requires HistoryOk(h) && selected <= ActiveOperations(h, ns)
    ensures Evolves(h, PurgeRevisions(h, ns, selected))
  {
  }

  lemma ExclusiveEvolves(cat: Contents, s: Sys, l: Label)
    requires HistoryOk(s.history) && s.mode == Serving(map[]) && NextExclusive(cat, s, l).Some?
    ensures Evolves(s.history, NextExclusive(cat, s, l).value.history)
  {
    if NextExclusive(cat, s, l).value.history != s.history {
      match l
      case Truncate(ns, head, epoch, newHead, op) =>
        TruncateEvolves(s.history, ns, newHead, op, s.clock);
      case Restore(ns, op, head, epoch) =>
        RestoreEvolves(s.history, ns, op);
      case StartPurge(ns, requested, purgeAll, operation) =>
        PurgeEvolves(s.history, ns, BuildPurgePlan(s.history, s.objects, ns, requested, purgeAll).value.operations);
      case _ =>
    }
  }

  lemma SweepKeepsHistory(s: Sys, l: Label)
    requires s.mode.Booting? || s.mode.Emptying? || s.mode.Collecting?
    requires NextSweep(s, l).Some?
    ensures NextSweep(s, l).value.history == s.history
  {
  }

  lemma TaskEvolves(cat: Contents, s: Sys, l: Label)
    requires HistoryOk(s.history) && s.mode.Serving? && NextTask(cat, s, l).Some?
    ensures Evolves(s.history, NextTask(cat, s, l).value.history)
  {
    if NextTask(cat, s, l).value.history != s.history {
      assert l.FinishCommit?;
      CommitEvolves(s.history, RevisionOf(cat, s.mode.tasks[l.task].root));
    }
  }

  lemma GatedEvolves(cat: Contents, s: Sys, l: Label)
    requires HistoryOk(s.history) && NextGated(cat, s, l).Some?
    ensures Evolves(s.history, NextGated(cat, s, l).value.history)
  {
    if !s.mode.Serving? {
      SweepKeepsHistory(s, l);
    } else if l.Truncate? || l.Restore? || l.StartPurge? || l.StartGc? {
      ExclusiveEvolves(cat, s, l);
    } else {
      TaskEvolves(cat, s, l);
    }
  }

  /** Every head change strictly increases the pair (epoch, depth of head). */
  lemma StepEvolves(cat: Contents, s: Sys, l: Label)
    requires HistoryOk(s.history) && Next(cat, s, l).Some?
    ensures Evolves(s.history, Next(cat, s, l).value.history)
  {
    if !l.Tick? && !l.Crash? && !l.Boot? && !l.CreateNamespace? {
      GatedEvolves(cat, s, l);
    }
  }

  lemma EvolvesTransitive(h0: History, h1: History, h2: History)
    requires HistoryOk(h0) && HistoryOk(h1)
    requires Evolves(h0, h1) && Evolves(h1, h2)
    ensures Evolves(h0, h2)
  {
    forall ns | ns in h0.namespaces ensures TokenAdvances(h0, h2, ns) {
      assert TokenAdvances(h0, h1, ns) && TokenAdvances(h1, h2, ns);
      assert NamespaceOk(h0, ns) && NamespaceOk(h1, ns);
      AncestryStable(h0.revisions, h1.revisions, h0.namespaces[ns].head);
      AncestryStable(h1.revisions, h2.revisions, h1.namespaces[ns].head);
    }
    forall op | op in h0.operations ensures SameOperation(h0, h2, op) {
      assert SameOperation(h0, h1, op);
    }
  }

  lemma RunStepEvolves(cat: Contents, states: seq<Sys>, labels: seq<Label>, j: nat)
    requires Run(cat, states, labels) && j < |labels|
    ensures HistoryOk(states[j].history) && HistoryOk(states[j + 1].history)
    ensures Evolves(states[j].history, states[j + 1].history)
  {
    RunKeeps(cat, states, labels, j);
    RunKeeps(cat, states, labels, j + 1);
    assert StepAt(cat, states, labels, j);
    StepEvolves(cat, states[j], labels[j]);
  }

  lemma {:induction false} RunEvolves(cat: Contents, states: seq<Sys>, labels: seq<Label>, i: nat, j: nat)
    requires Run(cat, states, labels) && i <= j < |states|
    ensures HistoryOk(states[i].history) && HistoryOk(states[j].history)
    ensures Evolves(states[i].history, states[j].history)
    decreases j - i
  {
    if i < j {
      RunEvolves(cat, states, labels, i, j - 1);
      RunStepEvolves(cat, states, labels, j - 1);
      EvolvesTransitive(states[i].history, states[j - 1].history, states[j].history);
    } else {
      RunKeeps(cat, states, labels, i);
    }
  }

  // ----- commits against one (head, epoch) -----

  /** Step `l` from `s` answers Created to a commit on `ns` that expected (head, epoch). */
  ghost predicate Creates(cat: Contents, s: Sys, l: Label, ns: NamespaceId, head: Option<RevisionId>, epoch: nat) {
    && l.FinishCommit? && s.mode.Serving? && l.task in s.mode.tasks
    && Next(cat, s, l).Some?
    && var c := s.mode.tasks[l.task];
       && c.Commit? && c.namespace == ns && c.expectedHead == head && c.expectedEpoch == epoch
       && CommitAnswer(cat, s.history, c).Ok? && CommitAnswer(cat, s.history, c).value.1 == Created
  }

  lemma CreatedFindsToken(cat: Contents, s: Sys, l: Label, ns: NamespaceId, head: Option<RevisionId>, epoch: nat)
    requires SysOk(cat, s) && Creates(cat, s, l, ns, head, epoch)
    ensures ns in s.history.namespaces && s.history.namespaces[ns] == Namespace(head, epoch)
    ensures ns in Next(cat, s, l).value.history.namespaces
    ensures TokenLess(s.history, Next(cat, s, l).value.history, ns)
  {
    CommitEvolves(s.history, RevisionOf(cat, s.mode.tasks[l.task].root));
  }

  lemma CreatedStep(cat: Contents, states: seq<Sys>, labels: seq<Label>, i: nat,
                    ns: NamespaceId, head: Option<RevisionId>, epoch: nat)
    requires Run(cat, states, labels) && i < |labels|
    requires Creates(cat, states[i], labels[i], ns, head, epoch)
    ensures ns in states[i].history.namespaces && ns in states[i + 1].history.namespaces
    ensures states[i].history.namespaces[ns] == Namespace(head, epoch)
    ensures TokenLess(states[i].history, states[i + 1].history, ns)
  {
    RunKeeps(cat, states, labels, i);
    assert StepAt(cat, states, labels, i);
    CreatedFindsToken(cat, states[i], labels[i], ns, head, epoch);
  }

  /** If the token of `ns` is the same at both ends of a run, its head never moved in between. */
  lemma SameTokenMeansUntouched(cat: Contents, states: seq<Sys>, labels: seq<Label>, i: nat, k: nat, j: nat,
                                ns: NamespaceId)
    requires Run(cat, states, labels) && i <= k <= j < |states|
    requires ns in states[i].history.namespaces && ns in states[j].history.namespaces
    requires states[j].history.namespaces[ns] == states[i].history.namespaces[ns]
    ensures ns in states[k].history.namespaces
    ensures states[k].history.namespaces[ns] == states[i].history.namespaces[ns]
  {
    RunEvolves(cat, states, labels, i, k);
    RunEvolves(cat, states, labels, k, j);
    var a, b, c := states[i].history, states[k].history, states[j].history;
    assert TokenAdvances(a, b, ns) && TokenAdvances(b, c, ns);
    assert NamespaceOk(a, ns);
    AncestryStable(a.revisions, b.revisions, a.namespaces[ns].head);
    AncestryStable(b.revisions, c.revisions, a.namespaces[ns].head);
  }

  /** A commit answered Created proves that nobody moved the head since the client read the token. */
  lemma CreatedMeansUntouched(cat: Contents, states: seq<Sys>, labels: seq<Label>, i: nat, k: nat, j: nat,
                              ns: NamespaceId, head: Option<RevisionId>, epoch: nat)
    requires Run(cat, states, labels) && i <= k <= j < |labels|
    requires ns in states[i].history.namespaces && states[i].history.namespaces[ns] == Namespace(head, epoch)
    requires Creates(cat, states[j], labels[j], ns, head, epoch)
    ensures ns in states[k].history.namespaces && states[k].history.namespaces[ns] == Namespace(head, epoch)
  {
    CreatedStep(cat, states, labels, j, ns, head, epoch);
    SameTokenMeansUntouched(cat, states, labels, i, k, j, ns);
  }

  /** Once the token of `ns` has grown it never comes back. */
  lemma TokenNeverReturns(cat: Contents, states: seq<Sys>, labels: seq<Label>, i: nat, j: nat, ns: NamespaceId)
    requires Run(cat, states, labels) && i < j < |states|
    requires ns in states[i].history.namespaces && ns in states[i + 1].history.namespaces
    requires TokenLess(states[i].history, states[i + 1].history, ns)
    ensures ns in states[j].history.namespaces
    ensures states[j].history.namespaces[ns] != states[i].history.namespaces[ns]
  {
    RunEvolves(cat, states, labels, i, i + 1);
    RunEvolves(cat, states, labels, i + 1, j);
    var a, b, c := states[i].history, states[i + 1].history, states[j].history;
    assert TokenAdvances(b, c, ns);
    assert NamespaceOk(a, ns) && NamespaceOk(b, ns);
    AncestryStable(a.revisions, b.revisions, a.namespaces[ns].head);
    AncestryStable(b.revisions, c.revisions, a.namespaces[ns].head);
    AncestryStable(b.revisions, c.revisions, b.namespaces[ns].head);
  }

  lemma CreatedOnlyOnce(cat: Contents, states: seq<Sys>, labels: seq<Label>, i: nat, j: nat,
                        ns: NamespaceId, head: Option<RevisionId>, epoch: nat)
    requires Run(cat, states, labels) && i < j < |labels|
    requires Creates(cat, states[i], labels[i], ns, head, epoch)
    ensures !Creates(cat, states[j], labels[j], ns, head, epoch)
  {
    CreatedStep(cat, states, labels, i, ns, head, epoch);
    TokenNeverReturns(cat, states, labels, i, j, ns);
    if Creates(cat, states[j], labels[j], ns, head, epoch) {
      CreatedStep(cat, states, labels, j, ns, head, epoch);
      assert false;
    }
  }

  /** Of all commits against one (head, epoch) at most one is answered Created. */
  lemma AtMostOneCreated(cat: Contents, states: seq<Sys>, labels: seq<Label>, i: nat, j: nat,
                         ns: NamespaceId, head: Option<RevisionId>, epoch: nat)
    requires Run(cat, states, labels) && i < |labels| && j < |labels|
    requires Creates(cat, states[i], labels[i], ns, head, epoch)
    requires Creates(cat, states[j], labels[j], ns, head, epoch)
    ensures i == j
  {
    if i < j {
      CreatedOnlyOnce(cat, states, labels, i, j, ns, head, epoch);
    } else if j < i {
      CreatedOnlyOnce(cat, states, labels, j, i, ns, head, epoch);
    }
  }

  // ----- truncate, then restore -----

  /** Step `i` truncates `ns` and records it as `op`. */
  ghost predicate Truncates(states: seq<Sys>, labels: seq<Label>, i: nat, ns: NamespaceId, op: OperationId)
    requires |states| == |labels| + 1 && i < |labels|
  {
    && labels[i].Truncate? && labels[i].ns == ns && labels[i].op == op
    && op !in states[i].history.operations && op in states[i + 1].history.operations
  }

  /** Step `j` restores the trash of `op`. */
  ghost predicate Restores(states: seq<Sys>, labels: seq<Label>, j: nat, op: OperationId)
    requires |states| == |labels| + 1 && j < |labels|
  {
    && op in states[j].history.operations && states[j].history.operations[op].state == InTrash
    && op in states[j + 1].history.operations && states[j + 1].history.operations[op].state == Restored
  }

  lemma TasksKeepOperations(cat: Contents, s: Sys, l: Label)
    requires s.mode.Serving? && NextTask(cat, s, l).Some?
    ensures NextTask(cat, s, l).value.history.operations == s.history.operations
  {
  }

  lemma SharedStepsKeepOperations(cat: Contents, s: Sys, l: Label)
    requires Next(cat, s, l).Some? && !l.Truncate? && !l.Restore? && !l.StartPurge?
    ensures Next(cat, s, l).value.history.operations == s.history.operations
  {
    if !l.Tick? && !l.Crash? && !l.Boot? && !l.CreateNamespace? {
      if !s.mode.Serving? {
        SweepKeepsHistory(s, l);
      } else if !l.StartGc? {
        TasksKeepOperations(cat, s, l);
      }
    }
  }

  lemma OtherStepsDoNotRestore(cat: Contents, s: Sys, l: Label, op: OperationId)
    requires Next(cat, s, l).Some? && !l.Restore?
    requires op in s.history.operations && s.history.operations[op].state == InTrash
    ensures var h' := Next(cat, s, l).value.history;
            op in h'.operations && h'.operations[op].state != Restored
  {
    if !l.Truncate? && !l.StartPurge? {
      SharedStepsKeepOperations(cat, s, l);
    }
  }

  lemma OnlyRestoreRestores(cat: Contents, s: Sys, l: Label, op: OperationId)
    requires Next(cat, s, l).Some?
    requires op in s.history.operations && s.history.operations[op].state == InTrash
    requires op in Next(cat, s, l).value.history.operations
    requires Next(cat, s, l).value.history.operations[op].state == Restored
    ensures var ns := s.history.operations[op].namespace;
            RestoreReady(s.history, ns, op) && Next(cat, s, l).value.history == Reinstated(s.history, ns, op)
  {
    if !l.Restore? {
      OtherStepsDoNotRestore(cat, s, l, op);
    }
  }

  lemma TruncateStep(cat: Contents, states: seq<Sys>, labels: seq<Label>, i: nat, ns: NamespaceId, op: OperationId)
    requires Run(cat, states, labels) && i < |labels| && Truncates(states, labels, i, ns, op)
    ensures ns in states[i].history.namespaces
    ensures states[i + 1].history.operations[op].oldHead == states[i].history.namespaces[ns].head
    ensures states[i + 1].history.operations[op].namespace == ns
    ensures ns in states[i + 1].history.namespaces
    ensures states[i + 1].history.namespaces[ns].epoch == states[i].history.namespaces[ns].epoch + 1
  {
    assert StepAt(cat, states, labels, i);
  }

  lemma RestoreStep(cat: Contents, states: seq<Sys>, labels: seq<Label>, j: nat, op: OperationId)
    requires Run(cat, states, labels) && j < |labels| && Restores(states, labels, j, op)
    ensures var operation := states[j].history.operations[op];
            && operation.namespace in states[j + 1].history.namespaces
            && states[j + 1].history.namespaces[operation.namespace].head == operation.oldHead
  {
    assert StepAt(cat, states, labels, j);
    OnlyRestoreRestores(cat, states[j], labels[j], op);
  }

  /** A successful restore gives back exactly the chain that was active at truncation. */
  lemma RestoreGivesBackTheChain(cat: Contents, states: seq<Sys>, labels: seq<Label>, i: nat, j: nat,
                                 ns: NamespaceId, op: OperationId)
    requires Run(cat, states, labels) && i < j < |labels|
    requires Truncates(states, labels, i, ns, op) && Restores(states, labels, j, op)
    ensures ns in states[i].history.namespaces && ns in states[j + 1].history.namespaces
    ensures states[j + 1].history.namespaces[ns].head == states[i].history.namespaces[ns].head
    ensures InState(states[j + 1].history.revisions, ns, Active) == InState(states[i].history.revisions, ns, Active)
    ensures states[j + 1].history.namespaces[ns].epoch > states[i].history.namespaces[ns].epoch
  {
    TruncateStep(cat, states, labels, i, ns, op);
    RunEvolves(cat, states, labels, i + 1, j);
    assert SameOperation(states[i + 1].history, states[j].history, op);
    RestoreStep(cat, states, labels, j, op);
    RunEvolves(cat, states, labels, i, j + 1);
    RunEvolves(cat, states, labels, i + 1, j + 1);
    var a, d := states[i].history, states[j + 1].history;
    assert NamespaceOk(a, ns) && NamespaceOk(d, ns);
    AncestryStable(a.revisions, d.revisions, a.namespaces[ns].head);
    assert TokenAdvances(states[i + 1].history, d, ns);
  }

  /** What a restore revives is still stored: no active revision ever misses an object. */
  lemma ActiveRevisionsAreStored(cat: Contents, states: seq<Sys>, labels: seq<Label>, k: nat, r: RevisionId)
    requires Run(cat, states, labels) && k < |states|
    requires r in states[k].history.revisions && states[k].history.revisions[r].state == Active
    ensures ContentGraph(cat, r) <= states[k].files
  {
    RunKeeps(cat, states, labels, k);
    GarbageCollectionIsSafe(cat, states, labels, k);
    assert RevisionOk(states[k].history, r);
    assert Protected(states[k].history, r, states[k].clock);
  }
}
