/** Garbage collection never loses an object that a restorable revision needs, over every run. */
module GcSafety {
  import opened Basics
  import opened ObjectGraph
  import opened Metadata
  import opened HistoryInvariant
  import opened Catalog
  import opened Server

  // ----- the promise -----

  /** Every active or still restorable revision has its whole content graph in the object store. */
  ghost predicate Safe(cat: Contents, s: Sys) {
    forall r :: Protected(s.history, r, s.clock) ==> ContentGraph(cat, r) <= s.files
  }

  // ----- the invariant -----

  ghost predicate Linked(cat: Contents, edges: set<Edge>, o: Obj) {
    forall t :: t in Targets(cat, o) ==> Edge(o, t) in edges
  }

  /** Whatever the edge table reaches is in the store, and its edges are all recorded. */
  ghost predicate Solid(cat: Contents, s: Sys) {
    forall o :: o in Reachable(s.history, s.objects, s.clock) ==>
      o in s.files && Linked(cat, s.objects.edges, o)
  }

  ghost predicate CheckHolds(cat: Contents, s: Sys, check: Check) {
    match check
    case Find(o, _) => o in s.files
    case Link(owner, targets) => Distinct(targets) && forall t :: t in targets ==> Edge(owner, t) in s.objects.edges
    case Reject => false
  }

  ghost predicate FirstHold(cat: Contents, s: Sys, checks: seq<Check>, done: nat) {
    done <= |checks| && forall i :: 0 <= i < done ==> CheckHolds(cat, s, checks[i])
  }

  /** What a commit has checked still holds. */
  ghost predicate TaskOk(cat: Contents, s: Sys, task: Task) {
    task.Commit? ==> FirstHold(cat, s, RootChecks(cat, task.root), task.done)
  }

  ghost predicate ModeOk(cat: Contents, s: Sys) {
    match s.mode
    case Down => true
    case Serving(tasks) => forall t :: t in tasks ==> TaskOk(cat, s, tasks[t])
    case Booting(sweep) => SweepOk(s, sweep)
    case Emptying(sweep) => SweepOk(s, sweep)
    case Collecting(sweep) => SweepOk(s, sweep)
  }

  /** An object about to be moved or completed is unreachable. */
  ghost predicate SweepOk(s: Sys, sweep: Sweep) {
    sweep.current.At? && (sweep.current.phase == Condemned || sweep.current.phase == Moved) ==>
      sweep.current.entry.target !in Reachable(s.history, s.objects, s.clock)
  }

  ghost predicate SysOk(cat: Contents, s: Sys) {
    && HistoryOk(s.history)
    && s.objects.edges <= ContentEdges(cat)
    && Solid(cat, s)
    && ModeOk(cat, s)
  }

  /** The edge table leads from a protected root to the whole content graph. */
  lemma ProtectedIsReachable(cat: Contents, s: Sys, r: RevisionId)
    requires SysOk(cat, s) && Protected(s.history, r, s.clock)
    ensures ContentGraph(cat, r) <= Reachable(s.history, s.objects, s.clock)
  {
    var reachable := Reachable(s.history, s.objects, s.clock);
    assert RevisionOk(s.history, r);
    assert RootObject(r) in ProtectedRoots(s.history, s.clock);
    forall e | e in ContentEdges(cat) && e.owner in reachable ensures e.target in reachable {
      ContentEdge(cat, e.owner, e.target);
      assert Linked(cat, s.objects.edges, e.owner);
      assert Edge(e.owner, e.target) == e;
    }
    ReachLeast(ContentEdges(cat), {RootObject(r)}, reachable);
  }

  lemma SysOkIsSafe(cat: Contents, s: Sys)
    requires SysOk(cat, s)
    ensures Safe(cat, s)
  {
    forall r | Protected(s.history, r, s.clock) ensures ContentGraph(cat, r) <= s.files {
      ProtectedIsReachable(cat, s, r);
    }
  }

  // ----- how steps move the protected roots -----

  /** Fewer protected roots and the same edges reach fewer objects. */
  lemma FewerRoots(cat: Contents, s: Sys, s': Sys)
    requires s'.objects.edges == s.objects.edges
    requires ProtectedRoots(s'.history, s'.clock) <= ProtectedRoots(s.history, s.clock)
    ensures Reachable(s'.history, s'.objects, s'.clock) <= Reachable(s.history, s.objects, s.clock)
    ensures Solid(cat, s) && s.files <= s'.files ==> Solid(cat, s')
  {
    ReachMonotone(s.objects.edges, ProtectedRoots(s'.history, s'.clock), s.objects.edges,
        ProtectedRoots(s.history, s.clock));
  }

  lemma LaterProtectsLess(h: History, now: Time, later: Time)
    requires now <= later
    ensures ProtectedRoots(h, later) <= ProtectedRoots(h, now)
  {
  }

  lemma TruncateProtectsNoMore(h: History, ns: NamespaceId, newHead: Option<RevisionId>, op: OperationId, now: Time)
    requires HistoryOk(h) && TruncateReady(h, ns, newHead, op)
    ensures ProtectedRoots(Truncated(h, ns, newHead, op, now), now) <= ProtectedRoots(h, now)
  {
    var h' := Truncated(h, ns, newHead, op, now);
    TruncatedRows(h, ns, newHead, op, now);
    forall r | r in h'.revisions && Protected(h', r, now) ensures Protected(h, r, now) {
      assert RevisionOk(h, r);
      if r in Segment(h.revisions, h.namespaces[ns].head, newHead) {
        assert r in InState(h.revisions, ns, Active);
      }
    }
  }

  /** Restoring only revives revisions that garbage collection was still protecting. */
  lemma RestoreProtectsNoMore(h: History, ns: NamespaceId, op: OperationId, now: Time)
    requires HistoryOk(h) && RestoreReady(h, ns, op) && h.operations[op].expiresAt > now
    ensures ProtectedRoots(Reinstated(h, ns, op), now) <= ProtectedRoots(h, now)
  {
    var h' := Reinstated(h, ns, op);
    ReinstatedRows(h, ns, op);
    forall r | r in h'.revisions && Protected(h', r, now) ensures Protected(h, r, now) {
      assert RevisionOk(h, r);
      if r in TaggedWith(h.revisions, op) {
        assert h.revisions[r].state == Trashed;
      }
    }
  }

  lemma PurgeProtectsNoMore(h: History, ns: NamespaceId, selected: set<OperationId>, now: Time)
    requires HistoryOk(h) && selected <= ActiveOperations(h, ns)
    ensures ProtectedRoots(PurgeRevisions(h, ns, selected), now) <= ProtectedRoots(h, now)
  {
  }

  lemma CommitProtectsItsRoot(h: History, revision: NewRevision, now: Time)
    requires HistoryOk(h) && CommitReady(h, revision)
    ensures ProtectedRoots(Committed(h, revision), now) <= ProtectedRoots(h, now) + {RootObject(revision.id)}
  {
  }

  // ----- shared steps -----

  /** Nothing a commit has checked is lost while files and edges only grow. */
  lemma TaskSurvives(cat: Contents, s: Sys, s': Sys, task: Task)
    requires s.files <= s'.files && s.objects.edges <= s'.objects.edges
    requires TaskOk(cat, s, task)
    ensures TaskOk(cat, s', task)
  {
  }

  lemma UploadKeeps(cat: Contents, s: Sys, l: Label)
    requires SysOk(cat, s) && s.mode.Serving? && NextTask(cat, s, l).Some?
    requires l.StartUpload? || l.FinishUpload? || l.FailTask? || l.StartCommit?
    ensures SysOk(cat, NextTask(cat, s, l).value)
  {
  }

  lemma LinkKeeps(cat: Contents, s: Sys, owner: Obj)
    requires SysOk(cat, s) && ReplaceObjectEdges(s.objects, owner, Targets(cat, owner)).Ok?
    ensures var edges' := ReplaceObjectEdges(s.objects, owner, Targets(cat, owner)).value.edges;
            && edges' <= ContentEdges(cat)
            && Linked(cat, edges', owner)
            && (forall e: Edge :: e in edges' && e.owner == owner ==> e.target in Targets(cat, owner))
            && (forall e: Edge :: e.owner != owner ==> (e in edges' <==> e in s.objects.edges))
            && s.objects.edges <= edges'
  {
  }

  /** Every link in the checks of a root carries exactly its owner's content edges. */
  lemma LinksAreTargets(cat: Contents, root: nat, check: Check)
    requires check in RootChecks(cat, root) && check.Link?
    ensures check.targets == Targets(cat, check.owner)
  {
    var d := ContentOf(cat, RootObject(root));
    if d.RevisionDocument? && check in ThreadsChecks(cat, d.threads) {
      ThreadsLinks(cat, d.threads, check);
    }
  }

  lemma {:induction false} ThreadsLinks(cat: Contents, ts: seq<ThreadRef>, check: Check)
    requires check in ThreadsChecks(cat, ts) && check.Link?
    ensures check.targets == Targets(cat, check.owner)
  {
    if check in ThreadChecks(cat, ts[0]) {
      var d := ContentOf(cat, ThreadObj(ts[0].descriptor));
      if d.Descriptor? && check in ContentsChecks(cat, d.contents) {
        ContentsLinks(cat, d.contents, check);
      }
    } else {
      ThreadsLinks(cat, ts[1..], check);
    }
  }

  lemma {:induction false} ContentsLinks(cat: Contents, cs: seq<ContentRef>, check: Check)
    requires check in ContentsChecks(cat, cs) && check.Link?
    ensures check.targets == Targets(cat, check.owner)
  {
    if check !in ContentChecks(cat, cs[0]) {
      ContentsLinks(cat, cs[1..], check);
    }
  }

  lemma PerformedCheck(cat: Contents, s: Sys, check: Check)
    requires SysOk(cat, s) && PerformCheck(cat, s.files, s.objects, check).Some?
    requires check.Link? ==> check.targets == Targets(cat, check.owner)
    ensures var s' := s.(objects := PerformCheck(cat, s.files, s.objects, check).value);
            && s'.objects.edges <= ContentEdges(cat)
            && s.objects.edges <= s'.objects.edges
            && Solid(cat, s')
            && CheckHolds(cat, s', check)
  {
    var s' := s.(objects := PerformCheck(cat, s.files, s.objects, check).value);
    if check.Link? {
      LinkKeeps(cat, s, check.owner);
      if check.owner !in Reachable(s.history, s.objects, s.clock) {
        RelinkKeepsReach(s.objects.edges, s'.objects.edges, ProtectedRoots(s.history, s.clock), check.owner);
      } else {
        assert Linked(cat, s.objects.edges, check.owner);
        forall e | e in s'.objects.edges ensures e in s.objects.edges {
        }
        assert s'.objects.edges == s.objects.edges;
      }
    }
  }

  lemma OneMoreHolds(cat: Contents, s: Sys, checks: seq<Check>, done: nat)
    requires FirstHold(cat, s, checks, done) && done < |checks| && CheckHolds(cat, s, checks[done])
    ensures FirstHold(cat, s, checks, done + 1)
  {
  }

  lemma CheckPassed(cat: Contents, s: Sys, t: nat, objects: Objects)
    requires SysOk(cat, s) && s.mode.Serving? && t in s.mode.tasks && s.mode.tasks[t].Commit?
    requires s.mode.tasks[t].done < |RootChecks(cat, s.mode.tasks[t].root)|
    requires PerformCheck(cat, s.files, s.objects, RootChecks(cat, s.mode.tasks[t].root)[s.mode.tasks[t].done])
             == Some(objects)
    ensures SysOk(cat, s.(objects := objects,
                          mode := Serving(s.mode.tasks[t := s.mode.tasks[t].(done := s.mode.tasks[t].done + 1)])))
  {
    var tasks := s.mode.tasks;
    var c := tasks[t];
    var checks := RootChecks(cat, c.root);
    var check := checks[c.done];
    var s' := s.(objects := objects, mode := Serving(tasks[t := c.(done := c.done + 1)]));
    if check.Link? {
      assert check in checks;
      LinksAreTargets(cat, c.root, check);
    }
    PerformedCheck(cat, s, check);
    forall u | u in s'.mode.tasks ensures TaskOk(cat, s', s'.mode.tasks[u]) {
      TaskSurvives(cat, s, s', tasks[u]);
      if u == t {
        OneMoreHolds(cat, s', checks, c.done);
      }
    }
  }

  lemma RunCheckKeeps(cat: Contents, s: Sys, t: nat)
    requires SysOk(cat, s) && s.mode.Serving? && NextTask(cat, s, RunCheck(t)).Some?
    ensures SysOk(cat, NextTask(cat, s, RunCheck(t)).value)
  {
    var c := s.mode.tasks[t];
    var performed := PerformCheck(cat, s.files, s.objects, RootChecks(cat, c.root)[c.done]);
    if performed.Some? {
      CheckPassed(cat, s, t, performed.value);
    } else {
      var s' := NextTask(cat, s, RunCheck(t)).value;
      FewerRoots(cat, s, s');
      forall u | u in s'.mode.tasks ensures TaskOk(cat, s', s'.mode.tasks[u]) {
        TaskSurvives(cat, s, s', s.mode.tasks[u]);
      }
    }
  }

  /** When all checks of a commit have passed, its whole content graph is stored and linked. */
  lemma CheckedGraphIsSolid(cat: Contents, s: Sys, task: Task)
    requires task.Commit? && TaskOk(cat, s, task) && task.done == |RootChecks(cat, task.root)|
    ensures ContentGraph(cat, task.root) <= s.files
    ensures forall o :: o in ContentGraph(cat, task.root) ==> Linked(cat, s.objects.edges, o)
  {
    var checks := RootChecks(cat, task.root);
    forall c | c in checks ensures CheckHolds(cat, s, c) {
      var i :| 0 <= i < |checks| && checks[i] == c;
    }
    assert Reject in checks ==> CheckHolds(cat, s, Reject);
    ChecksCoverGraph(cat, task.root);
    forall o | o in ContentGraph(cat, task.root) ensures o in s.files && Linked(cat, s.objects.edges, o) {
      var c :| c in checks && c.Find? && c.target == o;
      if Targets(cat, o) != [] {
        assert CheckHolds(cat, s, Link(o, Targets(cat, o)));
      }
    }
  }

  lemma FinishCommitKeeps(cat: Contents, s: Sys, t: nat)
    requires SysOk(cat, s) && s.mode.Serving? && NextTask(cat, s, FinishCommit(t)).Some?
    ensures SysOk(cat, NextTask(cat, s, FinishCommit(t)).value)
  {
    var s' := NextTask(cat, s, FinishCommit(t)).value;
    var c := s.mode.tasks[t];
    assert TaskOk(cat, s, c);
    if s'.history != s.history {
      var revision := RevisionOf(cat, c.root);
      var h, h' := s.history, s'.history;
      assert h' == Committed(h, revision) && CommitReady(h, revision);
      CommitKeepsHistory(h, revision);
      CommitProtectsItsRoot(h, revision, s.clock);
      CheckedGraphIsSolid(cat, s, c);
      var graph, reachable := ContentGraph(cat, c.root), Reachable(h, s.objects, s.clock);
      assert Closed(s.objects.edges, graph);
      ReachLeast(s.objects.edges, ProtectedRoots(h', s.clock), reachable + graph);
    } else {
      FewerRoots(cat, s, s');
    }
    forall u | u in s'.mode.tasks ensures TaskOk(cat, s', s'.mode.tasks[u]) {
      TaskSurvives(cat, s, s', s.mode.tasks[u]);
    }
  }

  // ----- exclusive steps -----

  /** The gate is free: with the edges and files unchanged, it is enough not to protect more. */
  lemma FreeGateKeeps(cat: Contents, s: Sys, s': Sys)
    requires SysOk(cat, s) && HistoryOk(s'.history)
    requires ProtectedRoots(s'.history, s'.clock) <= ProtectedRoots(s.history, s.clock)
    requires s'.objects.edges == s.objects.edges && s'.files == s.files
    requires s'.mode == Serving(map[]) || (s'.mode.Collecting? && s'.mode.sweep.current.Idle?)
    ensures SysOk(cat, s')
  {
    FewerRoots(cat, s, s');
  }

  lemma PurgeStepKeeps(cat: Contents, s: Sys, l: Label)
    requires SysOk(cat, s) && s.mode == Serving(map[]) && l.StartPurge?
    ensures NextExclusive(cat, s, l).Some? && SysOk(cat, NextExclusive(cat, s, l).value)
  {
    var s' := NextExclusive(cat, s, l).value;
    if s'.history != s.history {
      var plan := BuildPurgePlan(s.history, s.objects, l.ns, l.requested, l.purgeAll).value;
      PurgeKeepsHistory(s.history, l.ns, plan.operations);
      PurgeProtectsNoMore(s.history, l.ns, plan.operations, s.clock);
    }
    FreeGateKeeps(cat, s, s');
  }

  lemma ExclusiveKeeps(cat: Contents, s: Sys, l: Label)
    requires SysOk(cat, s) && s.mode == Serving(map[]) && NextExclusive(cat, s, l).Some?
    ensures SysOk(cat, NextExclusive(cat, s, l).value)
  {
    var s' := NextExclusive(cat, s, l).value;
    if l.StartPurge? {
      PurgeStepKeeps(cat, s, l);
    } else {
      if l.Truncate? && s'.history != s.history {
        TruncateKeepsHistory(s.history, l.ns, l.newHead, l.op, s.clock);
        TruncateProtectsNoMore(s.history, l.ns, l.newHead, l.op, s.clock);
      }
      if l.Restore? && s'.history != s.history {
        RestoreKeepsHistory(s.history, l.ns, l.op);
        RestoreProtectsNoMore(s.history, l.ns, l.op, s.clock);
      }
      FreeGateKeeps(cat, s, s');
    }
  }

  // ----- sweep steps -----

  lemma SweepKeeps(cat: Contents, s: Sys, l: Label)
    requires SysOk(cat, s) && (s.mode.Booting? || s.mode.Emptying? || s.mode.Collecting?) && NextSweep(s, l).Some?
    ensures SysOk(cat, NextSweep(s, l).value)
  {
    var s' := NextSweep(s, l).value;
    if l.CompleteEntry? {
      var o := s.mode.sweep.current.entry.target;
      SweepKeepsReach(s.objects.edges, ProtectedRoots(s.history, s.clock), o);
      forall x | x in Reachable(s.history, s.objects, s.clock) ensures Linked(cat, s'.objects.edges, x) {
        assert Linked(cat, s.objects.edges, x);
      }
    } else {
      FewerRoots(cat, s, s');
    }
  }

  // ----- every step, every run -----

  lemma StepKeeps(cat: Contents, s: Sys, l: Label)
    requires SysOk(cat, s) && Next(cat, s, l).Some?
    ensures SysOk(cat, Next(cat, s, l).value)
  {
    var s' := Next(cat, s, l).value;
    match l
    case Tick(delta) =>
      LaterProtectsLess(s.history, s.clock, s'.clock);
      FewerRoots(cat, s, s');
      TickKeepsMode(cat, s, delta);
    case Crash => FewerRoots(cat, s, s');
    case Boot => FewerRoots(cat, s, s');
    case CreateNamespace(ns) =>
      CreateNamespaceKeepsHistory(s.history, ns);
      assert ProtectedRoots(s'.history, s'.clock) == ProtectedRoots(s.history, s.clock);
      FewerRoots(cat, s, s');
      if s.mode.Serving? {
        forall t | t in s'.mode.tasks ensures TaskOk(cat, s', s'.mode.tasks[t]) {
          TaskSurvives(cat, s, s', s.mode.tasks[t]);
        }
      }
    case _ => GatedKeeps(cat, s, l);
  }

  lemma TickKeepsMode(cat: Contents, s: Sys, delta: nat)
    requires SysOk(cat, s)
    ensures ModeOk(cat, s.(clock := s.clock + delta))
  {
    var s' := s.(clock := s.clock + delta);
    LaterProtectsLess(s.history, s.clock, s'.clock);
    FewerRoots(cat, s, s');
    if s.mode.Serving? {
      forall t | t in s'.mode.tasks ensures TaskOk(cat, s', s'.mode.tasks[t]) {
        TaskSurvives(cat, s, s', s.mode.tasks[t]);
      }
    }
  }

  lemma GatedKeeps(cat: Contents, s: Sys, l: Label)
    requires SysOk(cat, s) && NextGated(cat, s, l).Some?
    ensures SysOk(cat, NextGated(cat, s, l).value)
  {
    if !s.mode.Serving? {
      SweepKeeps(cat, s, l);
    } else if l.Truncate? || l.Restore? || l.StartPurge? || l.StartGc? {
      ExclusiveKeeps(cat, s, l);
    } else {
      match l
      case RunCheck(t) => RunCheckKeeps(cat, s, t);
      case FinishCommit(t) => FinishCommitKeeps(cat, s, t);
      case _ => UploadKeeps(cat, s, l);
    }
  }

  /** The invariant holds in every state of every run. */
  lemma {:induction false} RunKeeps(cat: Contents, states: seq<Sys>, labels: seq<Label>, k: nat)
    requires Run(cat, states, labels) && k < |states|
    ensures SysOk(cat, states[k])
  {
    if k == 0 {
      EmptyHistoryOk();
      assert ProtectedRoots(states[0].history, states[0].clock) == {};
      assert Reachable(states[0].history, states[0].objects, states[0].clock) == {};
    } else {
      RunKeeps(cat, states, labels, k - 1);
      assert StepAt(cat, states, labels, k - 1);
      StepKeeps(cat, states[k - 1], labels[k - 1]);
    }
  }

  /** Garbage collection safety, whatever crashes, fails or interleaves. */
  lemma GarbageCollectionIsSafe(cat: Contents, states: seq<Sys>, labels: seq<Label>, k: nat)
    requires Run(cat, states, labels) && k < |states|
    ensures Safe(cat, states[k])
  {
    RunKeeps(cat, states, labels, k);
    SysOkIsSafe(cat, states[k]);
  }
}
