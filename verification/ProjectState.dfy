/** What assigning projects writes into the global state, key by key, what it leaves alone, and that the change it
    reports is a change. */
module ProjectState {
  import opened Basics
  import opened Json
  import opened Order
  import opened Threads
  import opened Projects
  import opened ProjectLaws

  // ---------- the entries written ----------

  /** The state holds the object under the key. */
  ghost predicate HasObject(state: Value, key: string) {
    state.Object? && key in state.fields && state.fields[key].Object?
  }

  ghost predicate HasArray(state: Value, key: string) {
    state.Object? && key in state.fields && state.fields[key].Array?
  }

  /** The entry of a thread: a local project, the path as the thread spells it, nothing pending. */
  ghost predicate IsEntry(v: Value, cwd: string, projectId: string) {
    && v.Object?
    && v.fields.Keys == {"projectKind", "projectId", "cwd", "pendingCoreUpdate"}
    && v.fields["projectKind"] == String("local") && v.fields["projectId"] == String(projectId)
    && v.fields["cwd"] == String(cwd) && v.fields["pendingCoreUpdate"] == Bool(false)
  }

  lemma EntryOfAssignment(a: Assigned)
    ensures IsEntry(AssignmentValue(a), a.cwd, a.projectId)
  {
  }

  /** What a state says of one thread after a call: its entry, the project of the entry, which has the root and is
      listed, the saved root, and that the thread is no longer without a project. */
  ghost predicate Records(state: Value, threadId: string, cwd: string, projectId: string, root: string) {
    && HasObject(state, "thread-project-assignments")
    && threadId in state.fields["thread-project-assignments"].fields
    && IsEntry(state.fields["thread-project-assignments"].fields[threadId], cwd, projectId)
    && HasObject(state, "local-projects") && projectId in state.fields["local-projects"].fields
    && HasRoot(state.fields["local-projects"].fields[projectId], root)
    && HasArray(state, "project-order") && String(projectId) in state.fields["project-order"].items
    && HasArray(state, "electron-saved-workspace-roots")
    && (exists v :: v in state.fields["electron-saved-workspace-roots"].items && v.String? && Identity(v.text) == root)
    && (HasArray(state, "projectless-thread-ids") ==>
          String(threadId) !in state.fields["projectless-thread-ids"].items)
  }

  lemma RecordsBoth(state: Value, a: Assigned)
    requires state.Object? && ThreadRecorded(state.fields, a) && RootRecorded(state.fields, a)
    requires ASSIGNMENTS in state.fields && PROJECTS in state.fields && ORDER in state.fields && SAVED in state.fields
    ensures Records(state, a.threadId, a.cwd, a.projectId, a.identity)
  {
    EntryOfAssignment(a);
  }

  lemma KeysAfter(fields: map<string, Value>, used: seq<Root>, assignments: seq<Assigned>, env: Env)
    requires ApplyAssignments(fields, used, assignments, env).Ok?
    ensures var after := ApplyAssignments(fields, used, assignments, env).value.value;
      && after.Object?
      && after.fields.Keys == fields.Keys + {PROJECTS, ORDER, SAVED, ASSIGNMENTS}
      && forall k :: k in fields && k !in {PROJECTS, ORDER, SAVED, ASSIGNMENTS, PROJECTLESS} ==>
        after.fields[k] == fields[k]
  {
  }

  /** After a success the state records every thread that has a workspace, under the deepest root that contains it,
      provided no other thread with its id has another home. */
  lemma StateRecordsEveryThread(state: Value, ts: seq<ThreadBundle>, mappings: seq<string>, env: Env, i: nat)
    returns (projectId: string, root: string)
    requires Apply(state, ts, mappings, env).Ok?
    requires i < |ts| && Place(ts[i]).Some? && forall j :: !TwoHomes(ts, i, j)
    ensures Matches(Place(ts[i]).value, root)
    ensures Records(Apply(state, ts, mappings, env).value.value, ts[i].threadId,
                    Native(WorkspacePath(ts[i]).value), projectId, root)
  {
    SuccessRecordsEveryThread(state, ts, mappings, env, i);
    EveryWorkspaceIsAssigned(ts, mappings, state.fields, env, i);
    AssignedIffPlaced(ts, mappings, state.fields, env, i);
    var roots := RootsIn(state.fields, ts, mappings, env);
    var assignments := AssignmentsFor(roots, ts);
    var a := AssignmentFor(roots, ts[i]).value;
    AssignmentsMean(roots, ts, a);
    KeysAfter(state.fields, Used(roots, assignments, InOrder(roots.Keys)), assignments, env);
    RecordsBoth(Apply(state, ts, mappings, env).value.value, a);
    projectId, root := a.projectId, a.identity;
  }

  // ---------- how a root is spelled ----------

  /** Of equal roots the first candidate counts: mapped paths before workspaces. */
  lemma {:induction false} FirstSpellingCounts(candidates: seq<string>, id: string) returns (i: nat)
    requires id in Displays(candidates)
    ensures i < |candidates| && Native(candidates[i]) == Displays(candidates)[id]
    ensures Identity(Native(candidates[i])) == id
    ensures forall j :: 0 <= j < i ==> Identity(Native(candidates[j])) != id
  {
    var front := candidates[..|candidates| - 1];
    if id in Displays(front) {
      i := FirstSpellingCounts(front, id);
    } else {
      i := |candidates| - 1;
      forall j | 0 <= j < i ensures Identity(Native(candidates[j])) != id {
        DisplaysMean(front, id);
        assert candidates[j] == front[j] && front[j] in front;
      }
    }
  }

  // ---------- what is left alone ----------

  /** A new project is named after the last component of its one root, under an id that its path determines, and carries
      the time of the call. */
  ghost predicate IsNewProject(v: Value, id: string, env: Env) {
    && v.Object? && v.fields.Keys == {"id", "name", "rootPaths", "createdAt", "updatedAt"}
    && exists display ::
         && id == "local-" + env.digest(display)
         && v.fields["id"] == String(id) && v.fields["name"] == String(env.fileName(display))
         && v.fields["rootPaths"] == Array([String(display)])
         && v.fields["createdAt"] == Number(Int(env.now)) && v.fields["updatedAt"] == Number(Int(env.now))
  }

  lemma NewProjectIs(r: Root, env: Env)
    requires r.projectId == "local-" + env.digest(r.display)
    ensures IsNewProject(NewProject(r, env), r.projectId, env)
  {
  }

  lemma NewIdIsDigest(projects: map<string, Value>, r: Root, env: Env)
    requires r.projectId == ProjectIdFor(projects, r.identity, r.display, env) && r.projectId !in projects
    ensures r.projectId == "local-" + env.digest(r.display)
  {
  }

  lemma {:induction false} OrderIsExtended(order: seq<Value>, rs: seq<Root>)
    ensures order <= PushOrder(order, rs).value
    ensures PushOrder(order, rs).changed <==> PushOrder(order, rs).value != order
  {
    if rs != [] {
      OrderIsExtended(order, rs[..|rs| - 1]);
    }
  }

  lemma {:induction false} SavedIsExtended(saved: seq<Value>, rs: seq<Root>)
    ensures saved <= PushSaved(saved, rs).value
    ensures PushSaved(saved, rs).changed <==> PushSaved(saved, rs).value != saved
  {
    if rs != [] {
      SavedIsExtended(saved, rs[..|rs| - 1]);
    }
  }

  lemma {:induction false} ProjectsAreExtended(projects: map<string, Value>, rs: seq<Root>, env: Env)
    requires AddProjects(projects, rs, env).Some?
    ensures var u := AddProjects(projects, rs, env).value;
      && projects.Keys <= u.value.Keys
      && (u.changed <==> u.value.Keys != projects.Keys)
      && (!u.changed ==> u.value == projects)
  {
    if rs != [] {
      ProjectsAreExtended(projects, rs[..|rs| - 1], env);
    }
  }

  lemma AssignChanges(m: map<string, Value>, assignments: seq<Assigned>)
    requires !Ambiguous(assignments)
    ensures Assign(m, assignments).changed <==> Assign(m, assignments).value != m
  {
    NoChangeMeans(m, assignments);
    if Assign(m, assignments).changed {
      AssignIsLatest(m, assignments);
      LatestHolds(assignments);
      var a :| a in assignments && !Holds(m, a);
      assert Latest(assignments)[a.threadId] == AssignmentValue(a);
    }
  }

  lemma {:induction false} UnassignedShorter(ids: seq<Value>, assignments: seq<Assigned>)
    ensures |Unassigned(ids, assignments)| <= |ids|
    ensures |Unassigned(ids, assignments)| == |ids| <==> Unassigned(ids, assignments) == ids
  {
    if ids != [] {
      UnassignedShorter(ids[..|ids| - 1], assignments);
      assert ids == ids[..|ids| - 1] + [ids[|ids| - 1]];
    }
  }

  /** The state, apart from what a call is for: of the projects there were, of the order and of the saved roots nothing
      is lost, new projects are named by the rule, entries of other threads and every other key stay. */
  ghost predicate KeepsTheRest(before: map<string, Value>, after: map<string, Value>, assignments: seq<Assigned>,
                               env: Env) {
    && (forall k :: k in before && k !in {PROJECTS, ORDER, SAVED, ASSIGNMENTS, PROJECTLESS} ==>
          k in after && after[k] == before[k])
    && (forall k :: k in after ==> k in before || k in {PROJECTS, ORDER, SAVED, ASSIGNMENTS})
    && ObjectField(before, PROJECTS).Ok? && ObjectField(after, PROJECTS).Ok?
    && KeepsProjects(ObjectField(before, PROJECTS).value, ObjectField(after, PROJECTS).value, env)
    && ArrayField(before, ORDER).Ok? && ArrayField(after, ORDER).Ok?
    && ArrayField(before, ORDER).value <= ArrayField(after, ORDER).value
    && ArrayField(before, SAVED).Ok? && ArrayField(after, SAVED).Ok?
    && ArrayField(before, SAVED).value <= ArrayField(after, SAVED).value
    && ObjectField(before, ASSIGNMENTS).Ok? && ObjectField(after, ASSIGNMENTS).Ok?
    && KeepsEntries(ObjectField(before, ASSIGNMENTS).value, ObjectField(after, ASSIGNMENTS).value, assignments)
  }

  ghost predicate KeepsProjects(before: map<string, Value>, after: map<string, Value>, env: Env) {
    && (forall id :: id in before ==> id in after && after[id] == before[id])
    && (forall id :: id in after && id !in before ==> IsNewProject(after[id], id, env))
  }

  ghost predicate KeepsEntries(before: map<string, Value>, after: map<string, Value>, assignments: seq<Assigned>) {
    forall id :: (forall a :: a in assignments ==> a.threadId != id) ==>
      (id in after <==> id in before) && (id in before ==> after[id] == before[id])
  }

  lemma ProjectsAreKept(projects: map<string, Value>, used: seq<Root>, env: Env)
    requires RootsOf(used, projects, env) && AddProjects(projects, used, env).Some?
    ensures KeepsProjects(projects, AddProjects(projects, used, env).value.value, env)
  {
    var p := AddProjects(projects, used, env).value.value;
    forall id ensures id in projects ==> id in p && p[id] == projects[id] {
      ProjectsAdded(projects, used, env, id);
    }
    forall id | id in p && id !in projects ensures IsNewProject(p[id], id, env) {
      ProjectsAdded(projects, used, env, id);
      var r :| r in used && AddedFor(r, id, p[id], env);
      NewIdIsDigest(projects, r, env);
      NewProjectIs(r, env);
    }
  }

  lemma EntriesAreKept(m: map<string, Value>, assignments: seq<Assigned>)
    ensures KeepsEntries(m, Assign(m, assignments).value, assignments)
  {
    AssignIsLatest(m, assignments);
    LatestHolds(assignments);
  }

  /** A call that assigns something keeps the rest. */
  lemma RestIsKept(state: Value, ts: seq<ThreadBundle>, mappings: seq<string>, env: Env)
    requires state.Object? && Apply(state, ts, mappings, env).Ok?
    ensures var assignments := AssignmentsFor(RootsIn(state.fields, ts, mappings, env), ts);
      var after := Apply(state, ts, mappings, env).value.value;
      after.Object? &&
      if assignments == [] then after == state else KeepsTheRest(state.fields, after.fields, assignments, env)
  {
    var roots := RootsIn(state.fields, ts, mappings, env);
    var assignments := AssignmentsFor(roots, ts);
    if assignments != [] {
      var used := Used(roots, assignments, InOrder(roots.Keys));
      FieldsAfter(state.fields, used, assignments, env);
      UsedRoots(state.fields, ts, mappings, env, ObjectField(state.fields, PROJECTS).value);
      UpdateKeepsTheRest(state.fields, used, assignments, env);
    }
  }

  lemma UpdateKeepsTheRest(fields: map<string, Value>, used: seq<Root>, assignments: seq<Assigned>, env: Env)
    requires ApplyAssignments(fields, used, assignments, env).Ok? && ObjectField(fields, PROJECTS).Ok?
    requires RootsOf(used, ObjectField(fields, PROJECTS).value, env)
    ensures var after := ApplyAssignments(fields, used, assignments, env).value.value;
      after.Object? && KeepsTheRest(fields, after.fields, assignments, env)
  {
    FieldsAfter(fields, used, assignments, env);
    KeysAfter(fields, used, assignments, env);
    ProjectsAreKept(ObjectField(fields, PROJECTS).value, used, env);
    OrderIsExtended(ArrayField(fields, ORDER).value, used);
    SavedIsExtended(ArrayField(fields, SAVED).value, used);
    EntriesAreKept(ObjectField(fields, ASSIGNMENTS).value, assignments);
  }

  /** A call that reports no change has made none; one that reports a change has made one, unless a thread id occurs
      with two homes. */
  lemma ChangesAreReported(state: Value, ts: seq<ThreadBundle>, mappings: seq<string>, env: Env)
    requires Apply(state, ts, mappings, env).Ok?
    ensures var u := Apply(state, ts, mappings, env).value;
      && (!u.changed ==> u.value == state)
      && (u.changed && (forall i, j :: !TwoHomes(ts, i, j)) ==> u.value != state)
  {
    var roots := RootsIn(state.fields, ts, mappings, env);
    var assignments := AssignmentsFor(roots, ts);
    if assignments != [] {
      var used := Used(roots, assignments, InOrder(roots.Keys));
      UsedRoots(state.fields, ts, mappings, env, ObjectField(state.fields, PROJECTS).value);
      assert assignments[0] in assignments;
      AmbiguousMeansTwoHomes(ts, mappings, state.fields, env);
      if Apply(state, ts, mappings, env).value.changed {
        if !Ambiguous(assignments) {
          ReportedUpdate(state.fields, used, assignments, env);
        }
      } else {
        SilentUpdate(state.fields, used, assignments, env);
      }
    }
  }

  lemma ReportedUpdate(fields: map<string, Value>, used: seq<Root>, assignments: seq<Assigned>, env: Env)
    requires ApplyAssignments(fields, used, assignments, env).Ok?
    requires ApplyAssignments(fields, used, assignments, env).value.changed && !Ambiguous(assignments)
    ensures ApplyAssignments(fields, used, assignments, env).value.value != Object(fields)
  {
    FieldsAfter(fields, used, assignments, env);
    ProjectlessAfter(fields, used, assignments, env);
    ProjectsAreExtended(ObjectField(fields, PROJECTS).value, used, env);
    OrderIsExtended(ArrayField(fields, ORDER).value, used);
    SavedIsExtended(ArrayField(fields, SAVED).value, used);
    AssignChanges(ObjectField(fields, ASSIGNMENTS).value, assignments);
    if PROJECTLESS in fields && fields[PROJECTLESS].Array? {
      UnassignedShorter(fields[PROJECTLESS].items, assignments);
    }
  }

  lemma SilentUpdate(fields: map<string, Value>, used: seq<Root>, assignments: seq<Assigned>, env: Env)
    requires ApplyAssignments(fields, used, assignments, env).Ok?
    requires !ApplyAssignments(fields, used, assignments, env).value.changed
    requires used != [] && assignments != [] && forall r :: r in used ==> Spelled(r)
    ensures ApplyAssignments(fields, used, assignments, env).value.value == Object(fields)
  {
    var projects, order := ObjectField(fields, PROJECTS).value, ArrayField(fields, ORDER).value;
    var saved, byThread := ArrayField(fields, SAVED).value, ObjectField(fields, ASSIGNMENTS).value;
    ProjectsAreExtended(projects, used, env);
    OrderIsExtended(order, used);
    SavedIsExtended(saved, used);
    NoChangeMeans(byThread, assignments);
    FieldsAreThere(fields, used, assignments, env);
    UpdateIsIdentity(fields, projects, order, saved, byThread);
    if PROJECTLESS in fields && fields[PROJECTLESS].Array? {
      UnassignedShorter(fields[PROJECTLESS].items, assignments);
      assert fields[PROJECTLESS := fields[PROJECTLESS]] == fields;
    }
  }

  /** What has been written by nobody is there: a missing field would have been filled. */
  lemma FieldsAreThere(fields: map<string, Value>, used: seq<Root>, assignments: seq<Assigned>, env: Env)
    requires ApplyAssignments(fields, used, assignments, env).Ok?
    requires !ApplyAssignments(fields, used, assignments, env).value.changed
    requires used != [] && assignments != [] && forall r :: r in used ==> Spelled(r)
    ensures PROJECTS in fields && ORDER in fields && SAVED in fields && ASSIGNMENTS in fields
  {
    var projects := ObjectField(fields, PROJECTS).value;
    assert used[0] in used && assignments[0] in assignments;
    ProjectsAreExtended(projects, used, env);
    UsedRootsAreRegistered(projects, used, env, used[0]);
    OrderPushed(ArrayField(fields, ORDER).value, used);
    OrderIsExtended(ArrayField(fields, ORDER).value, used);
    RootsSaved(ArrayField(fields, SAVED).value, used);
    SavedIsExtended(ArrayField(fields, SAVED).value, used);
    NoChangeMeans(ObjectField(fields, ASSIGNMENTS).value, assignments);
    assert Listed(ArrayField(fields, ORDER).value, used[0]);
    assert Saved(ArrayField(fields, SAVED).value, used[0]);
    assert Holds(ObjectField(fields, ASSIGNMENTS).value, assignments[0]);
  }
}
