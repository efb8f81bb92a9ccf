/** Assigning checked-out threads to projects in the global state (not on Windows: paths keep their case and use
    `/`). */
module Projects {
  import opened Basics
  import opened Json
  import opened Order
  import opened Threads

  datatype Error = StateNotObject | FieldHasOtherType(field: string) | ProjectIdCollision

  /** The start of the hex digest of a path, the last component of a path, and the clock. */
  datatype Env = Env(digest: string -> string, fileName: string -> string, now: int)

  // ---------- paths ----------

  function Native(path: string): (r: string)
    ensures |r| == |path| && forall i :: 0 <= i < |r| ==> r[i] == if path[i] == '\\' then '/' else path[i]
  {
    seq(|path|, i requires 0 <= i < |path| => if path[i] == '\\' then '/' else path[i])
  }

  function TrimSlashes(path: string): string {
    if path != [] && path[|path| - 1] == '/' then TrimSlashes(path[..|path| - 1]) else path
  }

  function Identity(path: string): string {
    var normalised := Native(path);
    TrimSlashes(if "//?/" <= normalised then normalised[4..] else normalised)
  }

  /** `path` is `prefix` or lies below it: the prefix ends on a path boundary. */
  predicate Matches(path: string, prefix: string) {
    path == prefix || (prefix < path && path[|prefix|] == '/')
  }

  function WorkspacePath(t: ThreadBundle): Option<string> {
    if t.workspace.sourcePath.Some? then t.workspace.sourcePath
    else if "threads" in t.relatedRecords.tables && t.relatedRecords.tables["threads"] != [] then
      var row := t.relatedRecords.tables["threads"][0];
      if row.Object? && "cwd" in row.fields && row.fields["cwd"].String? then Some(row.fields["cwd"].text) else None
    else None
  }

  /** The identity of a thread's workspace, if it has one. */
  function Place(t: ThreadBundle): Option<string> {
    if WorkspacePath(t).Some? && Identity(Native(WorkspacePath(t).value)) != "" then
      Some(Identity(Native(WorkspacePath(t).value)))
    else None
  }

  // ---------- roots ----------

  datatype Concrete = Concrete(display: string, count: nat)

  /** The workspaces in use, each with how many threads use it and how the first of them spells it. */
  function ConcretePaths(ts: seq<ThreadBundle>): map<string, Concrete> {
    if ts == [] then map[]
    else
      var before, t := ConcretePaths(ts[..|ts| - 1]), ts[|ts| - 1];
      if Place(t).None? then before
      else if Place(t).value in before then
        var c := before[Place(t).value];
        before[Place(t).value := c.(count := c.count + 1)]
      else before[Place(t).value := Concrete(Native(WorkspacePath(t).value), 1)]
  }

  predicate Covered(identity: string, mappings: seq<string>) {
    exists m :: m in mappings && Identity(Native(m)) != "" && Matches(identity, Identity(Native(m)))
  }

  /** Workspaces that become roots of their own: shared ones, and those no mapping covers. */
  function Promoted(concrete: map<string, Concrete>, mappings: seq<string>, ids: seq<string>): seq<string> {
    if ids == [] then []
    else
      var last := ids[|ids| - 1];
      Promoted(concrete, mappings, ids[..|ids| - 1])
      + if last in concrete && (concrete[last].count >= 2 || !Covered(last, mappings))
        then [concrete[last].display] else []
  }

  function Candidates(ts: seq<ThreadBundle>, mappings: seq<string>): seq<string> {
    var concrete := ConcretePaths(ts);
    mappings + Promoted(concrete, mappings, InOrder(concrete.Keys))
  }

  /** Sorting by identity and keeping the first of equal ones: each identity with its first spelling. */
  function Displays(candidates: seq<string>): map<string, string> {
    if candidates == [] then map[]
    else
      var before, display := Displays(candidates[..|candidates| - 1]), Native(candidates[|candidates| - 1]);
      if Identity(display) == "" || Identity(display) in before then before else before[Identity(display) := display]
  }

  datatype Root = Root(display: string, identity: string, projectId: string)

  predicate HasRoot(project: Value, identity: string) {
    && project.Object? && "rootPaths" in project.fields && project.fields["rootPaths"].Array?
    && exists p :: p in project.fields["rootPaths"].items && p.String? && Identity(p.text) == identity
  }

  /** The first project, in the order of ids, that has the root already, or a new id. */
  function ProjectIdFor(projects: map<string, Value>, identity: string, display: string, env: Env): string {
    var having := set id | id in projects && HasRoot(projects[id], identity);
    if having == {} then "local-" + env.digest(display) else Least(having)
  }

  // ---------- assignments ----------

  datatype Assigned = Assigned(threadId: string, cwd: string, projectId: string, identity: string)

  /** `max_by_key(|root| root.identity.len())` over the matching roots: the last of the longest. */
  function Deepest(ids: seq<string>, place: string): Option<string> {
    if ids == [] then None
    else
      var best, last := Deepest(ids[..|ids| - 1], place), ids[|ids| - 1];
      if Matches(place, last) && (best.None? || |best.value| <= |last|) then Some(last) else best
  }

  function AssignmentFor(roots: map<string, Root>, t: ThreadBundle): Option<Assigned> {
    if WorkspacePath(t).None? then None
    else
      var cwd := Native(WorkspacePath(t).value);
      var root := Deepest(InOrder(roots.Keys), Identity(cwd));
      if root.Some? && root.value in roots then
        Some(Assigned(t.threadId, cwd, roots[root.value].projectId, root.value))
      else None
  }

  function AssignmentsFor(roots: map<string, Root>, ts: seq<ThreadBundle>): seq<Assigned> {
    if ts == [] then []
    else
      var last := AssignmentFor(roots, ts[|ts| - 1]);
      AssignmentsFor(roots, ts[..|ts| - 1]) + if last.Some? then [last.value] else []
  }

  function RootsFor(displays: map<string, string>, projects: map<string, Value>, env: Env): map<string, Root> {
    map id | id in displays :: Root(displays[id], id, ProjectIdFor(projects, id, displays[id], env))
  }

  /** The roots that some assignment uses, in order. */
  function Used(roots: map<string, Root>, assignments: seq<Assigned>, ids: seq<string>): seq<Root> {
    if ids == [] then []
    else
      var last := ids[|ids| - 1];
      Used(roots, assignments, ids[..|ids| - 1])
      + if last in roots && exists a :: a in assignments && a.identity == last then [roots[last]] else []
  }

  // ---------- updates ----------

  function NewProject(r: Root, env: Env): Value {
    Object(map["id" := String(r.projectId), "name" := String(env.fileName(r.display)),
               "rootPaths" := Array([String(r.display)]),
               "createdAt" := Number(Int(env.now)), "updatedAt" := Number(Int(env.now))])
  }

  datatype Update<T> = Update(value: T, changed: bool)

  function AddProject(u: Update<map<string, Value>>, r: Root, env: Env): Option<Update<map<string, Value>>> {
    if r.projectId !in u.value then Some(Update(u.value[r.projectId := NewProject(r, env)], true))
    else if HasRoot(u.value[r.projectId], r.identity) then Some(u)
    else None
  }

  function AddProjects(projects: map<string, Value>, rs: seq<Root>, env: Env): Option<Update<map<string, Value>>> {
    if rs == [] then Some(Update(projects, false))
    else
      var before := AddProjects(projects, rs[..|rs| - 1], env);
      if before.None? then None else AddProject(before.value, rs[|rs| - 1], env)
  }

  predicate Listed(order: seq<Value>, r: Root) {
    String(r.projectId) in order
  }

  function PushOrder(order: seq<Value>, rs: seq<Root>): Update<seq<Value>> {
    if rs == [] then Update(order, false)
    else
      var before, r := PushOrder(order, rs[..|rs| - 1]), rs[|rs| - 1];
      if Listed(before.value, r) then before else Update(before.value + [String(r.projectId)], true)
  }

  predicate Saved(saved: seq<Value>, r: Root) {
    exists v :: v in saved && v.String? && Identity(v.text) == r.identity
  }

  function PushSaved(saved: seq<Value>, rs: seq<Root>): Update<seq<Value>> {
    if rs == [] then Update(saved, false)
    else
      var before, r := PushSaved(saved, rs[..|rs| - 1]), rs[|rs| - 1];
      if Saved(before.value, r) then before else Update(before.value + [String(r.display)], true)
  }

  function AssignmentValue(a: Assigned): Value {
    Object(map["projectKind" := String("local"), "projectId" := String(a.projectId), "cwd" := String(a.cwd),
               "pendingCoreUpdate" := Bool(false)])
  }

  function Assign(m: map<string, Value>, assignments: seq<Assigned>): Update<map<string, Value>> {
    if assignments == [] then Update(m, false)
    else
      var before, a := Assign(m, assignments[..|assignments| - 1]), assignments[|assignments| - 1];
      if a.threadId in before.value && before.value[a.threadId] == AssignmentValue(a) then before
      else Update(before.value[a.threadId := AssignmentValue(a)], true)
  }

  predicate IsAssigned(v: Value, assignments: seq<Assigned>) {
    v.String? && exists a :: a in assignments && a.threadId == v.text
  }

  function Unassigned(ids: seq<Value>, assignments: seq<Assigned>): seq<Value> {
    if ids == [] then []
    else
      var last := ids[|ids| - 1];
      Unassigned(ids[..|ids| - 1], assignments) + if IsAssigned(last, assignments) then [] else [last]
  }

  const PROJECTS := "local-projects"
  const ORDER := "project-order"
  const SAVED := "electron-saved-workspace-roots"
  const ASSIGNMENTS := "thread-project-assignments"
  const PROJECTLESS := "projectless-thread-ids"

  /** `json_object_field` and `json_array_field`: a missing field counts as empty. */
  function ObjectField(fields: map<string, Value>, key: string): Result<map<string, Value>, Error> {
    if key !in fields then Ok(map[])
    else if fields[key].Object? then Ok(fields[key].fields)
    else Err(FieldHasOtherType(key))
  }

  function ArrayField(fields: map<string, Value>, key: string): Result<seq<Value>, Error> {
    if key !in fields then Ok([])
    else if fields[key].Array? then Ok(fields[key].items)
    else Err(FieldHasOtherType(key))
  }

  /** The roots, with the projects that already have them. */
  function RootsIn(fields: map<string, Value>, ts: seq<ThreadBundle>, mappings: seq<string>, env: Env)
      : map<string, Root>
  {
    var projects := ObjectField(fields, PROJECTS);
    RootsFor(Displays(Candidates(ts, mappings)), if projects.Ok? then projects.value else map[], env)
  }

  /** What `apply_project_assignments` does to the global state, and whether it reports a change. */
  function Apply(state: Value, ts: seq<ThreadBundle>, mappings: seq<string>, env: Env): Result<Update<Value>, Error> {
    if !state.Object? then Err(StateNotObject)
    else
      var roots := RootsIn(state.fields, ts, mappings, env);
      var assignments := AssignmentsFor(roots, ts);
      if assignments == [] then Ok(Update(state, false))
      else ApplyAssignments(state.fields, Used(roots, assignments, InOrder(roots.Keys)), assignments, env)
  }

  function ApplyAssignments(fields: map<string, Value>, used: seq<Root>, assignments: seq<Assigned>, env: Env)
      : Result<Update<Value>, Error>
  {
    var projects, order := ObjectField(fields, PROJECTS), ArrayField(fields, ORDER);
    var saved, byThread := ArrayField(fields, SAVED), ObjectField(fields, ASSIGNMENTS);
    if projects.Err? then Err(projects.error)
    else if AddProjects(projects.value, used, env).None? then Err(ProjectIdCollision)
    else if order.Err? then Err(order.error)
    else if saved.Err? then Err(saved.error)
    else if byThread.Err? then Err(byThread.error)
    else
      var p, o := AddProjects(projects.value, used, env).value, PushOrder(order.value, used);
      var s, a := PushSaved(saved.value, used), Assign(byThread.value, assignments);
      var updated := fields[PROJECTS := Object(p.value)][ORDER := Array(o.value)][SAVED := Array(s.value)]
                           [ASSIGNMENTS := Object(a.value)];
      var changed := p.changed || o.changed || s.changed || a.changed;
      if PROJECTLESS in fields && fields[PROJECTLESS].Array? then
        var kept := Unassigned(fields[PROJECTLESS].items, assignments);
        Ok(Update(Object(updated[PROJECTLESS := Array(kept)]), changed || |kept| != |fields[PROJECTLESS].items|))
      else Ok(Update(Object(updated), changed))
  }

  // ---------- the updates as the program runs them ----------

  method CountConcretePaths(ts: seq<ThreadBundle>) returns (concrete: map<string, Concrete>)
    ensures concrete == ConcretePaths(ts)
  {
    concrete := map[];
    var i := 0;
    while i < |ts|
      invariant 0 <= i <= |ts| && concrete == ConcretePaths(ts[..i])
    {
      assert ts[..i + 1][..i] == ts[..i];
      var place := Place(ts[i]);
      if place.Some? {
        if place.value in concrete {
          var c := concrete[place.value];
          concrete := concrete[place.value := c.(count := c.count + 1)];
        } else {
          concrete := concrete[place.value := Concrete(Native(WorkspacePath(ts[i]).value), 1)];
        }
      }
      i := i + 1;
    }
    assert ts[..i] == ts;
  }

  method RootCandidates(ts: seq<ThreadBundle>, mappings: seq<string>) returns (candidates: seq<string>)
    ensures candidates == Candidates(ts, mappings)
  {
    var concrete := CountConcretePaths(ts);
    var ids := InOrder(concrete.Keys);
    candidates := mappings;
    var i := 0;
    while i < |ids|
      invariant 0 <= i <= |ids|
      invariant candidates == mappings + Promoted(concrete, mappings, ids[..i])
    {
      assert ids[i] in ids;
      PromotedOneMore(concrete, mappings, ids, i);
      if concrete[ids[i]].count >= 2 || !Covered(ids[i], mappings) {
        candidates := candidates + [concrete[ids[i]].display];
      }
      i := i + 1;
    }
    assert ids[..i] == ids;
  }

  lemma PromotedOneMore(concrete: map<string, Concrete>, mappings: seq<string>, ids: seq<string>, i: nat)
    requires i < |ids| && ids[i] in concrete
    ensures mappings + Promoted(concrete, mappings, ids[..i + 1]) ==
      mappings + Promoted(concrete, mappings, ids[..i])
      + if concrete[ids[i]].count >= 2 || !Covered(ids[i], mappings) then [concrete[ids[i]].display] else []
  {
    assert ids[..i + 1][..i] == ids[..i];
  }

  method UpdateProjects(projects: map<string, Value>, rs: seq<Root>, env: Env)
      returns (u: Option<Update<map<string, Value>>>)
    ensures u == AddProjects(projects, rs, env)
  {
    var updated, changed := projects, false;
    var i := 0;
    while i < |rs|
      invariant 0 <= i <= |rs| && AddProjects(projects, rs[..i], env) == Some(Update(updated, changed))
    {
      assert rs[..i + 1][..i] == rs[..i];
      var r := rs[i];
      if r.projectId in updated {
        if !HasRoot(updated[r.projectId], r.identity) {
          CollisionStays(projects, rs, i + 1, env);
          return None;
        }
      } else {
        updated, changed := updated[r.projectId := NewProject(r, env)], true;
      }
      i := i + 1;
    }
    assert rs[..i] == rs;
    return Some(Update(updated, changed));
  }

  lemma {:induction false} CollisionStays(projects: map<string, Value>, rs: seq<Root>, i: nat, env: Env)
    requires i <= |rs| && AddProjects(projects, rs[..i], env).None?
    ensures AddProjects(projects, rs, env).None?
  {
    if i == |rs| {
      assert rs[..i] == rs;
    } else {
      assert rs[..|rs| - 1][..i] == rs[..i];
      CollisionStays(projects, rs[..|rs| - 1], i, env);
    }
  }

  method UpdateOrder(order: seq<Value>, rs: seq<Root>) returns (u: Update<seq<Value>>)
    ensures u == PushOrder(order, rs)
  {
    u := Update(order, false);
    var i := 0;
    while i < |rs|
      invariant 0 <= i <= |rs| && u == PushOrder(order, rs[..i])
    {
      assert rs[..i + 1][..i] == rs[..i];
      if !Listed(u.value, rs[i]) {
        u := Update(u.value + [String(rs[i].projectId)], true);
      }
      i := i + 1;
    }
    assert rs[..i] == rs;
  }

  method UpdateSaved(saved: seq<Value>, rs: seq<Root>) returns (u: Update<seq<Value>>)
    ensures u == PushSaved(saved, rs)
  {
    u := Update(saved, false);
    var i := 0;
    while i < |rs|
      invariant 0 <= i <= |rs| && u == PushSaved(saved, rs[..i])
    {
      assert rs[..i + 1][..i] == rs[..i];
      if !Saved(u.value, rs[i]) {
        u := Update(u.value + [String(rs[i].display)], true);
      }
      i := i + 1;
    }
    assert rs[..i] == rs;
  }

  method UpdateAssignments(m: map<string, Value>, assignments: seq<Assigned>) returns (u: Update<map<string, Value>>)
    ensures u == Assign(m, assignments)
  {
    u := Update(m, false);
    var i := 0;
    while i < |assignments|
      invariant 0 <= i <= |assignments| && u == Assign(m, assignments[..i])
    {
      assert assignments[..i + 1][..i] == assignments[..i];
      var a := assignments[i];
      if a.threadId !in u.value || u.value[a.threadId] != AssignmentValue(a) {
        u := Update(u.value[a.threadId := AssignmentValue(a)], true);
      }
      i := i + 1;
    }
    assert assignments[..i] == assignments;
  }

  /** `apply_project_assignments`, on a state the caller drops when the call fails. */
  method ApplyProjectAssignments(state: Value, ts: seq<ThreadBundle>, mappings: seq<string>, env: Env)
      returns (result: Result<Update<Value>, Error>)
    ensures result == Apply(state, ts, mappings, env)
  {
    if !state.Object? {
      return Err(StateNotObject);
    }
    var candidates := RootCandidates(ts, mappings);
    var known := ObjectField(state.fields, PROJECTS);
    var roots := RootsFor(Displays(candidates), if known.Ok? then known.value else map[], env);
    var assignments := AssignmentsFor(roots, ts);
    if assignments == [] {
      return Ok(Update(state, false));
    }
    var used := Used(roots, assignments, InOrder(roots.Keys));
    result := UpdateState(state.fields, used, assignments, env);
  }

  method UpdateState(fields: map<string, Value>, used: seq<Root>, assignments: seq<Assigned>, env: Env)
      returns (result: Result<Update<Value>, Error>)
    ensures result == ApplyAssignments(fields, used, assignments, env)
  {
    var projects := ObjectField(fields, PROJECTS);
    if projects.Err? {
      return Err(projects.error);
    }
    var p := UpdateProjects(projects.value, used, env);
    if p.None? {
      return Err(ProjectIdCollision);
    }
    var order := ArrayField(fields, ORDER);
    if order.Err? {
      return Err(order.error);
    }
    var o := UpdateOrder(order.value, used);
    var saved := ArrayField(fields, SAVED);
    if saved.Err? {
      return Err(saved.error);
    }
    var s := UpdateSaved(saved.value, used);
    var byThread := ObjectField(fields, ASSIGNMENTS);
    if byThread.Err? {
      return Err(byThread.error);
    }
    var a := UpdateAssignments(byThread.value, assignments);
    var state := fields[PROJECTS := Object(p.value.value)][ORDER := Array(o.value)][SAVED := Array(s.value)]
                       [ASSIGNMENTS := Object(a.value)];
    var changed := p.value.changed || o.changed || s.changed || a.changed;
    if PROJECTLESS in state && state[PROJECTLESS].Array? {
      var before := state[PROJECTLESS].items;
      var kept := Unassigned(before, assignments);
      state := state[PROJECTLESS := Array(kept)];
      changed := changed || |before| != |kept|;
    }
    return Ok(Update(Object(state), changed));
  }
}
