/** Project assignment is total and picks the deepest root, and applying it again changes nothing. */
module ProjectLaws {
  import opened Basics
  import opened Json
  import opened Order
  import opened Threads
  import opened Projects

  // ---------- which roots there are ----------

  ghost predicate UsedBy(ts: seq<ThreadBundle>, i: int, id: string) {
    0 <= i < |ts| && Place(ts[i]) == Some(id)
  }

  ghost predicate Shared(ts: seq<ThreadBundle>, id: string) {
    exists i, j :: i < j && UsedBy(ts, i, id) && UsedBy(ts, j, id)
  }

  lemma NativeKeepsIdentity(path: string)
    ensures Native(Native(path)) == Native(path) && Identity(Native(path)) == Identity(path)
  {
  }

  lemma PrefixUse(ts: seq<ThreadBundle>, id: string)
    requires ts != []
    ensures forall i :: UsedBy(ts[..|ts| - 1], i, id) <==> UsedBy(ts, i, id) && i < |ts| - 1
  {
  }

  lemma {:induction false} ConcretePathsAreUsed(ts: seq<ThreadBundle>, id: string)
    ensures id in ConcretePaths(ts) <==> exists i :: UsedBy(ts, i, id)
  {
    if ts != [] {
      var front, n := ts[..|ts| - 1], |ts| - 1;
      PrefixUse(ts, id);
      ConcretePathsAreUsed(front, id);
      if i :| UsedBy(front, i, id) {
        assert UsedBy(ts, i, id);
      }
      if i :| UsedBy(ts, i, id) {
        assert i == n || UsedBy(front, i, id);
      }
      assert Place(ts[n]) == Some(id) ==> UsedBy(ts, n, id);
    }
  }

  lemma {:induction false} ConcretePathsAreSpelled(ts: seq<ThreadBundle>, id: string)
    requires id in ConcretePaths(ts)
    ensures Identity(ConcretePaths(ts)[id].display) == id && ConcretePaths(ts)[id].count >= 1
  {
    if id in ConcretePaths(ts[..|ts| - 1]) {
      ConcretePathsAreSpelled(ts[..|ts| - 1], id);
    }
  }

  lemma {:induction false} ConcretePathsCount(ts: seq<ThreadBundle>, id: string)
    requires id in ConcretePaths(ts)
    ensures ConcretePaths(ts)[id].count >= 2 <==> Shared(ts, id)
  {
    var front, n := ts[..|ts| - 1], |ts| - 1;
    PrefixUse(ts, id);
    ConcretePathsAreUsed(front, id);
    if id in ConcretePaths(front) {
      ConcretePathsCount(front, id);
      ConcretePathsAreSpelled(front, id);
      var i :| UsedBy(front, i, id);
      assert UsedBy(ts, n, id) ==> i < n && UsedBy(ts, i, id);
      assert Place(ts[n]) == Some(id) ==> UsedBy(ts, n, id);
      SharedInPrefix(ts, id);
    } else {
      assert forall i, j :: i < j && UsedBy(ts, i, id) && UsedBy(ts, j, id) ==> UsedBy(front, i, id);
    }
  }

  lemma SharedInPrefix(ts: seq<ThreadBundle>, id: string)
    requires ts != []
    ensures Shared(ts[..|ts| - 1], id) ==> Shared(ts, id)
    ensures Shared(ts, id) && Place(ts[|ts| - 1]) != Some(id) ==> Shared(ts[..|ts| - 1], id)
  {
    var front := ts[..|ts| - 1];
    PrefixUse(ts, id);
    if i, j :| i < j && UsedBy(front, i, id) && UsedBy(front, j, id) {
      assert UsedBy(ts, i, id) && UsedBy(ts, j, id);
    }
    if i, j :| i < j && UsedBy(ts, i, id) && UsedBy(ts, j, id) {
      assert Place(ts[|ts| - 1]) != Some(id) ==> UsedBy(front, i, id) && UsedBy(front, j, id);
    }
  }

  predicate Promotes(concrete: map<string, Concrete>, mappings: seq<string>, id: string, display: string) {
    && id in concrete && concrete[id].display == display
    && (concrete[id].count >= 2 || !Covered(id, mappings))
  }

  lemma {:induction false} PromotedMeans(concrete: map<string, Concrete>, mappings: seq<string>, ids: seq<string>,
                                         display: string)
    ensures display in Promoted(concrete, mappings, ids)
            <==> exists id :: id in ids && Promotes(concrete, mappings, id, display)
  {
    if ids != [] {
      var front, last := ids[..|ids| - 1], ids[|ids| - 1];
      PromotedMeans(concrete, mappings, front, display);
      assert ids == front + [last];
      assert Promotes(concrete, mappings, last, display) ==> last in ids;
    }
  }

  lemma {:induction false} DisplaysMean(candidates: seq<string>, id: string)
    ensures id in Displays(candidates) <==> id != "" && exists c :: c in candidates && Identity(Native(c)) == id
    ensures id in Displays(candidates) ==> Identity(Displays(candidates)[id]) == id
  {
    if candidates != [] {
      var front, last := candidates[..|candidates| - 1], candidates[|candidates| - 1];
      DisplaysMean(front, id);
      assert candidates == front + [last];
      NativeKeepsIdentity(last);
    }
  }

  /** The roots are the mapped paths and those workspaces that several threads share or that no mapping covers. */
  lemma RootsMean(ts: seq<ThreadBundle>, mappings: seq<string>, id: string)
    ensures id in Displays(Candidates(ts, mappings)) <==>
      && id != ""
      && ((exists m :: m in mappings && Identity(Native(m)) == id)
          || ((exists i :: UsedBy(ts, i, id)) && (Shared(ts, id) || !Covered(id, mappings))))
  {
    var concrete := ConcretePaths(ts);
    var ids := InOrder(concrete.Keys);
    ConcretePathsAreUsed(ts, id);
    if id in concrete {
      ConcretePathsAreSpelled(ts, id);
      ConcretePathsCount(ts, id);
    }
    DisplaysMean(Candidates(ts, mappings), id);
    if id in concrete && Promotes(concrete, mappings, id, concrete[id].display) {
      var display := concrete[id].display;
      PromotedMeans(concrete, mappings, ids, display);
      assert id in ids && display in Candidates(ts, mappings);
      NativeKeepsIdentity(display);
    }
    forall c | c in Promoted(concrete, mappings, ids) && Identity(Native(c)) == id
      ensures id in concrete && (concrete[id].count >= 2 || !Covered(id, mappings))
    {
      PromotedMeans(concrete, mappings, ids, c);
      var k :| k in ids && Promotes(concrete, mappings, k, c);
      ConcretePathsAreSpelled(ts, k);
      NativeKeepsIdentity(c);
    }
  }

  // ---------- total and deepest ----------

  lemma {:induction false} DeepestIsLongest(ids: seq<string>, place: string)
    ensures var best := Deepest(ids, place);
      && (best.None? <==> forall id :: id in ids ==> !Matches(place, id))
      && (best.Some? ==>
            && best.value in ids && Matches(place, best.value)
            && forall id :: id in ids && Matches(place, id) ==> |id| <= |best.value|)
  {
    if ids != [] {
      DeepestIsLongest(ids[..|ids| - 1], place);
      assert ids == ids[..|ids| - 1] + [ids[|ids| - 1]];
    }
  }

  /** The components of a path, split at every slash. */
  function Components(path: string): (r: seq<string>)
    ensures r != []
  {
    if path == [] then [[]]
    else
      var rest := Components(path[1..]);
      if path[0] == '/' then [[]] + rest else [[path[0]] + rest[0]] + rest[1..]
  }

  /** A root contains a path on a path boundary exactly if its components are the first components of the path. */
  lemma {:induction false} MatchesIsComponentPrefix(path: string, root: string)
    ensures Matches(path, root) <==> Components(root) <= Components(path)
  {
    if root == [] {
      EmptyRootMatches(path);
    } else if path == [] {
      assert Components(root)[0] == [] ==> |Components(root)| > 1;
    } else if path[0] == root[0] {
      MatchesIsComponentPrefix(path[1..], root[1..]);
      MatchesTail(path, root);
      SameFirstComponent(path, root);
    } else {
      FirstComponent(root);
      FirstComponent(path);
      assert Components(root)[0] != Components(path)[0];
    }
  }

  lemma FirstComponent(path: string)
    requires path != []
    ensures Components(path)[0] == [] <==> path[0] == '/'
    ensures path[0] != '/' ==> Components(path)[0][0] == path[0]
  {
  }

  lemma EmptyRootMatches(path: string)
    ensures Matches(path, []) <==> [[]] <= Components(path)
  {
  }

  lemma MatchesTail(path: string, root: string)
    requires path != [] && root != [] && path[0] == root[0]
    ensures Matches(path, root) <==> Matches(path[1..], root[1..])
  {
    assert path == [path[0]] + path[1..] && root == [root[0]] + root[1..];
    assert |root| < |path| ==> path[1..][|root[1..]|] == path[|root|];
  }

  lemma SameFirstComponent(path: string, root: string)
    requires path != [] && root != [] && path[0] == root[0]
    ensures Components(root) <= Components(path) <==> Components(root[1..]) <= Components(path[1..])
  {
    var p, q := Components(path[1..]), Components(root[1..]);
    if path[0] == '/' {
      ConsPrefix([], [], q, p);
    } else {
      ConsPrefix([root[0]] + q[0], [path[0]] + p[0], q[1..], p[1..]);
      ConsPrefix(q[0], p[0], q[1..], p[1..]);
      ConsEqual(root[0], q[0], p[0]);
      assert p == [p[0]] + p[1..] && q == [q[0]] + q[1..];
    }
  }

  lemma ConsPrefix(a: string, b: string, x: seq<string>, y: seq<string>)
    ensures [a] + x <= [b] + y <==> a == b && x <= y
  {
    assert ([a] + x)[1..] == x && ([b] + y)[1..] == y;
    if [a] + x <= [b] + y {
      assert ([a] + x)[0] == ([b] + y)[0];
      assert x == (([b] + y)[..|x| + 1])[1..];
      assert x == y[..|x|];
    }
  }

  lemma ConsEqual(c: char, a: string, b: string)
    ensures [c] + a == [c] + b <==> a == b
  {
    assert ([c] + a)[1..] == a && ([c] + b)[1..] == b;
  }

  lemma EqualLengthMatchesAreEqual(place: string, a: string, b: string)
    requires Matches(place, a) && Matches(place, b) && |a| == |b|
    ensures a == b
  {
  }

  /** Every thread with a workspace is assigned, to the deepest of the roots that contain it, and no other thread is. */
  lemma EveryWorkspaceIsAssigned(ts: seq<ThreadBundle>, mappings: seq<string>, fields: map<string, Value>, env: Env,
                                 i: nat)
    requires i < |ts|
    ensures var roots := RootsIn(fields, ts, mappings, env);
      var a := AssignmentFor(roots, ts[i]);
      && (a.Some? <==> Place(ts[i]).Some?)
      && (a.Some? ==>
            && a.value.threadId == ts[i].threadId
            && a.value.identity in roots && Matches(Place(ts[i]).value, a.value.identity)
            && forall id :: id in roots && Matches(Place(ts[i]).value, id) && id != a.value.identity
                ==> |id| < |a.value.identity|)
  {
    var roots, t := RootsIn(fields, ts, mappings, env), ts[i];
    var ids := InOrder(roots.Keys);
    if WorkspacePath(t).Some? {
      var place := Identity(Native(WorkspacePath(t).value));
      DeepestIsLongest(ids, place);
      if place == "" {
        forall id | id in ids ensures !Matches(place, id) {
          DisplaysMean(Candidates(ts, mappings), id);
        }
      } else {
        SomeRootContains(ts, mappings, i, place);
        var best := Deepest(ids, place).value;
        forall id | id in roots && Matches(place, id) && id != best ensures |id| < |best| {
          assert id in ids;
          if |id| == |best| {
            EqualLengthMatchesAreEqual(place, id, best);
          }
        }
      }
    }
  }

  lemma SomeRootContains(ts: seq<ThreadBundle>, mappings: seq<string>, i: nat, place: string)
    requires i < |ts| && Place(ts[i]) == Some(place)
    ensures exists id :: id in Displays(Candidates(ts, mappings)) && Matches(place, id)
  {
    assert UsedBy(ts, i, place);
    RootsMean(ts, mappings, place);
    if Covered(place, mappings) {
      var m :| m in mappings && Identity(Native(m)) != "" && Matches(place, Identity(Native(m)));
      RootsMean(ts, mappings, Identity(Native(m)));
    }
  }

  lemma {:induction false} AssignmentsMean(roots: map<string, Root>, ts: seq<ThreadBundle>, a: Assigned)
    ensures a in AssignmentsFor(roots, ts) <==> exists i :: 0 <= i < |ts| && AssignmentFor(roots, ts[i]) == Some(a)
  {
    if ts != [] {
      AssignmentsMean(roots, ts[..|ts| - 1], a);
      assert forall i :: 0 <= i < |ts| - 1 ==> ts[..|ts| - 1][i] == ts[i];
    }
  }

  // ---------- what each update establishes ----------

  ghost predicate Registered(projects: map<string, Value>, r: Root) {
    r.projectId in projects && HasRoot(projects[r.projectId], r.identity)
  }

  /** A root's spelling has its identity. */
  ghost predicate Spelled(r: Root) {
    Identity(r.display) == r.identity
  }

  lemma NewProjectHasRoot(r: Root, env: Env, identity: string)
    ensures HasRoot(NewProject(r, env), identity) <==> Identity(r.display) == identity
  {
  }

  ghost predicate AddedFor(r: Root, id: string, project: Value, env: Env) {
    r.projectId == id && project == NewProject(r, env)
  }

  ghost predicate Added(rs: seq<Root>, id: string, project: Value, env: Env) {
    exists r :: r in rs && AddedFor(r, id, project, env)
  }

  /** Adding projects keeps those there are and adds one only for a used root. */
  lemma {:induction false} ProjectsAdded(projects: map<string, Value>, rs: seq<Root>, env: Env, id: string)
    requires AddProjects(projects, rs, env).Some?
    ensures var p := AddProjects(projects, rs, env).value.value;
      if id in projects then id in p && p[id] == projects[id] else id in p ==> Added(rs, id, p[id], env)
  {
    if rs != [] {
      var front, last := rs[..|rs| - 1], rs[|rs| - 1];
      ProjectsAdded(projects, front, env, id);
      assert rs == front + [last];
      var before, p := AddProjects(projects, front, env).value.value, AddProjects(projects, rs, env).value.value;
      if id in before {
        assert id in p && p[id] == before[id];
        if id !in projects {
          var r :| r in front && AddedFor(r, id, before[id], env);
          assert r in rs;
        }
      } else if id in p {
        assert AddedFor(last, id, p[id], env) && last in rs;
      }
    }
  }

  /** It leaves every used root registered. */
  lemma {:induction false} UsedRootsAreRegistered(projects: map<string, Value>, rs: seq<Root>, env: Env, r: Root)
    requires AddProjects(projects, rs, env).Some? && r in rs && Spelled(r)
    ensures Registered(AddProjects(projects, rs, env).value.value, r)
  {
    var front, last := rs[..|rs| - 1], rs[|rs| - 1];
    assert rs == front + [last];
    NewProjectHasRoot(last, env, last.identity);
    if r in front {
      UsedRootsAreRegistered(projects, front, env, r);
    }
  }

  lemma {:induction false} NothingToAdd(projects: map<string, Value>, rs: seq<Root>, env: Env)
    requires forall r :: r in rs ==> Registered(projects, r)
    ensures AddProjects(projects, rs, env) == Some(Update(projects, false))
  {
    if rs != [] {
      assert rs[|rs| - 1] in rs;
      NothingToAdd(projects, rs[..|rs| - 1], env);
    }
  }

  lemma {:induction false} OrderPushed(order: seq<Value>, rs: seq<Root>)
    ensures forall v :: v in order ==> v in PushOrder(order, rs).value
    ensures forall r :: r in rs ==> Listed(PushOrder(order, rs).value, r)
    ensures (forall r :: r in rs ==> Listed(order, r)) ==> PushOrder(order, rs) == Update(order, false)
  {
    if rs != [] {
      var front, last := rs[..|rs| - 1], rs[|rs| - 1];
      OrderPushed(order, front);
      assert rs == front + [last];
    }
  }

  lemma {:induction false} RootsSaved(saved: seq<Value>, rs: seq<Root>)
    requires forall r :: r in rs ==> Spelled(r)
    ensures forall v :: v in saved ==> v in PushSaved(saved, rs).value
    ensures forall r :: r in rs ==> Saved(PushSaved(saved, rs).value, r)
    ensures (forall r :: r in rs ==> Saved(saved, r)) ==> PushSaved(saved, rs) == Update(saved, false)
  {
    if rs != [] {
      var front, last := rs[..|rs| - 1], rs[|rs| - 1];
      RootsSaved(saved, front);
      assert rs == front + [last];
      var before := PushSaved(saved, front).value;
      if !Saved(before, last) {
        assert String(last.display) in before + [String(last.display)];
      }
      forall r | r in front ensures Saved(PushSaved(saved, rs).value, r) {
        var v :| v in before && v.String? && Identity(v.text) == r.identity;
        assert v in PushSaved(saved, rs).value;
      }
    }
  }

  lemma {:induction false} UnassignedMeans(ids: seq<Value>, assignments: seq<Assigned>, v: Value)
    ensures v in Unassigned(ids, assignments) <==> v in ids && !IsAssigned(v, assignments)
  {
    if ids != [] {
      var front, last := ids[..|ids| - 1], ids[|ids| - 1];
      UnassignedMeans(front, assignments, v);
      assert ids == front + [last];
    }
  }

  lemma {:induction false} NobodyToRemove(ids: seq<Value>, assignments: seq<Assigned>)
    requires forall v :: v in ids ==> !IsAssigned(v, assignments)
    ensures Unassigned(ids, assignments) == ids
  {
    if ids != [] {
      var front, last := ids[..|ids| - 1], ids[|ids| - 1];
      assert ids == front + [last];
      NobodyToRemove(front, assignments);
    }
  }

  // ---------- assignments by thread ----------

  /** The last assignment of each thread. */
  function Latest(assignments: seq<Assigned>): map<string, Value> {
    if assignments == [] then map[]
    else
      var a := assignments[|assignments| - 1];
      Latest(assignments[..|assignments| - 1])[a.threadId := AssignmentValue(a)]
  }

  /** Two threads with one id that go to different places. */
  ghost predicate Ambiguous(assignments: seq<Assigned>) {
    exists a, b :: a in assignments && b in assignments && a.threadId == b.threadId
        && AssignmentValue(a) != AssignmentValue(b)
  }

  lemma {:induction false} AssignIsLatest(m: map<string, Value>, assignments: seq<Assigned>)
    ensures Assign(m, assignments).value == m + Latest(assignments)
  {
    if assignments != [] {
      AssignIsLatest(m, assignments[..|assignments| - 1]);
    }
  }

  predicate Holds(m: map<string, Value>, a: Assigned) {
    a.threadId in m && m[a.threadId] == AssignmentValue(a)
  }

  /** No change is reported exactly if every assignment was there already. */
  lemma {:induction false} NoChangeMeans(m: map<string, Value>, assignments: seq<Assigned>)
    ensures !Assign(m, assignments).changed <==> forall a :: a in assignments ==> Holds(m, a)
    ensures !Assign(m, assignments).changed ==> Assign(m, assignments).value == m
  {
    if assignments != [] {
      var front, last := assignments[..|assignments| - 1], assignments[|assignments| - 1];
      NoChangeMeans(m, front);
      assert assignments == front + [last];
      assert forall a :: a in assignments <==> a in front || a == last;
      assert Assign(m, assignments).changed <==> Assign(m, front).changed || !Holds(Assign(m, front).value, last);
    }
  }

  lemma {:induction false} LatestHolds(assignments: seq<Assigned>)
    ensures forall a :: a in assignments ==> a.threadId in Latest(assignments)
    ensures forall id :: id in Latest(assignments) ==>
      exists a :: a in assignments && a.threadId == id && Latest(assignments)[id] == AssignmentValue(a)
  {
    if assignments != [] {
      var front, last := assignments[..|assignments| - 1], assignments[|assignments| - 1];
      LatestHolds(front);
      assert assignments == front + [last];
    }
  }

  /** Assigning again leaves the map as it is, and reports a change exactly if some thread id is ambiguous. */
  lemma AssignTwice(m: map<string, Value>, assignments: seq<Assigned>)
    ensures var once := Assign(m, assignments).value;
      && Assign(once, assignments).value == once
      && (Assign(once, assignments).changed <==> Ambiguous(assignments))
  {
    var once := Assign(m, assignments).value;
    AssignIsLatest(m, assignments);
    AssignIsLatest(once, assignments);
    NoChangeMeans(once, assignments);
    LatestHolds(assignments);
    assert once + Latest(assignments) == once;
    if !Ambiguous(assignments) {
      forall a | a in assignments ensures Holds(once, a) {
        var b :| b in assignments && b.threadId == a.threadId && Latest(assignments)[a.threadId] == AssignmentValue(b);
      }
    }
  }

  /** Two threads with one id whose workspaces are spelled differently. */
  ghost predicate TwoHomes(ts: seq<ThreadBundle>, i: int, j: int) {
    && 0 <= i < |ts| && 0 <= j < |ts| && ts[i].threadId == ts[j].threadId
    && Place(ts[i]).Some? && Place(ts[j]).Some?
    && Native(WorkspacePath(ts[i]).value) != Native(WorkspacePath(ts[j]).value)
  }

  lemma ValueShowsWorkspace(a: Assigned, b: Assigned)
    ensures AssignmentValue(a) == AssignmentValue(b) <==> a.cwd == b.cwd && a.projectId == b.projectId
  {
    var f, g := AssignmentValue(a).fields, AssignmentValue(b).fields;
    assert f["cwd"] == String(a.cwd) && g["cwd"] == String(b.cwd);
    assert f["projectId"] == String(a.projectId) && g["projectId"] == String(b.projectId);
  }

  lemma AssignedIffPlaced(ts: seq<ThreadBundle>, mappings: seq<string>, fields: map<string, Value>, env: Env, i: nat)
    requires i < |ts|
    ensures var a := AssignmentFor(RootsIn(fields, ts, mappings, env), ts[i]);
      && (a.Some? <==> Place(ts[i]).Some?)
      && (a.Some? ==> a.value.threadId == ts[i].threadId && a.value.cwd == Native(WorkspacePath(ts[i]).value))
  {
    EveryWorkspaceIsAssigned(ts, mappings, fields, env, i);
  }

  lemma SameSpellingSameProject(roots: map<string, Root>, t: ThreadBundle, u: ThreadBundle)
    requires AssignmentFor(roots, t).Some? && AssignmentFor(roots, u).Some?
    requires AssignmentFor(roots, t).value.cwd == AssignmentFor(roots, u).value.cwd
    ensures AssignmentValue(AssignmentFor(roots, t).value) == AssignmentValue(AssignmentFor(roots, u).value)
  {
  }

  /** Assignments are ambiguous exactly if two threads share an id but not the spelling of their workspace. */
  lemma AmbiguousMeansTwoHomes(ts: seq<ThreadBundle>, mappings: seq<string>, fields: map<string, Value>, env: Env)
    ensures Ambiguous(AssignmentsFor(RootsIn(fields, ts, mappings, env), ts)) <==> exists i, j :: TwoHomes(ts, i, j)
  {
    if Ambiguous(AssignmentsFor(RootsIn(fields, ts, mappings, env), ts)) {
      AmbiguousHasTwoHomes(ts, mappings, fields, env);
    }
    if i, j :| TwoHomes(ts, i, j) {
      TwoHomesAreAmbiguous(ts, mappings, fields, env, i, j);
    }
  }

  lemma AmbiguousHasTwoHomes(ts: seq<ThreadBundle>, mappings: seq<string>, fields: map<string, Value>, env: Env)
    requires Ambiguous(AssignmentsFor(RootsIn(fields, ts, mappings, env), ts))
    ensures exists i, j :: TwoHomes(ts, i, j)
  {
    var roots := RootsIn(fields, ts, mappings, env);
    var assignments := AssignmentsFor(roots, ts);
    var a, b :| a in assignments && b in assignments && a.threadId == b.threadId
        && AssignmentValue(a) != AssignmentValue(b);
    AssignmentsMean(roots, ts, a);
    AssignmentsMean(roots, ts, b);
    var i :| 0 <= i < |ts| && AssignmentFor(roots, ts[i]) == Some(a);
    var j :| 0 <= j < |ts| && AssignmentFor(roots, ts[j]) == Some(b);
    AssignedIffPlaced(ts, mappings, fields, env, i);
    AssignedIffPlaced(ts, mappings, fields, env, j);
    if a.cwd == b.cwd {
      SameSpellingSameProject(roots, ts[i], ts[j]);
    }
    assert TwoHomes(ts, i, j);
  }

  lemma TwoHomesAreAmbiguous(ts: seq<ThreadBundle>, mappings: seq<string>, fields: map<string, Value>, env: Env,
                             i: int, j: int)
    requires TwoHomes(ts, i, j)
    ensures Ambiguous(AssignmentsFor(RootsIn(fields, ts, mappings, env), ts))
  {
    var roots := RootsIn(fields, ts, mappings, env);
    AssignedIffPlaced(ts, mappings, fields, env, i);
    AssignedIffPlaced(ts, mappings, fields, env, j);
    var a, b := AssignmentFor(roots, ts[i]).value, AssignmentFor(roots, ts[j]).value;
    AssignmentsMean(roots, ts, a);
    AssignmentsMean(roots, ts, b);
    ValueShowsWorkspace(a, b);
  }

  // ---------- applying twice ----------

  /** Roots of one run: spelled, with the project ids found in the state, one per identity. */
  ghost predicate RootsOf(rs: seq<Root>, projects: map<string, Value>, env: Env) {
    && (forall r :: r in rs ==> Spelled(r) && r.projectId == ProjectIdFor(projects, r.identity, r.display, env))
    && (forall r, q :: r in rs && q in rs && r.identity == q.identity ==> r == q)
  }

  /** A root that was used finds the same project again. */
  lemma SameProjectAgain(projects: map<string, Value>, rs: seq<Root>, env: Env, r: Root, later: Env)
    requires RootsOf(rs, projects, env) && AddProjects(projects, rs, env).Some? && r in rs
    ensures ProjectIdFor(AddProjects(projects, rs, env).value.value, r.identity, r.display, later) == r.projectId
  {
    var p := AddProjects(projects, rs, env).value.value;
    UsedRootsAreRegistered(projects, rs, env, r);
    var were := set id | id in projects && HasRoot(projects[id], r.identity);
    var are := set id | id in p && HasRoot(p[id], r.identity);
    assert r.projectId in are;
    forall id | id in were ensures id in are {
      ProjectsAdded(projects, rs, env, id);
    }
    forall id | id in are && id !in were ensures id == r.projectId && were == {} {
      NewOnlyForUsedRoot(projects, rs, env, r, id);
    }
    if were == {} {
      assert are == {r.projectId};
    } else {
      assert are == were;
    }
  }

  lemma NewOnlyForUsedRoot(projects: map<string, Value>, rs: seq<Root>, env: Env, r: Root, id: string)
    requires RootsOf(rs, projects, env) && AddProjects(projects, rs, env).Some? && r in rs
    requires var p := AddProjects(projects, rs, env).value.value; id in p && HasRoot(p[id], r.identity)
    requires !(id in projects && HasRoot(projects[id], r.identity))
    ensures id == r.projectId
    ensures (set k | k in projects && HasRoot(projects[k], r.identity)) == {}
  {
    var p := AddProjects(projects, rs, env).value.value;
    ProjectsAdded(projects, rs, env, id);
    var q :| q in rs && AddedFor(q, id, p[id], env);
    NewProjectHasRoot(q, env, r.identity);
    assert q == r;
    var were := set k | k in projects && HasRoot(projects[k], r.identity);
    assert were != {} ==> r.projectId in were;
  }

  ghost predicate SameAt(before: map<string, Root>, after: map<string, Root>, id: string) {
    id in before && id in after && before[id] == after[id]
  }

  lemma {:induction false} SameAssignments(before: map<string, Root>, after: map<string, Root>, ts: seq<ThreadBundle>)
    requires before.Keys == after.Keys
    requires forall a :: a in AssignmentsFor(before, ts) ==> SameAt(before, after, a.identity)
    ensures AssignmentsFor(after, ts) == AssignmentsFor(before, ts)
  {
    if ts != [] {
      var front, last := ts[..|ts| - 1], ts[|ts| - 1];
      var a := AssignmentFor(before, last);
      assert a.Some? ==> a.value in AssignmentsFor(before, ts);
      assert AssignmentFor(after, last) == a;
      SameAssignments(before, after, front);
    }
  }

  lemma {:induction false} SameUsed(before: map<string, Root>, after: map<string, Root>, assignments: seq<Assigned>,
                                    ids: seq<string>)
    requires before.Keys == after.Keys
    requires forall a :: a in assignments && a.identity in before ==> SameAt(before, after, a.identity)
    ensures Used(after, assignments, ids) == Used(before, assignments, ids)
  {
    if ids != [] {
      SameUsed(before, after, assignments, ids[..|ids| - 1]);
    }
  }

  lemma {:induction false} UsedMeans(roots: map<string, Root>, assignments: seq<Assigned>, ids: seq<string>, r: Root)
    ensures r in Used(roots, assignments, ids) <==>
      exists id :: id in ids && id in roots && roots[id] == r && exists a :: a in assignments && a.identity == id
  {
    if ids != [] {
      UsedMeans(roots, assignments, ids[..|ids| - 1], r);
      assert ids == ids[..|ids| - 1] + [ids[|ids| - 1]];
    }
  }

  /** The roots a run uses are those of its assignments. */
  lemma UsedRoots(fields: map<string, Value>, ts: seq<ThreadBundle>, mappings: seq<string>, env: Env,
                  projects: map<string, Value>)
    requires projects == if ObjectField(fields, PROJECTS).Ok? then ObjectField(fields, PROJECTS).value else map[]
    ensures var roots := RootsIn(fields, ts, mappings, env);
      var assignments := AssignmentsFor(roots, ts);
      var used := Used(roots, assignments, InOrder(roots.Keys));
      && RootsOf(used, projects, env)
      && forall a :: a in assignments
          ==> a.identity in roots && roots[a.identity] in used && roots[a.identity].identity == a.identity
  {
    var roots := RootsIn(fields, ts, mappings, env);
    var assignments := AssignmentsFor(roots, ts);
    var used := Used(roots, assignments, InOrder(roots.Keys));
    forall r | r in used ensures Spelled(r) && r.projectId == ProjectIdFor(projects, r.identity, r.display, env)
                          && r.identity in roots && roots[r.identity] == r
    {
      UsedMeans(roots, assignments, InOrder(roots.Keys), r);
      var id :| id in roots && roots[id] == r;
      DisplaysMean(Candidates(ts, mappings), id);
    }
    forall a | a in assignments
      ensures a.identity in roots && roots[a.identity] in used && roots[a.identity].identity == a.identity
    {
      AssignmentsMean(roots, ts, a);
      assert a.identity in InOrder(roots.Keys);
      UsedMeans(roots, assignments, InOrder(roots.Keys), roots[a.identity]);
    }
  }

  /** After a run the same threads find the same roots, projects and assignments, whatever the time is then. */
  lemma SecondRunSeesTheSame(fields: map<string, Value>, after: map<string, Value>, ts: seq<ThreadBundle>,
                             mappings: seq<string>,
                             env: Env, later: Env)
    requires later.digest == env.digest
    requires var roots := RootsIn(fields, ts, mappings, env);
      var used := Used(roots, AssignmentsFor(roots, ts), InOrder(roots.Keys));
      && ObjectField(fields, PROJECTS).Ok?
      && AddProjects(ObjectField(fields, PROJECTS).value, used, env).Some?
      && ObjectField(after, PROJECTS) == Ok(AddProjects(ObjectField(fields, PROJECTS).value, used, env).value.value)
    ensures var roots, again := RootsIn(fields, ts, mappings, env), RootsIn(after, ts, mappings, later);
      && again.Keys == roots.Keys
      && AssignmentsFor(again, ts) == AssignmentsFor(roots, ts)
      && Used(again, AssignmentsFor(again, ts), InOrder(again.Keys))
          == Used(roots, AssignmentsFor(roots, ts), InOrder(roots.Keys))
  {
    var roots, again := RootsIn(fields, ts, mappings, env), RootsIn(after, ts, mappings, later);
    var assignments, projects := AssignmentsFor(roots, ts), ObjectField(fields, PROJECTS).value;
    var used := Used(roots, assignments, InOrder(roots.Keys));
    UsedRoots(fields, ts, mappings, env, projects);
    assert again.Keys == roots.Keys;
    forall a | a in assignments ensures SameAt(roots, again, a.identity) {
      SameProjectAgain(projects, used, env, roots[a.identity], later);
    }
    SameAssignments(roots, again, ts);
    SameUsed(roots, again, assignments, InOrder(roots.Keys));
  }

  /** The fields after a run that assigned something. */
  lemma FieldsAfter(fields: map<string, Value>, used: seq<Root>, assignments: seq<Assigned>, env: Env)
    requires ApplyAssignments(fields, used, assignments, env).Ok?
    ensures var after := ApplyAssignments(fields, used, assignments, env).value.value;
      && after.Object?
      && ObjectField(fields, PROJECTS).Ok? && AddProjects(ObjectField(fields, PROJECTS).value, used, env).Some?
      && ArrayField(fields, ORDER).Ok? && ArrayField(fields, SAVED).Ok? && ObjectField(fields, ASSIGNMENTS).Ok?
      && ObjectField(after.fields, PROJECTS)
          == Ok(AddProjects(ObjectField(fields, PROJECTS).value, used, env).value.value)
      && ArrayField(after.fields, ORDER) == Ok(PushOrder(ArrayField(fields, ORDER).value, used).value)
      && ArrayField(after.fields, SAVED) == Ok(PushSaved(ArrayField(fields, SAVED).value, used).value)
      && ObjectField(after.fields, ASSIGNMENTS) == Ok(Assign(ObjectField(fields, ASSIGNMENTS).value, assignments).value)
  {
  }

  lemma ProjectlessAfter(fields: map<string, Value>, used: seq<Root>, assignments: seq<Assigned>, env: Env)
    requires ApplyAssignments(fields, used, assignments, env).Ok?
    ensures var after := ApplyAssignments(fields, used, assignments, env).value.value;
      && after.Object?
      && (PROJECTLESS in after.fields <==> PROJECTLESS in fields)
      && (PROJECTLESS in fields && fields[PROJECTLESS].Array? ==>
            after.fields[PROJECTLESS] == Array(Unassigned(fields[PROJECTLESS].items, assignments)))
      && (PROJECTLESS in fields && !fields[PROJECTLESS].Array? ==> after.fields[PROJECTLESS] == fields[PROJECTLESS])
  {
  }

  /** Roots that have been pushed once are not pushed again. */
  lemma SecondPushes(projects: map<string, Value>, order: seq<Value>, saved: seq<Value>, used: seq<Root>, env: Env,
                     later: Env)
    requires AddProjects(projects, used, env).Some? && forall r :: r in used ==> Spelled(r)
    ensures var p := AddProjects(projects, used, env).value.value; AddProjects(p, used, later) == Some(Update(p, false))
    ensures var o := PushOrder(order, used).value; PushOrder(o, used) == Update(o, false)
    ensures var s := PushSaved(saved, used).value; PushSaved(s, used) == Update(s, false)
  {
    var p := AddProjects(projects, used, env).value.value;
    forall r | r in used ensures Registered(p, r) {
      UsedRootsAreRegistered(projects, used, env, r);
    }
    NothingToAdd(p, used, later);
    OrderPushed(order, used);
    OrderPushed(PushOrder(order, used).value, used);
    RootsSaved(saved, used);
    RootsSaved(PushSaved(saved, used).value, used);
  }

  /** Applying the same assignments to their own result changes nothing, and reports a change exactly if they are
      ambiguous. */
  lemma SecondUpdate(fields: map<string, Value>, used: seq<Root>, assignments: seq<Assigned>, env: Env, later: Env)
    requires ApplyAssignments(fields, used, assignments, env).Ok?
    requires forall r :: r in used ==> Spelled(r)
    ensures var after := ApplyAssignments(fields, used, assignments, env).value.value;
      && after.Object?
      && ApplyAssignments(after.fields, used, assignments, later) == Ok(Update(after, Ambiguous(assignments)))
  {
    var after := ApplyAssignments(fields, used, assignments, env).value.value;
    FieldsAfter(fields, used, assignments, env);
    ProjectlessAfter(fields, used, assignments, env);
    var p := AddProjects(ObjectField(fields, PROJECTS).value, used, env).value.value;
    SecondPushes(ObjectField(fields, PROJECTS).value, ArrayField(fields, ORDER).value, ArrayField(fields, SAVED).value,
                 used, env, later);
    AssignTwice(ObjectField(fields, ASSIGNMENTS).value, assignments);
    if PROJECTLESS in fields && fields[PROJECTLESS].Array? {
      NobodyLeft(fields[PROJECTLESS].items, assignments);
      assert after.fields[PROJECTLESS := after.fields[PROJECTLESS]] == after.fields;
    }
    UpdateIsIdentity(after.fields, p, ArrayField(after.fields, ORDER).value, ArrayField(after.fields, SAVED).value,
                     ObjectField(after.fields, ASSIGNMENTS).value);
  }

  lemma NobodyLeft(ids: seq<Value>, assignments: seq<Assigned>)
    ensures Unassigned(Unassigned(ids, assignments), assignments) == Unassigned(ids, assignments)
  {
    var kept := Unassigned(ids, assignments);
    forall v | v in kept ensures !IsAssigned(v, assignments) {
      UnassignedMeans(ids, assignments, v);
    }
    NobodyToRemove(kept, assignments);
  }

  lemma UpdateIsIdentity(fields: map<string, Value>, p: map<string, Value>, o: seq<Value>, s: seq<Value>,
                         a: map<string, Value>)
    requires PROJECTS in fields && fields[PROJECTS] == Object(p)
    requires ORDER in fields && fields[ORDER] == Array(o)
    requires SAVED in fields && fields[SAVED] == Array(s)
    requires ASSIGNMENTS in fields && fields[ASSIGNMENTS] == Object(a)
    ensures fields[PROJECTS := Object(p)][ORDER := Array(o)][SAVED := Array(s)][ASSIGNMENTS := Object(a)] == fields
  {
  }

  /** When a call succeeds, a second one on its result succeeds and leaves the state as it is.  It reports a change
      exactly if two of the threads share an id but not the spelling of their workspace. */
  lemma ApplyTwice(state: Value, ts: seq<ThreadBundle>, mappings: seq<string>, env: Env, later: Env)
    requires Apply(state, ts, mappings, env).Ok? && later.digest == env.digest
    ensures var once := Apply(state, ts, mappings, env).value.value;
      && Apply(once, ts, mappings, later).Ok?
      && Apply(once, ts, mappings, later).value.value == once
      && (Apply(once, ts, mappings, later).value.changed <==> exists i, j :: TwoHomes(ts, i, j))
  {
    var roots := RootsIn(state.fields, ts, mappings, env);
    AmbiguousMeansTwoHomes(ts, mappings, state.fields, env);
    if AssignmentsFor(roots, ts) == [] {
      SameDigestSameRoots(state.fields, ts, mappings, env, later);
    } else {
      AssignTwiceInState(state.fields, ts, mappings, env, later);
    }
  }

  /** Two threads with one id whose workspace is spelled with and without a trailing slash. */
  function TwoSpellings(): seq<ThreadBundle> {
    [ThreadAt("/a"), ThreadAt("/a/")]
  }

  function ThreadAt(path: string): ThreadBundle {
    ThreadBundle(1, "t", "", false, None, None, None, WorkspaceRef(None, Some(path)),
                 ContentObject("", 0, "", None, None, None), RelatedRecords(None, map[]), [])
  }

  lemma Spellings()
    ensures Place(ThreadAt("/a")) == Some("/a") && Place(ThreadAt("/a/")) == Some("/a")
    ensures Native("/a") == "/a" && Native("/a/") == "/a/"
  {
    assert Native("/a") == "/a" && Native("/a/") == "/a/";
    assert "/a/"[..2] == "/a";
    assert TrimSlashes("/a/") == TrimSlashes("/a") == "/a";
  }

  lemma OnlyRoot(env: Env)
    ensures RootsIn(map[], TwoSpellings(), [], env).Keys <= {"/a"}
  {
    forall id | id in Displays(Candidates(TwoSpellings(), [])) ensures id == "/a" {
      RootsMean(TwoSpellings(), [], id);
      OnlyUse(id);
    }
  }

  lemma OnlyUse(id: string)
    ensures (exists i :: UsedBy(TwoSpellings(), i, id)) ==> id == "/a"
  {
    Spellings();
  }

  lemma OneIsAdded(roots: map<string, Root>, assignments: seq<Assigned>, env: Env)
    requires roots.Keys <= {"/a"}
    ensures AddProjects(map[], Used(roots, assignments, InOrder(roots.Keys)), env).Some?
  {
    if "/a" in roots {
      SortedUnique(InOrder(roots.Keys), ["/a"]);
      var used := Used(roots, assignments, ["/a"]);
      assert ["/a"][..0] == [];
      assert Used(roots, assignments, ["/a"][..0]) == [];
      assert used == [] || used == [roots["/a"]];
      assert used != [] ==> used[..0] == [] && AddProjects(map[], used[..0], env) == Some(Update(map[], false));
    } else {
      assert roots.Keys == {};
    }
  }

  lemma FirstCallSucceeds(env: Env)
    ensures Apply(Object(map[]), TwoSpellings(), [], env).Ok?
  {
    var roots := RootsIn(map[], TwoSpellings(), [], env);
    var assignments := AssignmentsFor(roots, TwoSpellings());
    OnlyRoot(env);
    OneIsAdded(roots, assignments, env);
    EmptyStateTakes(Used(roots, assignments, InOrder(roots.Keys)), assignments, env);
  }

  lemma EmptyStateTakes(used: seq<Root>, assignments: seq<Assigned>, env: Env)
    requires AddProjects(map[], used, env).Some?
    ensures ApplyAssignments(map[], used, assignments, env).Ok?
  {
  }

  /** On an empty state the first call succeeds for them, and the second, which changes nothing, reports a change. */
  lemma SecondCallReports(env: Env)
    ensures Apply(Object(map[]), TwoSpellings(), [], env).Ok?
    ensures var once := Apply(Object(map[]), TwoSpellings(), [], env).value.value;
            Apply(once, TwoSpellings(), [], env) == Ok(Update(once, true))
  {
    FirstCallSucceeds(env);
    Spellings();
    assert TwoHomes(TwoSpellings(), 0, 1);
    ApplyTwice(Object(map[]), TwoSpellings(), [], env, env);
  }

  /** A snapshot never repeats a thread id, and then a second call is silent: it changes nothing and reports nothing. */
  lemma SecondCallIsSilent(state: Value, ts: seq<ThreadBundle>, mappings: seq<string>, env: Env, later: Env)
    requires Apply(state, ts, mappings, env).Ok? && later.digest == env.digest
    requires forall i, j :: 0 <= i < j < |ts| ==> ts[i].threadId != ts[j].threadId
    ensures var once := Apply(state, ts, mappings, env).value.value;
            Apply(once, ts, mappings, later) == Ok(Update(once, false))
  {
    ApplyTwice(state, ts, mappings, env, later);
    forall i, j ensures !TwoHomes(ts, i, j) {
    }
  }

  lemma SameDigestSameRoots(fields: map<string, Value>, ts: seq<ThreadBundle>, mappings: seq<string>, env: Env,
                            later: Env)
    requires later.digest == env.digest
    ensures RootsIn(fields, ts, mappings, later) == RootsIn(fields, ts, mappings, env)
  {
  }

  lemma AssignTwiceInState(fields: map<string, Value>, ts: seq<ThreadBundle>, mappings: seq<string>, env: Env,
                           later: Env)
    requires later.digest == env.digest
    requires var roots := RootsIn(fields, ts, mappings, env);
      var assignments := AssignmentsFor(roots, ts);
      assignments != [] && ApplyAssignments(fields, Used(roots, assignments, InOrder(roots.Keys)), assignments, env).Ok?
    ensures var roots := RootsIn(fields, ts, mappings, env);
      var assignments := AssignmentsFor(roots, ts);
      var once := ApplyAssignments(fields, Used(roots, assignments, InOrder(roots.Keys)), assignments, env).value.value;
      Apply(once, ts, mappings, later) == Ok(Update(once, Ambiguous(assignments)))
  {
    var roots := RootsIn(fields, ts, mappings, env);
    var assignments := AssignmentsFor(roots, ts);
    var used := Used(roots, assignments, InOrder(roots.Keys));
    var once := ApplyAssignments(fields, used, assignments, env).value.value;
    FieldsAfter(fields, used, assignments, env);
    UsedRoots(fields, ts, mappings, env, ObjectField(fields, PROJECTS).value);
    SecondUpdate(fields, used, assignments, env, later);
    SecondRunSeesTheSame(fields, once.fields, ts, mappings, env, later);
  }

  // ---------- what a successful call leaves behind ----------

  /** After success a thread with a workspace is recorded under the deepest root that contains it, in a project that has
      that root and is listed, its root is saved, and it is no longer projectless, provided no other thread with its id
      has another home. */
  lemma SuccessRecordsEveryThread(state: Value, ts: seq<ThreadBundle>, mappings: seq<string>, env: Env, i: nat)
    requires Apply(state, ts, mappings, env).Ok?
    requires i < |ts| && Place(ts[i]).Some? && forall j :: !TwoHomes(ts, i, j)
    ensures state.Object?
    ensures var after := Apply(state, ts, mappings, env).value.value;
      var a := AssignmentFor(RootsIn(state.fields, ts, mappings, env), ts[i]);
      a.Some? && after.Object? && ThreadRecorded(after.fields, a.value) && RootRecorded(after.fields, a.value)
  {
    var roots := RootsIn(state.fields, ts, mappings, env);
    var assignments := AssignmentsFor(roots, ts);
    LatestIsTheOnlyOne(ts, mappings, state.fields, env, i);
    var a := AssignmentFor(roots, ts[i]).value;
    var used := Used(roots, assignments, InOrder(roots.Keys));
    FieldsAfter(state.fields, used, assignments, env);
    UsedRoots(state.fields, ts, mappings, env, ObjectField(state.fields, PROJECTS).value);
    RootIsRecorded(state.fields, used, assignments, env, roots[a.identity], a);
    ThreadIsRecorded(state.fields, used, assignments, env, a);
  }

  ghost predicate ThreadRecorded(fields: map<string, Value>, a: Assigned) {
    && ObjectField(fields, ASSIGNMENTS).Ok? && Holds(ObjectField(fields, ASSIGNMENTS).value, a)
    && (PROJECTLESS in fields && fields[PROJECTLESS].Array? ==> String(a.threadId) !in fields[PROJECTLESS].items)
  }

  lemma ThreadIsRecorded(fields: map<string, Value>, used: seq<Root>, assignments: seq<Assigned>, env: Env, a: Assigned)
    requires ApplyAssignments(fields, used, assignments, env).Ok?
    requires a in assignments && Holds(Latest(assignments), a)
    ensures var after := ApplyAssignments(fields, used, assignments, env).value.value;
      after.Object? && ThreadRecorded(after.fields, a)
  {
    FieldsAfter(fields, used, assignments, env);
    ProjectlessAfter(fields, used, assignments, env);
    AssignIsLatest(ObjectField(fields, ASSIGNMENTS).value, assignments);
    if PROJECTLESS in fields && fields[PROJECTLESS].Array? {
      UnassignedMeans(fields[PROJECTLESS].items, assignments, String(a.threadId));
    }
  }

  ghost predicate RootRecorded(fields: map<string, Value>, a: Assigned) {
    && ObjectField(fields, PROJECTS).Ok? && a.projectId in ObjectField(fields, PROJECTS).value
    && HasRoot(ObjectField(fields, PROJECTS).value[a.projectId], a.identity)
    && ArrayField(fields, ORDER).Ok? && String(a.projectId) in ArrayField(fields, ORDER).value
    && ArrayField(fields, SAVED).Ok?
    && exists v :: v in ArrayField(fields, SAVED).value && v.String? && Identity(v.text) == a.identity
  }

  lemma RootIsRecorded(fields: map<string, Value>, used: seq<Root>, assignments: seq<Assigned>, env: Env, r: Root,
                       a: Assigned)
    requires ApplyAssignments(fields, used, assignments, env).Ok?
    requires r in used && r.projectId == a.projectId && r.identity == a.identity && forall q :: q in used ==> Spelled(q)
    ensures var after := ApplyAssignments(fields, used, assignments, env).value.value;
      after.Object? && RootRecorded(after.fields, a)
  {
    FieldsAfter(fields, used, assignments, env);
    UsedRootsAreRegistered(ObjectField(fields, PROJECTS).value, used, env, r);
    OrderPushed(ArrayField(fields, ORDER).value, used);
    RootsSaved(ArrayField(fields, SAVED).value, used);
    assert Saved(PushSaved(ArrayField(fields, SAVED).value, used).value, r);
  }

  lemma LatestIsTheOnlyOne(ts: seq<ThreadBundle>, mappings: seq<string>, fields: map<string, Value>, env: Env, i: nat)
    requires i < |ts| && Place(ts[i]).Some? && forall j :: !TwoHomes(ts, i, j)
    ensures var roots := RootsIn(fields, ts, mappings, env);
      var a := AssignmentFor(roots, ts[i]);
      a.Some? && a.value in AssignmentsFor(roots, ts) && Holds(Latest(AssignmentsFor(roots, ts)), a.value)
  {
    var roots := RootsIn(fields, ts, mappings, env);
    AssignedIffPlaced(ts, mappings, fields, env, i);
    var a := AssignmentFor(roots, ts[i]).value;
    AssignmentsMean(roots, ts, a);
    forall b | b in AssignmentsFor(roots, ts) && b.threadId == a.threadId
      ensures AssignmentValue(b) == AssignmentValue(a)
    {
      SameIdSameValue(ts, mappings, fields, env, i, b);
    }
    LatestHolds(AssignmentsFor(roots, ts));
  }

  lemma SameIdSameValue(ts: seq<ThreadBundle>, mappings: seq<string>, fields: map<string, Value>, env: Env, i: nat,
                        b: Assigned)
    requires i < |ts| && Place(ts[i]).Some? && forall j :: !TwoHomes(ts, i, j)
    requires b in AssignmentsFor(RootsIn(fields, ts, mappings, env), ts) && b.threadId == ts[i].threadId
    ensures var a := AssignmentFor(RootsIn(fields, ts, mappings, env), ts[i]);
      a.Some? && AssignmentValue(b) == AssignmentValue(a.value)
  {
    var roots := RootsIn(fields, ts, mappings, env);
    AssignmentsMean(roots, ts, b);
    var j :| 0 <= j < |ts| && AssignmentFor(roots, ts[j]) == Some(b);
    AssignedIffPlaced(ts, mappings, fields, env, i);
    AssignedIffPlaced(ts, mappings, fields, env, j);
    assert !TwoHomes(ts, i, j);
    SameSpellingSameProject(roots, ts[i], ts[j]);
  }
}
