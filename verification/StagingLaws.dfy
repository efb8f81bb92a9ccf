/** What staging guarantees, and that staging everything is resolving every conflict in favour of the local side. */
module StagingLaws {
  import opened Basics
  import opened Order
  import opened Threads
  import opened ThreadSets
  import opened Merge
  import opened Resolve
  import opened Staging

  /** The threads whose view differs between baseline and workspace. */
  ghost function ChangedIds(base: map<string, ThreadBundle>, local: map<string, ThreadBundle>): set<string> {
    set id | id in base.Keys + local.Keys && View(Lookup(base, id)) != View(Lookup(local, id))
  }

  lemma OverlayAt<T>(m: map<string, T>, changes: map<string, Option<T>>, id: string)
    ensures Lookup(Overlay(m, changes), id) == if id in changes then changes[id] else Lookup(m, id)
  {
  }

  lemma {:induction false} FindIsFirst(candidates: seq<Candidate>, k: nat)
    requires k < |candidates|
    requires forall j :: 0 <= j < k ==> candidates[j].threadId != candidates[k].threadId
    ensures Find(candidates, candidates[k].threadId) == Some(candidates[k])
  {
    if k > 0 {
      assert candidates[0].threadId != candidates[k].threadId;
      FindIsFirst(candidates[1..], k - 1);
    }
  }

  lemma {:induction false} FindNothing(candidates: seq<Candidate>, id: string)
    requires forall j :: 0 <= j < |candidates| ==> candidates[j].threadId != id
    ensures Find(candidates, id) == None
  {
    if candidates != [] {
      assert candidates[0].threadId != id;
      FindNothing(candidates[1..], id);
    }
  }

  /** Looking a thread up in a plan that was built finds what was computed for that thread. */
  lemma FindInPlan(revision: Option<string>, base: map<string, ThreadBundle>, local: map<string, ThreadBundle>,
                   id: string)
    ensures Find(PlanOf(revision, base, local).candidates, id) == Lookup(CandidateMap(base, local), id)
  {
    var m := CandidateMap(base, local);
    var ids, cs := InOrder(m.Keys), Values(m);
    forall i | 0 <= i < |cs| ensures cs[i].threadId == ids[i] {
      assert cs[i] == m[ids[i]];
    }
    if id in m {
      assert id in ids;
      var k :| 0 <= k < |ids| && ids[k] == id;
      forall j | 0 <= j < k ensures cs[j].threadId != cs[k].threadId {
        LessIrreflexive(ids[j]);
      }
      FindIsFirst(cs, k);
    } else {
      forall j | 0 <= j < |cs| ensures cs[j].threadId != id {
        assert ids[j] in ids;
      }
      FindNothing(cs, id);
    }
  }

  lemma CandidateMeans(id: string, base: Option<ThreadBundle>, local: Option<ThreadBundle>)
    requires base.Some? || local.Some?
    ensures var c := CandidateFor(id, base, local);
      && (c.kind.Unchanged? <==> View(base) == View(local))
      && (c.kind.Deleted? <==> local.None?)
      && c.local == local
  {
  }

  /** A plan offers exactly the threads whose view changed, and stages each to what the workspace has. */
  lemma PlanOffersChanges(revision: Option<string>, base: map<string, ThreadBundle>, local: map<string, ThreadBundle>,
                          id: string)
    ensures var plan := PlanOf(revision, base, local);
      && (Selectable(plan, id) <==> id in ChangedIds(base, local))
      && (Stageable(plan, id) <==> Selectable(plan, id))
      && (Selectable(plan, id) ==> StagedTo(plan, id) == Lookup(local, id))
  {
    FindInPlan(revision, base, local, id);
    if id in base.Keys + local.Keys {
      CandidateMeans(id, Lookup(base, id), Lookup(local, id));
    }
  }

  /** An archive change is a change of the archive flag and of nothing else. */
  lemma ArchiveChangeMeans(revision: Option<string>, base: map<string, ThreadBundle>,
                           local: map<string, ThreadBundle>, id: string)
    requires id in base && id in local
    ensures var found := Find(PlanOf(revision, base, local).candidates, id);
      found.Some? &&
      (found.value.kind.ArchiveChanged? <==>
        && base[id].archived != local[id].archived
        && RemoteView(base[id]).(archived := local[id].archived) == RemoteView(local[id]))
  {
    FindInPlan(revision, base, local, id);
  }

  /** What a candidate shows of a thread: both bundles and their views, and the one kind of change that it is.  The
      archive flag is named for an archive change only. */
  ghost predicate ShowsChange(c: Candidate, id: string, base: Option<ThreadBundle>, local: Option<ThreadBundle>) {
    && c.threadId == id && c.local == local && c.baseline == base
    && c.localFingerprint == View(local) && c.baselineFingerprint == View(base)
    && (c.kind.Added? <==> base.None?)
    && (c.kind.Deleted? <==> local.None?)
    && (c.kind.Unchanged? <==> base.Some? && local.Some? && LookAlike(base.value, local.value))
    && (c.kind.ArchiveChanged? <==>
          && base.Some? && local.Some? && base.value.archived != local.value.archived
          && LookAlike(base.value.(archived := local.value.archived), local.value))
    && (c.archived == if c.kind.ArchiveChanged? && local.Some? then Some(local.value.archived) else None)
  }

  lemma CandidateShows(id: string, base: Option<ThreadBundle>, local: Option<ThreadBundle>)
    requires base.Some? || local.Some?
    ensures ShowsChange(CandidateFor(id, base, local), id, base, local)
  {
    if base.Some? && local.Some? {
      ViewShowsExactly(base.value, local.value);
      ViewShowsExactly(base.value.(archived := local.value.archived), local.value);
    }
  }

  /** A plan has a candidate for exactly the threads of the baseline and the workspace. */
  lemma PlanShows(revision: Option<string>, base: map<string, ThreadBundle>, local: map<string, ThreadBundle>,
                  id: string)
    ensures PlanOf(revision, base, local).baseRevisionId == revision
    ensures var found := Find(PlanOf(revision, base, local).candidates, id);
      && (found.Some? <==> id in base || id in local)
      && (found.Some? ==> ShowsChange(found.value, id, Lookup(base, id), Lookup(local, id)))
  {
    FindInPlan(revision, base, local, id);
    if id in base || id in local {
      CandidateShows(id, Lookup(base, id), Lookup(local, id));
    }
  }

  // ---------- algebra of selections ----------

  /** A selection changes no thread outside it. */
  lemma SelectionTouchesNothingElse(remote: map<string, ThreadBundle>, plan: Plan, ids: set<string>, id: string)
    requires id !in ids
    ensures Lookup(Composed(remote, plan, ids), id) == Lookup(remote, id)
  {
  }

  /** Composing one selection and then another is composing both at once, in either order. */
  lemma SelectionsAdd(remote: map<string, ThreadBundle>, plan: Plan, first: set<string>, second: set<string>)
    ensures Composed(Composed(remote, plan, first), plan, second) == Composed(remote, plan, first + second)
    ensures Composed(Composed(remote, plan, second), plan, first) == Composed(remote, plan, first + second)
  {
    OverlayTwice(remote, ThreadChanges(plan, first), ThreadChanges(plan, second));
    OverlayTwice(remote, ThreadChanges(plan, second), ThreadChanges(plan, first));
    assert ThreadChanges(plan, first) + ThreadChanges(plan, second) == ThreadChanges(plan, first + second);
    assert ThreadChanges(plan, second) + ThreadChanges(plan, first) == ThreadChanges(plan, first + second);
  }

  lemma OverlayTwice<T>(m: map<string, T>, first: map<string, Option<T>>, second: map<string, Option<T>>)
    ensures Overlay(Overlay(m, first), second) == Overlay(m, first + second)
  {
    forall id ensures Lookup(Overlay(Overlay(m, first), second), id) == Lookup(Overlay(m, first + second), id) {
    }
    SameLookups(Overlay(Overlay(m, first), second), Overlay(m, first + second));
  }

  /** All changes composed onto the baseline are the workspace. */
  lemma AllChangesGiveTheWorkspace(revision: Option<string>, base: map<string, ThreadBundle>,
                                   local: map<string, ThreadBundle>)
    ensures SameViews(Composed(base, PlanOf(revision, base, local), ChangedIds(base, local)), local)
  {
    var plan := PlanOf(revision, base, local);
    forall id ensures View(Lookup(Composed(base, plan, ChangedIds(base, local)), id)) == View(Lookup(local, id)) {
      PlanOffersChanges(revision, base, local, id);
      OverlayAt(base, ThreadChanges(plan, ChangedIds(base, local)), id);
    }
  }

  /** Once a selection is published and becomes the baseline, exactly the unselected changes remain to be staged. */
  lemma RestRemainsStaged(revision: Option<string>, base: map<string, ThreadBundle>, local: map<string, ThreadBundle>,
                          ids: set<string>)
    requires ids <= ChangedIds(base, local)
    ensures ChangedIds(Composed(base, PlanOf(revision, base, local), ids), local) == ChangedIds(base, local) - ids
  {
    var plan := PlanOf(revision, base, local);
    var published := Composed(base, plan, ids);
    forall id ensures id in ChangedIds(published, local) <==> id in ChangedIds(base, local) - ids {
      PlanOffersChanges(revision, base, local, id);
      OverlayAt(base, ThreadChanges(plan, ids), id);
      IsChanged(published, local, id);
      IsChanged(base, local, id);
    }
  }

  lemma IsChanged(base: map<string, ThreadBundle>, local: map<string, ThreadBundle>, id: string)
    ensures id in ChangedIds(base, local) <==> View(Lookup(base, id)) != View(Lookup(local, id))
  {
  }

  // ---------- agreement with the merge ----------

  /** Every conflict is resolved in favour of the local side. */
  ghost predicate AllLocal(s: Sides, selected: map<string, Resolution>) {
    forall id :: id in s.ConflictMap() ==> id in selected && selected[id].choice.Local?
  }

  /** Two independently written algorithms agree: staging every local change and composing it onto the remote is,
      thread by thread, the merge with every conflict resolved in favour of the local side. */
  lemma StagingEverythingIsLocalResolution(s: Sides, revision: Option<string>, selected: map<string, Resolution>)
    requires AllLocal(s, selected)
    ensures SameViews(Composed(s.remote, PlanOf(revision, s.base, s.local), ChangedIds(s.base, s.local)),
            Resolved(s, selected))
  {
    var plan, ids := PlanOf(revision, s.base, s.local), ChangedIds(s.base, s.local);
    forall id ensures View(Lookup(Composed(s.remote, plan, ids), id)) == View(Lookup(Resolved(s, selected), id)) {
      PlanOffersChanges(revision, s.base, s.local, id);
      OverlayAt(s.remote, ThreadChanges(plan, ids), id);
      IsChanged(s.base, s.local, id);
      LocalResolutionAt(s, selected, id);
    }
  }

  lemma LocalResolutionAt(s: Sides, selected: map<string, Resolution>, id: string)
    requires AllLocal(s, selected)
    ensures View(Lookup(Resolved(s, selected), id)) ==
      if View(Lookup(s.local, id))
          != View(Lookup(s.base, id)) then View(Lookup(s.local, id)) else View(Lookup(s.remote, id))
  {
    assert id in s.ConflictIds() <==> id in s.ConflictMap();
    ResolvedMeans(s, selected, id);
    ThreeWayRule(s, id);
  }

  /** The lists agree too: same length, same ids in the same order, same views, no id twice. */
  lemma AgreementOfLists(base: seq<ThreadBundle>, local: seq<ThreadBundle>, remote: seq<ThreadBundle>,
                         revision: Option<string>, rs: seq<Resolution>)
    requires DistinctIds(base) && DistinctIds(local) && DistinctIds(remote)
    requires var s := SidesOf(base, local, remote);
      Settles(s.ConflictMap(), rs) && forall r :: r in rs ==> r.choice.Local?
    ensures var s := SidesOf(base, local, remote);
      var staged := Values(Composed(s.remote, PlanOf(revision, s.base, s.local), ChangedIds(s.base, s.local)));
      var resolved := Values(Resolved(s, Answers(rs)));
      && |staged| == |resolved|
      && (forall i :: 0 <= i < |staged| ==> RemoteView(staged[i]) == RemoteView(resolved[i]))
      && SortedById(resolved) && DistinctIds(resolved)
  {
    var s := SidesOf(base, local, remote);
    ByIdHoldsExactly(base);
    ByIdHoldsExactly(local);
    ByIdHoldsExactly(remote);
    LocalAnswers(s.ConflictMap(), rs);
    StagingEverythingIsLocalResolution(s, revision, Answers(rs));
    SameViewsLineUp(Composed(s.remote, PlanOf(revision, s.base, s.local), ChangedIds(s.base, s.local)),
        Resolved(s, Answers(rs)));
    MergedAndChosen(s, Answers(rs));
    ValuesAreSorted(Resolved(s, Answers(rs)));
  }

  lemma LocalAnswers(cm: map<string, Conflict>, rs: seq<Resolution>)
    requires Settles(cm, rs) && forall r :: r in rs ==> r.choice.Local?
    ensures forall id :: id in cm ==> id in Answers(rs) && Answers(rs)[id].choice.Local?
  {
    SettlesIffMatched(cm, rs);
    AnswersHoldExactly(rs);
    forall id | id in cm ensures id in Answers(rs) && Answers(rs)[id].choice.Local? {
      assert MatchedAt(cm, Answers(rs), id);
      assert Answers(rs)[id] in rs;
    }
  }

  /** Without conflicts staging everything is therefore the merge. */
  lemma StagingEverythingIsTheMerge(s: Sides, revision: Option<string>)
    requires s.ConflictIds() == {}
    ensures SameViews(Composed(s.remote, PlanOf(revision, s.base, s.local), ChangedIds(s.base, s.local)), s.Merged())
  {
    var none: map<string, Resolution> := map[];
    assert forall id :: id in s.ConflictMap() ==> id in s.ConflictIds();
    StagingEverythingIsLocalResolution(s, revision, none);
    forall id ensures Lookup(Resolved(s, none), id) == Lookup(s.Merged(), id) {
      ResolvedMeans(s, none, id);
    }
    SameLookups(Resolved(s, none), s.Merged());
  }

  /** Staging part of the changes is the merge on that part and the remote, bundle for bundle, elsewhere. */
  lemma StagingPartIsMergingThatPart(s: Sides, revision: Option<string>, ids: set<string>, id: string)
    requires ids <= ChangedIds(s.base, s.local)
    ensures var composed := Composed(s.remote, PlanOf(revision, s.base, s.local), ids);
      && (id !in ids ==> Lookup(composed, id) == Lookup(s.remote, id))
      && (id in ids ==> Lookup(composed, id) == Lookup(s.local, id))
      && (id in ids && id !in s.ConflictIds() ==> View(Lookup(composed, id)) == View(Lookup(s.Merged(), id)))
  {
    PlanOffersChanges(revision, s.base, s.local, id);
    OverlayAt(s.remote, ThreadChanges(PlanOf(revision, s.base, s.local), ids), id);
    IsChanged(s.base, s.local, id);
    ThreeWayRule(s, id);
  }

  // ---------- references ----------

  /** A reference can be staged exactly if its thread has changed, and there is a descriptor for it exactly if the
      workspace still has the thread. */
  lemma RefsStageableExactly(revision: Option<string>, base: map<string, ThreadBundle>,
                             local: map<string, ThreadBundle>, refs: map<string, ThreadRef>, id: string)
    ensures RefStageable(PlanOf(revision, base, local), refs, id) <==>
      View(Lookup(base, id)) != View(Lookup(local, id)) && (id in refs <==> id in local)
  {
    PlanOffersChanges(revision, base, local, id);
    PlanShows(revision, base, local, id);
    IsChanged(base, local, id);
  }

  /** The references of a tree; `describe` stands for storing a bundle and naming its descriptor. */
  ghost function Described(m: map<string, ThreadBundle>, describe: ThreadBundle -> ThreadRef): map<string, ThreadRef> {
    map id | id in m :: describe(m[id])
  }

  /** Descriptors for exactly the selected threads that are not deleted. */
  ghost predicate DescribesSelection(plan: Plan, ids: set<string>, refs: map<string, ThreadRef>,
                                     describe: ThreadBundle -> ThreadRef) {
    forall id :: id in ids
        ==> Lookup(refs, id) == if StagedTo(plan, id).Some? then Some(describe(StagedTo(plan, id).value)) else None
  }

  /** The composition over references accepts what the full composition accepts and gives its projection. */
  lemma RefsFollowThreads(remote: map<string, ThreadBundle>, plan: Plan, ids: set<string>,
                          refs: map<string, ThreadRef>, describe: ThreadBundle -> ThreadRef)
    requires forall id :: id in ids ==> Stageable(plan, id)
    requires DescribesSelection(plan, ids, refs, describe)
    ensures forall id :: id in ids ==> RefStageable(plan, refs, id)
    ensures Overlay(Described(remote, describe), RefChanges(refs, ids))
            == Described(Composed(remote, plan, ids), describe)
  {
    forall id | id in ids ensures RefStageable(plan, refs, id) {
      assert Stageable(plan, id);
    }
    var left, right := Overlay(Described(remote, describe), RefChanges(refs, ids)),
        Described(Composed(remote, plan, ids), describe);
    forall id ensures Lookup(left, id) == Lookup(right, id) {
      OverlayAt(Described(remote, describe), RefChanges(refs, ids), id);
      OverlayAt(remote, ThreadChanges(plan, ids), id);
    }
    SameLookups(left, right);
  }

  /** In the lists, each reference stands where its thread stands. */
  lemma RefsLineUp(m: map<string, ThreadBundle>, describe: ThreadBundle -> ThreadRef)
    ensures |Values(Described(m, describe))| == |Values(m)|
    ensures forall i :: 0 <= i < |Values(m)| ==> Values(Described(m, describe))[i] == describe(Values(m)[i])
  {
    assert Described(m, describe).Keys == m.Keys;
  }

  /** The references of a list of threads, one for one. */
  ghost predicate Describes(refs: seq<ThreadRef>, threads: seq<ThreadBundle>, describe: ThreadBundle -> ThreadRef) {
    && |refs| == |threads|
    && forall i :: 0 <= i < |threads| ==> refs[i] == describe(threads[i]) && refs[i].threadId == threads[i].threadId
  }

  lemma {:induction false} DescribedById(refs: seq<ThreadRef>, threads: seq<ThreadBundle>,
                                         describe: ThreadBundle -> ThreadRef)
    requires Describes(refs, threads, describe)
    ensures RefsById(refs) == Described(ById(threads), describe)
  {
    if threads != [] {
      DescribedById(refs[..|refs| - 1], threads[..|threads| - 1], describe);
    }
  }

  lemma DescribedDistinct(refs: seq<ThreadRef>, threads: seq<ThreadBundle>, describe: ThreadBundle -> ThreadRef)
    requires Describes(refs, threads, describe) && DistinctIds(threads)
    ensures DistinctRefs(refs)
  {
    forall i, j | 0 <= i < j < |refs| ensures refs[i].threadId != refs[j].threadId {
      assert threads[i].threadId != threads[j].threadId;
    }
  }

  /** On lists: where the full composition is accepted, the composition over the references of the same remote threads
      and of the selected ones is accepted, and returns the references of the composed threads, one for one. */
  lemma RefListsFollowThreadLists(remote: seq<ThreadBundle>, remoteRefs: seq<ThreadRef>, plan: Plan, ids: set<string>,
                                  selectedRefs: seq<ThreadRef>, describe: ThreadBundle -> ThreadRef)
    requires Readable(remote) && Describes(remoteRefs, remote, describe)
    requires forall id :: id in ids ==> Stageable(plan, id)
    requires DescribesSelection(plan, ids, RefsById(selectedRefs), describe)
    ensures DistinctRefs(remoteRefs)
    ensures forall id :: id in ids ==> RefStageable(plan, RefsById(selectedRefs), id)
    ensures var threads := Values(Composed(ById(remote), plan, ids));
      var refs := Values(Overlay(RefsById(remoteRefs), RefChanges(RefsById(selectedRefs), ids)));
      |refs| == |threads| && forall i :: 0 <= i < |threads| ==> refs[i] == describe(threads[i])
  {
    DescribedDistinct(remoteRefs, remote, describe);
    DescribedById(remoteRefs, remote, describe);
    RefsFollowThreads(ById(remote), plan, ids, RefsById(selectedRefs), describe);
    RefsLineUp(Composed(ById(remote), plan, ids), describe);
  }
}
