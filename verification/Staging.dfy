/** Staging: the plan of local changes, and a selection of them composed onto a complete remote tree. */
module Staging {
  import opened Basics
  import opened KeyedLists
  import opened Order
  import opened Threads
  import opened ThreadSets
  import opened Merge

  datatype ChangeKind = Added | Modified | ArchiveChanged | Deleted | Unchanged

  datatype Candidate = Candidate(
    threadId: string, kind: ChangeKind, archived: Option<bool>,
    local: Option<ThreadBundle>, baseline: Option<ThreadBundle>,
    localFingerprint: Option<ThreadBundle>, baselineFingerprint: Option<ThreadBundle>)

  datatype Plan = Plan(baseRevisionId: Option<string>, candidates: seq<Candidate>)

  datatype StagedSet = StagedSet(baseRevisionId: Option<string>, selected: set<string>)

  datatype ThreadRef = ThreadRef(threadId: string, descriptorSha256: string)

  datatype Error =
    | EmptyThreadId
    | DuplicateThread
    | OtherBaseline
    | NotInPlan
    | NotChanged
    | LocalThreadMissing
    | DescriptorForDeleted
    | DescriptorMissing

  // ---------- ids that are empty after trimming ----------

  /** The length of the UTF-8 encoding of the Unicode white space that `s` starts with, or 0. */
  function SpaceWidth(s: string): (n: nat)
    ensures n <= |s|
  {
    if |s| >= 1 && ('\t' <= s[0] <= '\r' || s[0] == ' ') then 1
    else if |s| >= 2 && s[0] == '\U{C2}' && s[1] in {'\U{85}', '\U{A0}'} then 2
    else if |s| >= 3 && s[0] == '\U{E1}' && s[1] == '\U{9A}' && s[2] == '\U{80}' then 3
    else if |s| >= 3 && s[0] == '\U{E2}' && s[1] == '\U{80}'
            && ('\U{80}' <= s[2] <= '\U{8A}' || s[2] in {'\U{A8}', '\U{A9}', '\U{AF}'}) then 3
    else if |s| >= 3 && s[0] == '\U{E2}' && s[1] == '\U{81}' && s[2] == '\U{9F}' then 3
    else if |s| >= 3 && s[0] == '\U{E3}' && s[1] == '\U{80}' && s[2] == '\U{80}' then 3
    else 0
  }

  /** `s.trim().is_empty()`. */
  predicate Blank(s: string)
    decreases |s|
  {
    s == [] || (SpaceWidth(s) > 0 && Blank(s[SpaceWidth(s)..]))
  }

  predicate Readable(threads: seq<ThreadBundle>) {
    DistinctIds(threads) && forall t :: t in threads ==> !Blank(t.threadId)
  }

  // ---------- the plan ----------

  function Fingerprint(t: Option<ThreadBundle>): Option<ThreadBundle> {
    if t.None? then None else Some(SemanticHash(t.value))
  }

  function ArchiveIndependentFingerprint(t: ThreadBundle): ThreadBundle {
    SemanticHash(t.(archived := false))
  }

  function CandidateFor(id: string, base: Option<ThreadBundle>, local: Option<ThreadBundle>): Candidate
    requires base.Some? || local.Some?
  {
    var kind :=
      if base.None? then Added
      else if local.None? then Deleted
      else if Fingerprint(local) == Fingerprint(base) then Unchanged
      else if ArchiveIndependentFingerprint(base.value)
          == ArchiveIndependentFingerprint(local.value) then ArchiveChanged
      else Modified;
    Candidate(id, kind, if kind.ArchiveChanged? then Some(local.value.archived) else None,
              local, base, Fingerprint(local), Fingerprint(base))
  }

  ghost function CandidateMap(base: map<string, ThreadBundle>, local: map<string, ThreadBundle>)
      : map<string, Candidate>
  {
    map id | id in base.Keys + local.Keys :: CandidateFor(id, Lookup(base, id), Lookup(local, id))
  }

  ghost function PlanOf(revision: Option<string>, base: map<string, ThreadBundle>,
                        local: map<string, ThreadBundle>): Plan {
    Plan(revision, Values(CandidateMap(base, local)))
  }

  /** `plan.candidate(id)`: the first candidate with that id. */
  function Find(candidates: seq<Candidate>, id: string): Option<Candidate> {
    if candidates == [] then None
    else if candidates[0].threadId == id then Some(candidates[0])
    else Find(candidates[1..], id)
  }

  /** Staging's `thread_map`, which also refuses an id that is empty after trimming. */
  method ReadThreads(threads: seq<ThreadBundle>) returns (m: Result<map<string, ThreadBundle>, Error>)
    ensures m.Ok? <==> Readable(threads)
    ensures m.Ok? ==> m.value == ById(threads) && Keyed(m.value)
  {
    var result: map<string, ThreadBundle> := map[];
    var i := 0;
    while i < |threads|
      invariant 0 <= i <= |threads|
      invariant DistinctIds(threads[..i]) && result == ById(threads[..i])
      invariant forall j :: 0 <= j < i ==> !Blank(threads[j].threadId)
    {
      if Blank(threads[i].threadId) {
        assert threads[i] in threads;
        return Err(EmptyThreadId);
      }
      DistinctGrows(threads, i, ThreadId);
      if threads[i].threadId in result {
        return Err(DuplicateThread);
      }
      result := result[threads[i].threadId := threads[i]];
      i := i + 1;
    }
    assert threads[..i] == threads;
    ByIdHoldsExactly(threads);
    return Ok(result);
  }

  method BuildChangePlan(revision: Option<string>, baseline: seq<ThreadBundle>, workspace: seq<ThreadBundle>)
      returns (plan: Result<Plan, Error>)
    ensures plan.Ok? <==>
      && DistinctIds(baseline) && DistinctIds(workspace)
      && (forall t :: t in baseline ==> !Blank(t.threadId)) && (forall t :: t in workspace ==> !Blank(t.threadId))
    ensures plan.Ok? ==> plan.value == PlanOf(revision, ById(baseline), ById(workspace))
  {
    var b := ReadThreads(baseline);
    if b.Err? {
      return Err(b.error);
    }
    var w := ReadThreads(workspace);
    if w.Err? {
      return Err(w.error);
    }
    var base, local := b.value, w.value;
    var ids := InOrder(base.Keys + local.Keys);
    ghost var planned := CandidateMap(base, local);
    var candidates: seq<Candidate> := [];
    var i := 0;
    while i < |ids|
      invariant 0 <= i <= |ids|
      invariant candidates == Collect(planned, ids[..i])
    {
      var id := ids[i];
      assert id in ids;
      CollectStep(planned, ids, i);
      candidates := candidates + [CandidateFor(id, Lookup(base, id), Lookup(local, id))];
      i := i + 1;
    }
    assert ids[..i] == ids;
    CollectInOrder(planned, base.Keys + local.Keys);
    return Ok(Plan(revision, candidates));
  }

  predicate Selectable(plan: Plan, id: string) {
    Find(plan.candidates, id).Some? && !Find(plan.candidates, id).value.kind.Unchanged?
  }

  /** `StagedChangeSet::from_selected`. */
  method FromSelected(plan: Plan, ids: seq<string>) returns (staged: Result<StagedSet, Error>)
    ensures staged.Ok? <==> forall id :: id in ids ==> Selectable(plan, id)
    ensures staged.Ok? ==> staged.value == StagedSet(plan.baseRevisionId, Elements(ids))
  {
    var ordered := InOrder(Elements(ids));
    var i := 0;
    while i < |ordered|
      invariant 0 <= i <= |ordered|
      invariant forall j :: 0 <= j < i ==> Selectable(plan, ordered[j])
    {
      assert ordered[i] in ordered;
      var candidate := Find(plan.candidates, ordered[i]);
      if candidate.None? {
        return Err(NotInPlan);
      }
      if candidate.value.kind.Unchanged? {
        return Err(NotChanged);
      }
      i := i + 1;
    }
    assert forall id :: id in ids ==> id in ordered;
    return Ok(StagedSet(plan.baseRevisionId, Elements(ids)));
  }

  // ---------- composition ----------

  /** `m` with each key of `changes` set to its value there or removed. */
  ghost function Overlay<T>(m: map<string, T>, changes: map<string, Option<T>>): map<string, T> {
    map id | id in m.Keys + changes.Keys && (id in changes ==> changes[id].Some?) ::
      if id in changes then changes[id].value else m[id]
  }

  /** What a staged id becomes: gone if the thread was deleted, the local bundle otherwise. */
  function StagedTo(plan: Plan, id: string): Option<ThreadBundle> {
    var c := Find(plan.candidates, id);
    if c.Some? && !c.value.kind.Deleted? then c.value.local else None
  }

  predicate Stageable(plan: Plan, id: string) {
    && Selectable(plan, id)
    && (Find(plan.candidates, id).value.kind.Deleted? || Find(plan.candidates, id).value.local.Some?)
  }

  /** What composing one staged thread does: refuse, put its local bundle, or (`None`) remove it. */
  function StagedEffect(plan: Plan, id: string): (effect: Result<Option<ThreadBundle>, Error>)
    ensures effect.Ok? <==> Stageable(plan, id)
    ensures effect.Ok? ==> effect.value == StagedTo(plan, id)
  {
    match Find(plan.candidates, id)
    case None => Err(NotInPlan)
    case Some(candidate) =>
      match candidate.kind
      case Deleted => Ok(None)
      case Unchanged => Err(NotChanged)
      case _ => if candidate.local.None? then Err(LocalThreadMissing) else Ok(candidate.local)
  }

  function ThreadChanges(plan: Plan, ids: set<string>): map<string, Option<ThreadBundle>> {
    map id | id in ids :: StagedTo(plan, id)
  }

  ghost function Composed(remote: map<string, ThreadBundle>, plan: Plan, ids: set<string>): map<string, ThreadBundle> {
    Overlay(remote, ThreadChanges(plan, ids))
  }

  lemma OverlayOne<T>(m: map<string, T>, changes: map<string, Option<T>>, id: string, to: Option<T>)
    ensures Overlay(m, changes[id := to]) ==
      if to.Some? then Overlay(m, changes)[id := to.value] else Overlay(m, changes) - {id}
  {
  }

  lemma ThreadChangesOne(plan: Plan, ids: seq<string>, i: nat)
    requires i < |ids|
    ensures ThreadChanges(plan, Elements(ids[..i + 1]))
            == ThreadChanges(plan, Elements(ids[..i]))[ids[i] := StagedTo(plan, ids[i])]
  {
  }

  method ComposeStagedThreadSet(remote: seq<ThreadBundle>, plan: Plan, staged: StagedSet)
      returns (result: Result<seq<ThreadBundle>, Error>)
    ensures result.Ok? <==>
      && staged.baseRevisionId == plan.baseRevisionId
      && DistinctIds(remote) && (forall t :: t in remote ==> !Blank(t.threadId))
      && forall id :: id in staged.selected ==> Stageable(plan, id)
    ensures result.Ok? ==> result.value == Values(Composed(ById(remote), plan, staged.selected))
  {
    if staged.baseRevisionId != plan.baseRevisionId {
      return Err(OtherBaseline);
    }
    var read := ReadThreads(remote);
    if read.Err? {
      return Err(read.error);
    }
    var tree := ApplyThreads(read.value, plan, staged.selected);
    if tree.Err? {
      return Err(tree.error);
    }
    var values := ListValues(tree.value);
    return Ok(values);
  }

  /** The loop over the selected ids, in order. */
  method ApplyThreads(remote: map<string, ThreadBundle>, plan: Plan, selected: set<string>)
      returns (result: Result<map<string, ThreadBundle>, Error>)
    ensures result.Ok? <==> forall id :: id in selected ==> Stageable(plan, id)
    ensures result.Ok? ==> result.value == Composed(remote, plan, selected)
  {
    var tree := remote;
    var ids := InOrder(selected);
    ThreadsStart(remote, plan, ids);
    var i := 0;
    while i < |ids|
      invariant 0 <= i <= |ids|
      invariant ThreadsApplied(remote, plan, ids, tree, i)
    {
      var id := ids[i];
      assert id in ids;
      ThreadsStep(remote, plan, ids, tree, i);
      var effect := StagedEffect(plan, id);
      if effect.Err? {
        return Err(effect.error);
      }
      tree := if effect.value.Some? then tree[id := effect.value.value] else tree - {id};
      i := i + 1;
    }
    ThreadsDone(remote, plan, ids, tree);
    assert Elements(ids) == selected;
    return Ok(tree);
  }

  ghost predicate ThreadsApplied(remote: map<string, ThreadBundle>, plan: Plan, ids: seq<string>,
                                 tree: map<string, ThreadBundle>, i: nat) {
    && i <= |ids|
    && (forall j :: 0 <= j < i ==> Stageable(plan, ids[j]))
    && tree == Composed(remote, plan, Elements(ids[..i]))
  }

  lemma ThreadsStart(remote: map<string, ThreadBundle>, plan: Plan, ids: seq<string>)
    ensures ThreadsApplied(remote, plan, ids, remote, 0)
  {
  }

  lemma ThreadsStep(remote: map<string, ThreadBundle>, plan: Plan, ids: seq<string>, tree: map<string, ThreadBundle>,
                    i: nat)
    requires ThreadsApplied(remote, plan, ids, tree, i) && i < |ids|
    ensures Stageable(plan, ids[i]) ==>
      ThreadsApplied(remote, plan, ids,
                     if StagedTo(plan, ids[i]).Some? then tree[ids[i] := StagedTo(plan,
                         ids[i]).value] else tree - {ids[i]},
                     i + 1)
  {
    ThreadChangesOne(plan, ids, i);
    OverlayOne(remote, ThreadChanges(plan, Elements(ids[..i])), ids[i], StagedTo(plan, ids[i]));
  }

  lemma ThreadsDone(remote: map<string, ThreadBundle>, plan: Plan, ids: seq<string>, tree: map<string, ThreadBundle>)
    requires ThreadsApplied(remote, plan, ids, tree, |ids|)
    ensures forall id :: id in Elements(ids) ==> Stageable(plan, id)
    ensures tree == Composed(remote, plan, Elements(ids))
  {
  }

  /** `result.into_values().collect()`. */
  method ListValues<T>(m: map<string, T>) returns (r: seq<T>)
    ensures r == Values(m)
  {
    var ids := InOrder(m.Keys);
    r := [];
    var i := 0;
    while i < |ids|
      invariant 0 <= i <= |ids| && r == Values(m)[..i]
    {
      assert ids[i] in ids;
      r := r + [m[ids[i]]];
      i := i + 1;
    }
  }

  // ---------- the lightweight composition over references ----------

  function RefId(r: ThreadRef): string {
    r.threadId
  }

  predicate DistinctRefs(refs: seq<ThreadRef>) {
    DistinctKeys(refs, RefId)
  }

  /** The references by id; a later one replaces an earlier one. */
  function RefsById(refs: seq<ThreadRef>): map<string, ThreadRef> {
    ByKey(refs, RefId)
  }

  predicate RefStageable(plan: Plan, refs: map<string, ThreadRef>, id: string) {
    && Selectable(plan, id)
    && (Find(plan.candidates, id).value.kind.Deleted? <==> id !in refs)
  }

  /** The same for the reference of a staged thread. */
  function RefEffect(plan: Plan, refs: map<string, ThreadRef>, id: string): (effect: Result<Option<ThreadRef>, Error>)
    ensures effect.Ok? <==> RefStageable(plan, refs, id)
    ensures effect.Ok? ==> effect.value == Lookup(refs, id)
  {
    match Find(plan.candidates, id)
    case None => Err(NotInPlan)
    case Some(candidate) =>
      match candidate.kind
      case Deleted => if id in refs then Err(DescriptorForDeleted) else Ok(None)
      case Unchanged => Err(NotChanged)
      case _ => if id in refs then Ok(Some(refs[id])) else Err(DescriptorMissing)
  }

  function RefChanges(refs: map<string, ThreadRef>, ids: set<string>): map<string, Option<ThreadRef>> {
    map id | id in ids :: Lookup(refs, id)
  }

  method ReadRefs(refs: seq<ThreadRef>) returns (m: Option<map<string, ThreadRef>>)
    ensures m.Some? <==> DistinctRefs(refs)
    ensures m.Some? ==> m.value == RefsById(refs)
  {
    var result: map<string, ThreadRef> := map[];
    var i := 0;
    while i < |refs|
      invariant 0 <= i <= |refs|
      invariant DistinctRefs(refs[..i]) && result == RefsById(refs[..i])
    {
      DistinctGrows(refs, i, RefId);
      if refs[i].threadId in result {
        return None;
      }
      result := result[refs[i].threadId := refs[i]];
      i := i + 1;
    }
    assert refs[..i] == refs;
    return Some(result);
  }

  method ComposeStagedThreadRefs(remote: seq<ThreadRef>, plan: Plan, staged: StagedSet, selectedRefs: seq<ThreadRef>)
      returns (result: Result<seq<ThreadRef>, Error>)
    ensures result.Ok? <==>
      && staged.baseRevisionId == plan.baseRevisionId
      && DistinctRefs(remote)
      && forall id :: id in staged.selected ==> RefStageable(plan, RefsById(selectedRefs), id)
    ensures result.Ok? ==>
      result.value == Values(Overlay(RefsById(remote), RefChanges(RefsById(selectedRefs), staged.selected)))
  {
    if staged.baseRevisionId != plan.baseRevisionId {
      return Err(OtherBaseline);
    }
    var read := ReadRefs(remote);
    if read.None? {
      return Err(DuplicateThread);
    }
    var tree := ApplyRefs(read.value, plan, staged.selected, RefsById(selectedRefs));
    if tree.Err? {
      return Err(tree.error);
    }
    var values := ListValues(tree.value);
    return Ok(values);
  }

  /** The loop over the selected ids, in order. */
  method ApplyRefs(remote: map<string, ThreadRef>, plan: Plan, selected: set<string>, refs: map<string, ThreadRef>)
      returns (result: Result<map<string, ThreadRef>, Error>)
    ensures result.Ok? <==> forall id :: id in selected ==> RefStageable(plan, refs, id)
    ensures result.Ok? ==> result.value == Overlay(remote, RefChanges(refs, selected))
  {
    var tree := remote;
    var ids := InOrder(selected);
    RefsStart(remote, plan, refs, ids);
    var i := 0;
    while i < |ids|
      invariant 0 <= i <= |ids|
      invariant RefsApplied(remote, plan, refs, ids, tree, i)
    {
      var id := ids[i];
      assert id in ids;
      RefsStep(remote, plan, refs, ids, tree, i);
      var effect := RefEffect(plan, refs, id);
      if effect.Err? {
        return Err(effect.error);
      }
      tree := if effect.value.Some? then tree[id := effect.value.value] else tree - {id};
      i := i + 1;
    }
    RefsDone(remote, plan, refs, ids, tree);
    assert Elements(ids) == selected;
    return Ok(tree);
  }

  ghost predicate RefsApplied(remote: map<string, ThreadRef>, plan: Plan, refs: map<string, ThreadRef>,
                              ids: seq<string>,
                              tree: map<string, ThreadRef>, i: nat) {
    && i <= |ids|
    && (forall j :: 0 <= j < i ==> RefStageable(plan, refs, ids[j]))
    && tree == Overlay(remote, RefChanges(refs, Elements(ids[..i])))
  }

  lemma RefsStart(remote: map<string, ThreadRef>, plan: Plan, refs: map<string, ThreadRef>, ids: seq<string>)
    ensures RefsApplied(remote, plan, refs, ids, remote, 0)
  {
  }

  lemma RefsStep(remote: map<string, ThreadRef>, plan: Plan, refs: map<string, ThreadRef>, ids: seq<string>,
                 tree: map<string, ThreadRef>, i: nat)
    requires RefsApplied(remote, plan, refs, ids, tree, i) && i < |ids|
    ensures RefStageable(plan, refs, ids[i]) ==>
      RefsApplied(remote, plan, refs, ids, if ids[i] in refs then tree[ids[i] := refs[ids[i]]] else tree - {ids[i]},
          i + 1)
  {
    RefChangesOne(refs, ids, i);
    OverlayOne(remote, RefChanges(refs, Elements(ids[..i])), ids[i], Lookup(refs, ids[i]));
  }

  lemma RefsDone(remote: map<string, ThreadRef>, plan: Plan, refs: map<string, ThreadRef>, ids: seq<string>,
                 tree: map<string, ThreadRef>)
    requires RefsApplied(remote, plan, refs, ids, tree, |ids|)
    ensures forall id :: id in Elements(ids) ==> RefStageable(plan, refs, id)
    ensures tree == Overlay(remote, RefChanges(refs, Elements(ids)))
  {
  }

  lemma RefChangesOne(refs: map<string, ThreadRef>, ids: seq<string>, i: nat)
    requires i < |ids|
    ensures RefChanges(refs, Elements(ids[..i + 1]))
            == RefChanges(refs, Elements(ids[..i]))[ids[i] := Lookup(refs, ids[i])]
  {
  }
}
