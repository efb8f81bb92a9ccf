/** The three-way merge of thread sets: what it takes, what it calls a conflict, and the laws it obeys. */
module Merge {
  import opened Basics
  import opened KeyedLists
  import opened Order
  import opened Threads
  import opened ThreadSets

  datatype Kind = BothModified | LocalDeletedRemoteModified | RemoteDeletedLocalModified

  datatype Version = Version(
    title: string, archived: bool, updatedAtMs: Option<int>, modelProvider: Option<string>,
    workspaceSourcePath: Option<string>, semanticHash: ThreadBundle)

  /** `conflict_fingerprint`: the digest of this tuple stands for the tuple. */
  datatype Fingerprint = Fingerprint(
    threadId: string, kind: Kind,
    base: Option<ThreadBundle>, local: Option<ThreadBundle>, remote: Option<ThreadBundle>)

  datatype Conflict = Conflict(
    conflictId: Fingerprint, threadId: string, title: string, kind: Kind,
    base: Option<Version>, local: Option<Version>, remote: Option<Version>)

  datatype Decision = Take(thread: Option<ThreadBundle>) | Clash(kind: Kind)

  datatype Outcome = Outcome(threads: seq<ThreadBundle>, conflicts: seq<Conflict>)

  predicate SemanticOptionEq(left: Option<ThreadBundle>, right: Option<ThreadBundle>) {
    match (left, right)
    case (None, None) => true
    case (Some(l), Some(r)) => SemanticHash(l) == SemanticHash(r)
    case _ => false
  }

  function Or<T>(first: Option<T>, second: Option<T>): Option<T> {
    if first.Some? then first else second
  }

  function ConflictVersion(t: Option<ThreadBundle>): Option<Version> {
    match t
    case None => None
    case Some(t) =>
      Some(Version(t.title, t.archived, t.updatedAtMs, t.modelProvider, t.workspace.sourcePath, SemanticHash(t)))
  }

  function HashOf(v: Option<Version>): Option<ThreadBundle> {
    if v.None? then None else Some(v.value.semanticHash)
  }

  datatype Sides = Sides(
    base: map<string, ThreadBundle>, local: map<string, ThreadBundle>, remote: map<string, ThreadBundle>)
  {
    function Ids(): set<string> {
      base.Keys + local.Keys + remote.Keys
    }

    ghost predicate Valid() {
      Keyed(base) && Keyed(local) && Keyed(remote)
    }

    function Decide(id: string): Decision {
      var b, l, r := Lookup(base, id), Lookup(local, id), Lookup(remote, id);
      var localChanged, remoteChanged := !SemanticOptionEq(l, b), !SemanticOptionEq(r, b);
      if !localChanged && !remoteChanged then Take(Or(l, r))
      else if !remoteChanged then Take(l)
      else if !localChanged then Take(r)
      else if SemanticOptionEq(l, r) then Take(l)
      else Clash(
        if l.None? && r.Some? then LocalDeletedRemoteModified
        else if l.Some? && r.None? then RemoteDeletedLocalModified
        else BothModified)
    }

    function ConflictAt(id: string): Conflict
      requires Decide(id).Clash?
    {
      var b, l, r := Lookup(base, id), Lookup(local, id), Lookup(remote, id);
      var kind, shown := Decide(id).kind, Or(Or(l, r), b);
      var bv, lv, rv := ConflictVersion(b), ConflictVersion(l), ConflictVersion(r);
      Conflict(Fingerprint(id, kind, HashOf(bv), HashOf(lv), HashOf(rv)),
               id, if shown.Some? then shown.value.title else id, kind, bv, lv, rv)
    }

    ghost function Merged(): map<string, ThreadBundle> {
      map id | id in Ids() && Decide(id).Take? && Decide(id).thread.Some? :: Decide(id).thread.value
    }

    function ConflictIds(): set<string> {
      set id | id in Ids() && Decide(id).Clash?
    }

    ghost function ConflictMap(): map<string, Conflict> {
      map id | id in ConflictIds() :: ConflictAt(id)
    }

    ghost function MergeOutcome(): Outcome {
      Outcome(Values(Merged()), Values(ConflictMap()))
    }

    function Swapped(): Sides {
      Sides(base, remote, local)
    }

    ghost predicate SameViewsAs(that: Sides) {
      SameViews(base, that.base) && SameViews(local, that.local) && SameViews(remote, that.remote)
    }
  }

  ghost function SidesOf(base: seq<ThreadBundle>, local: seq<ThreadBundle>, remote: seq<ThreadBundle>): Sides {
    Sides(ById(base), ById(local), ById(remote))
  }

  function Mirror(k: Kind): Kind {
    match k
    case BothModified => BothModified
    case LocalDeletedRemoteModified => RemoteDeletedLocalModified
    case RemoteDeletedLocalModified => LocalDeletedRemoteModified
  }

  // ---------- the merge as the program runs it ----------

  /** `thread_map`: refuses a list with a repeated id. */
  method ThreadMap(threads: seq<ThreadBundle>) returns (m: Option<map<string, ThreadBundle>>)
    ensures m.Some? <==> DistinctIds(threads)
    ensures m.Some? ==> m.value == ById(threads) && Keyed(m.value)
  {
    var result: map<string, ThreadBundle> := map[];
    var i := 0;
    while i < |threads|
      invariant 0 <= i <= |threads|
      invariant DistinctIds(threads[..i]) && result == ById(threads[..i])
    {
      DistinctGrows(threads, i, ThreadId);
      if threads[i].threadId in result {
        return None;
      }
      result := result[threads[i].threadId := threads[i]];
      i := i + 1;
    }
    assert threads[..i] == threads;
    ByIdHoldsExactly(threads);
    return Some(result);
  }

  method MergeThreadSets(base: seq<ThreadBundle>, local: seq<ThreadBundle>, remote: seq<ThreadBundle>)
      returns (outcome: Option<Outcome>)
    ensures outcome.Some? <==> DistinctIds(base) && DistinctIds(local) && DistinctIds(remote)
    ensures outcome.Some? ==> outcome.value == SidesOf(base, local, remote).MergeOutcome()
  {
    var b := ThreadMap(base);
    var l := ThreadMap(local);
    var r := ThreadMap(remote);
    if b.None? || l.None? || r.None? {
      return None;
    }
    var s := Sides(b.value, l.value, r.value);
    var threads, conflicts := MergeSides(s);
    MergedIsKeyed(s);
    ValuesAreSorted(s.Merged());
    ByIdOfValues(s.Merged());
    threads := SortThreads(threads);
    return Some(Outcome(threads, conflicts));
  }

  /** The loop over the ids, in order. */
  method MergeSides(s: Sides) returns (threads: seq<ThreadBundle>, conflicts: seq<Conflict>)
    ensures threads == Values(s.Merged())
    ensures conflicts == Values(s.ConflictMap())
  {
    var ids := InOrder(s.Ids());
    threads, conflicts := [], [];
    ghost var merged, clashes := s.Merged(), s.ConflictMap();
    var i := 0;
    while i < |ids|
      invariant 0 <= i <= |ids|
      invariant threads == Collect(merged, ids[..i])
      invariant conflicts == Collect(clashes, ids[..i])
    {
      var id := ids[i];
      CollectStep(merged, ids, i);
      CollectStep(clashes, ids, i);
      assert id in ids;
      DecisionShows(s, id);
      var decision := s.Decide(id);
      if decision.Clash? {
        conflicts := conflicts + [s.ConflictAt(id)];
      } else if decision.thread.Some? {
        threads := threads + [decision.thread.value];
      }
      i := i + 1;
    }
    assert ids[..i] == ids;
    CollectInOrder(merged, s.Ids());
    CollectInOrder(clashes, s.Ids());
  }

  lemma DecisionShows(s: Sides, id: string)
    requires id in s.Ids()
    ensures Lookup(s.Merged(), id) == if s.Decide(id).Take? then s.Decide(id).thread else None
    ensures Lookup(s.ConflictMap(), id) == if s.Decide(id).Clash? then Some(s.ConflictAt(id)) else None
  {
  }

  lemma MergedIsKeyed(s: Sides)
    requires s.Valid()
    ensures Keyed(s.Merged())
  {
  }

  // ---------- laws ----------

  /** The textbook rule, on views: a conflict is a thread that both sides changed, differently; otherwise
      the side that changed it wins. */
  lemma ThreeWayRule(s: Sides, id: string)
    ensures var b, l, r := View(Lookup(s.base, id)), View(Lookup(s.local, id)), View(Lookup(s.remote, id));
      && (id in s.ConflictIds() <==> l != b && r != b && l != r)
      && (id in s.ConflictIds() ==> id !in s.Merged())
      && (id !in s.ConflictIds() ==> View(Lookup(s.Merged(), id)) == if l == b then r else l)
  {
  }

  /** Both sides agree that the thread is gone: one deleted it and the other deleted it too or left it alone. */
  ghost predicate AgreedDeletion(s: Sides, id: string) {
    && id in s.base
    && (id !in s.local || id !in s.remote)
    && (id in s.local ==> RemoteView(s.local[id]) == RemoteView(s.base[id]))
    && (id in s.remote ==> RemoteView(s.remote[id]) == RemoteView(s.base[id]))
  }

  lemma EveryIdLandsOnce(s: Sides, id: string)
    requires id in s.Ids()
    ensures id in s.Merged() || id in s.ConflictIds() || AgreedDeletion(s, id)
    ensures !(id in s.Merged() && id in s.ConflictIds())
    ensures !(id in s.Merged() && AgreedDeletion(s, id))
    ensures !(id in s.ConflictIds() && AgreedDeletion(s, id))
  {
  }

  /** A version on display is there if the bundle is, and shows its fields. */
  ghost predicate ShowsVersion(v: Option<Version>, t: Option<ThreadBundle>) {
    && (v.Some? <==> t.Some?)
    && (t.Some? ==>
          && v.value.title == t.value.title && v.value.archived == t.value.archived
          && v.value.updatedAtMs == t.value.updatedAtMs && v.value.modelProvider == t.value.modelProvider
          && v.value.workspaceSourcePath == t.value.workspace.sourcePath)
  }

  /** A conflict names the side that deleted the thread, if one did, which then was in the base; its title is the
      local one where there is one and the remote one elsewhere, and it shows all three versions. */
  lemma ConflictShows(s: Sides, id: string)
    requires id in s.ConflictIds()
    ensures id in s.ConflictMap() && (id in s.local || id in s.remote)
    ensures id !in s.local || id !in s.remote ==> id in s.base
    ensures var c := s.ConflictMap()[id];
      && c.threadId == id
      && (c.kind == LocalDeletedRemoteModified <==> id !in s.local)
      && (c.kind == RemoteDeletedLocalModified <==> id !in s.remote)
      && c.title == (if id in s.local then s.local[id].title else s.remote[id].title)
      && ShowsVersion(c.base, Lookup(s.base, id))
      && ShowsVersion(c.local, Lookup(s.local, id))
      && ShowsVersion(c.remote, Lookup(s.remote, id))
  {
  }

  /** The bundle that is kept is always one of the two sides' own, never an edited one, and the local one whenever
      that has the view that is kept. */
  lemma KeepsWholeBundles(s: Sides, id: string)
    requires id in s.Merged()
    ensures Lookup(s.local, id) == Some(s.Merged()[id]) || Lookup(s.remote, id) == Some(s.Merged()[id])
    ensures id in s.local && RemoteView(s.local[id]) == RemoteView(s.Merged()[id]) ==> s.Merged()[id] == s.local[id]
  {
  }

  /** If the remote has not moved, the merge is the local set, bundle for bundle. */
  lemma MergeWithUnchangedRemote(s: Sides)
    requires SameViews(s.remote, s.base)
    ensures s.ConflictIds() == {} && s.Merged() == s.local
  {
  }

  /** If nothing changed locally, the merge is the remote set. */
  lemma MergeWithUnchangedLocal(s: Sides)
    requires SameViews(s.local, s.base)
    ensures s.ConflictIds() == {} && SameViews(s.Merged(), s.remote)
  {
    forall id ensures id !in s.ConflictIds() && View(Lookup(s.Merged(), id)) == View(Lookup(s.remote, id)) {
      ThreeWayRule(s, id);
      assert View(Lookup(s.local, id)) == View(Lookup(s.base, id));
    }
  }

  /** If both sides made the same changes, the merge is the local set, bundle for bundle. */
  lemma MergeOfEqualSides(s: Sides)
    requires SameViews(s.local, s.remote)
    ensures s.ConflictIds() == {} && s.Merged() == s.local
  {
  }

  lemma SameLookups<T>(a: map<string, T>, b: map<string, T>)
    requires forall id :: Lookup(a, id) == Lookup(b, id)
    ensures a == b
  {
    forall id ensures id in a <==> id in b {
      assert Lookup(a, id) == Lookup(b, id);
    }
    forall id | id in a ensures a[id] == b[id] {
      assert Lookup(a, id) == Lookup(b, id);
    }
  }

  /** Swapping local and remote keeps the output and mirrors the conflicts. */
  lemma MergeIsSymmetric(s: Sides)
    ensures SameViews(s.Swapped().Merged(), s.Merged())
    ensures s.Swapped().ConflictIds() == s.ConflictIds()
    ensures forall id :: id in s.ConflictIds() ==> s.Swapped().Decide(id).kind == Mirror(s.Decide(id).kind)
  {
    forall id ensures View(Lookup(s.Swapped().Merged(), id)) == View(Lookup(s.Merged(), id))
                && (id in s.Swapped().ConflictIds() <==> id in s.ConflictIds())
    {
      ThreeWayRule(s, id);
      ThreeWayRule(s.Swapped(), id);
    }
  }

  /** The merge looks at nothing but the views: replacing bundles by others with the same view changes neither
      the views of the output nor which threads are in conflict nor a conflict's identity. */
  lemma MergeSeesOnlyViews(s: Sides, that: Sides)
    requires s.SameViewsAs(that)
    ensures SameViews(s.Merged(), that.Merged())
    ensures s.ConflictIds() == that.ConflictIds()
    ensures forall id :: id in s.ConflictIds() ==> s.ConflictAt(id).conflictId == that.ConflictAt(id).conflictId
  {
    forall id ensures View(Lookup(s.Merged(), id)) == View(Lookup(that.Merged(), id))
                && (id in s.ConflictIds() <==> id in that.ConflictIds())
                && (id in s.ConflictIds() ==> s.ConflictAt(id).conflictId == that.ConflictAt(id).conflictId)
    {
      assert View(Lookup(s.base, id)) == View(Lookup(that.base, id));
      assert View(Lookup(s.local, id)) == View(Lookup(that.local, id));
      assert View(Lookup(s.remote, id)) == View(Lookup(that.remote, id));
      ThreeWayRule(s, id);
      ThreeWayRule(that, id);
    }
  }

  ghost function Views(m: map<string, ThreadBundle>): map<string, ThreadBundle> {
    map id | id in m :: RemoteView(m[id])
  }

  /** Revisions on the server hold views only; merging with them is merging with the originals. */
  lemma MergeWithStoredViews(s: Sides)
    ensures var stored := Sides(Views(s.base), s.local, Views(s.remote));
      && SameViews(stored.Merged(), s.Merged())
      && stored.ConflictIds() == s.ConflictIds()
      && forall id :: id in s.ConflictIds() ==> stored.ConflictAt(id).conflictId == s.ConflictAt(id).conflictId
  {
    var stored := Sides(Views(s.base), s.local, Views(s.remote));
    ViewsHaveSameViews(s.base);
    ViewsHaveSameViews(s.remote);
    MergeSeesOnlyViews(stored, s);
  }

  lemma ViewsHaveSameViews(m: map<string, ThreadBundle>)
    ensures SameViews(Views(m), m)
  {
    forall id ensures View(Lookup(Views(m), id)) == View(Lookup(m, id)) {
      if id in m {
        RemoteViewIdempotent(m[id]);
      }
    }
  }

  /** Merging a conflict-free result with the same remote again changes nothing. */
  lemma MergeIsStable(s: Sides)
    requires s.ConflictIds() == {}
    ensures var again := s.(local := s.Merged());
      again.ConflictIds() == {} && SameViews(again.Merged(), s.Merged())
  {
    var again := s.(local := s.Merged());
    forall id ensures id !in again.ConflictIds() && View(Lookup(again.Merged(), id)) == View(Lookup(s.Merged(), id)) {
      ThreeWayRule(s, id);
      ThreeWayRule(again, id);
    }
  }

  /** The list a merge returns is strictly sorted by id, so no id occurs twice, and its conflicts are too. */
  lemma OutcomeIsSorted(s: Sides)
    requires s.Valid()
    ensures SortedById(s.MergeOutcome().threads) && DistinctIds(s.MergeOutcome().threads)
    ensures forall i, j :: 0 <= i < j < |s.MergeOutcome().conflicts| ==>
      Less(s.MergeOutcome().conflicts[i].threadId, s.MergeOutcome().conflicts[j].threadId)
  {
    MergedIsKeyed(s);
    ValuesAreSorted(s.Merged());
    var ids, cs := InOrder(s.ConflictMap().Keys), s.MergeOutcome().conflicts;
    forall i | 0 <= i < |cs| ensures cs[i].threadId == ids[i] {
      assert cs[i] == s.ConflictMap()[ids[i]];
    }
  }
}
