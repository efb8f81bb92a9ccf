/** Resolving the conflicts of a merge: what is accepted, what comes out, and why an old answer fails. */
module Resolve {
  import opened Basics
  import opened KeyedLists
  import opened Order
  import opened Threads
  import opened ThreadSets
  import opened Merge

  datatype Choice = Local | Remote

  datatype Resolution = Resolution(conflictId: Fingerprint, threadId: string, choice: Choice)

  datatype Error =
    | DuplicateThread
    | DuplicateResolution
    | ConflictSetChanged
    | ConflictChanged

  function AnsweredId(r: Resolution): string {
    r.threadId
  }

  predicate DistinctAnswers(rs: seq<Resolution>) {
    DistinctKeys(rs, AnsweredId)
  }

  /** The answers by thread id. */
  function Answers(rs: seq<Resolution>): map<string, Resolution> {
    ByKey(rs, AnsweredId)
  }

  ghost predicate HasAnswer(rs: seq<Resolution>, id: string) {
    exists r :: r in rs && r.threadId == id
  }

  predicate Fits(conflicts: map<string, Conflict>, r: Resolution) {
    r.threadId in conflicts && r.conflictId == conflicts[r.threadId].conflictId
  }

  /** Exactly one answer per current conflict, and it was given to that very conflict. */
  ghost predicate Settles(conflicts: map<string, Conflict>, rs: seq<Resolution>) {
    && DistinctAnswers(rs)
    && (forall id :: id in conflicts ==> HasAnswer(rs, id))
    && (forall r :: r in rs ==> Fits(conflicts, r))
  }

  /** What a conflict ends up as: the chosen side, or its deletion. */
  function Pick(s: Sides, choice: Choice, id: string): Option<ThreadBundle> {
    match choice
    case Local => Lookup(s.local, id)
    case Remote => Lookup(s.remote, id)
  }

  ghost function Chosen(s: Sides, conflicts: map<string, Conflict>, selected: map<string, Resolution>)
      : map<string, ThreadBundle>
  {
    map id | id in conflicts && id in selected && Pick(s, selected[id].choice, id).Some? ::
      Pick(s, selected[id].choice, id).value
  }

  /** The chosen side, or its deletion, for each conflict, and the merge result elsewhere. */
  ghost function Resolved(s: Sides, selected: map<string, Resolution>): map<string, ThreadBundle> {
    s.Merged() + Chosen(s, s.ConflictMap(), selected)
  }

  /** A thread in conflict ends up as the side that was chosen has it, or not at all if that side has none; every
      other thread as the merge has it. */
  lemma ResolvedMeans(s: Sides, selected: map<string, Resolution>, id: string)
    ensures id !in s.ConflictIds() ==> Lookup(Resolved(s, selected), id) == Lookup(s.Merged(), id)
    ensures id in s.ConflictIds() && id in selected && selected[id].choice == Local ==>
      Lookup(Resolved(s, selected), id) == Lookup(s.local, id)
    ensures id in s.ConflictIds() && id in selected && selected[id].choice == Remote ==>
      Lookup(Resolved(s, selected), id) == Lookup(s.remote, id)
  {
  }

  // ---------- the resolution as the program runs it ----------

  lemma AnswersHoldExactly(rs: seq<Resolution>)
    ensures forall id :: id in Answers(rs) ==> Answers(rs)[id] in rs && Answers(rs)[id].threadId == id
    ensures forall r :: r in rs ==> r.threadId in Answers(rs)
    ensures DistinctAnswers(rs) ==> forall r :: r in rs ==> Answers(rs)[r.threadId] == r
  {
    ByKeyHoldsExactly(rs, AnsweredId);
    assert forall r :: r in rs ==> AnsweredId(r) == r.threadId;
    assert forall id :: id in Answers(rs) ==> AnsweredId(Answers(rs)[id]) == Answers(rs)[id].threadId;
  }

  method Select(rs: seq<Resolution>) returns (selected: Option<map<string, Resolution>>)
    ensures selected.Some? <==> DistinctAnswers(rs)
    ensures selected.Some? ==> selected.value == Answers(rs)
  {
    var result: map<string, Resolution> := map[];
    var i := 0;
    while i < |rs|
      invariant 0 <= i <= |rs|
      invariant DistinctAnswers(rs[..i]) && result == Answers(rs[..i])
    {
      DistinctGrows(rs, i, AnsweredId);
      if rs[i].threadId in result {
        return None;
      }
      result := result[rs[i].threadId := rs[i]];
      i := i + 1;
    }
    assert rs[..i] == rs;
    return Some(result);
  }

  predicate MatchedAt(conflicts: map<string, Conflict>, selected: map<string, Resolution>, id: string)
    requires id in conflicts
  {
    id in selected && selected[id].conflictId == conflicts[id].conflictId
  }

  /** Every conflict has an answer that was given to it. */
  ghost predicate Matched(conflicts: map<string, Conflict>, selected: map<string, Resolution>) {
    forall id :: id in conflicts ==> MatchedAt(conflicts, selected, id)
  }

  /** The test the program makes, a count and one lookup per conflict, is exact. */
  lemma SettlesIffMatched(conflicts: map<string, Conflict>, rs: seq<Resolution>)
    ensures Settles(conflicts, rs) <==>
      DistinctAnswers(rs) && |Answers(rs)| == |conflicts| && Matched(conflicts, Answers(rs))
  {
    AnswersHoldExactly(rs);
    if DistinctAnswers(rs) && |Answers(rs)| == |conflicts| && Matched(conflicts, Answers(rs)) {
      MatchedSettles(conflicts, rs);
    }
    if Settles(conflicts, rs) {
      forall id | id in conflicts ensures MatchedAt(conflicts, Answers(rs), id) {
        assert HasAnswer(rs, id);
        var r :| r in rs && r.threadId == id;
        assert Fits(conflicts, r);
      }
      assert Answers(rs).Keys == conflicts.Keys;
      assert |Answers(rs).Keys| == |Answers(rs)| && |conflicts.Keys| == |conflicts|;
    }
  }

  lemma MatchedSettles(conflicts: map<string, Conflict>, rs: seq<Resolution>)
    requires DistinctAnswers(rs) && |Answers(rs)| == |conflicts| && Matched(conflicts, Answers(rs))
    ensures Settles(conflicts, rs)
  {
    var selected := Answers(rs);
    AnswersHoldExactly(rs);
    forall id | id in conflicts ensures id in selected && HasAnswer(rs, id) {
      assert MatchedAt(conflicts, selected, id);
      assert selected[id] in rs;
    }
    assert |selected.Keys| == |selected| && |conflicts.Keys| == |conflicts|;
    SubsetOfEqualSize(conflicts.Keys, selected.Keys);
    forall r | r in rs ensures Fits(conflicts, r) {
      assert r.threadId in selected.Keys;
      assert MatchedAt(conflicts, selected, r.threadId);
    }
  }

  lemma SubsetOfEqualSize<T>(a: set<T>, b: set<T>)
    requires a <= b && |a| == |b|
    ensures a == b
  {
    assert b == a + (b - a);
  }

  /** Conflicts are listed under their own thread ids. */
  ghost predicate Labelled(conflicts: map<string, Conflict>) {
    forall id :: id in conflicts ==> conflicts[id].threadId == id
  }

  /** What applying the answer to one conflict does: refuse, or add the chosen side's thread if it has one. */
  function ChoiceEffect(s: Sides, selected: map<string, Resolution>, conflict: Conflict): Result<Option<ThreadBundle>,
                        Error> {
    if conflict.threadId !in selected then Err(ConflictSetChanged)
    else
      var resolution := selected[conflict.threadId];
      if resolution.conflictId != conflict.conflictId then Err(ConflictChanged)
      else Ok(Pick(s, resolution.choice, conflict.threadId))
  }

  /** The second loop of `resolve_thread_sets`: adds the chosen side of each conflict, in order. */
  method ApplyChoices(s: Sides, selected: map<string, Resolution>, ghost cm: map<string, Conflict>,
                      conflicts: seq<Conflict>, merged: seq<ThreadBundle>)
      returns (result: Result<seq<ThreadBundle>, Error>)
    requires conflicts == Values(cm) && Labelled(cm)
    ensures result.Ok? <==> Matched(cm, selected)
    ensures result.Ok? ==> result.value == merged + Values(Chosen(s, cm, selected))
  {
    var threads := merged;
    var i := 0;
    NothingApplied(s, cm, selected, merged);
    while i < |conflicts|
      invariant 0 <= i <= |conflicts|
      invariant Applied(s, cm, selected, merged, threads, i)
    {
      var conflict := conflicts[i];
      ApplyOne(s, cm, selected, merged, threads, i);
      var effect := ChoiceEffect(s, selected, conflict);
      if effect.Err? {
        return Err(effect.error);
      }
      threads := threads + if effect.value.Some? then [effect.value.value] else [];
      i := i + 1;
    }
    AllApplied(s, cm, selected, merged, threads);
    return Ok(threads);
  }

  /** After `i` conflicts: they all have fitting answers, and the chosen sides have been added. */
  ghost predicate Applied(s: Sides, cm: map<string, Conflict>, selected: map<string, Resolution>,
                          merged: seq<ThreadBundle>, threads: seq<ThreadBundle>, i: nat) {
    var ids := InOrder(cm.Keys);
    && MatchedUpTo(cm, selected, ids, i)
    && threads == merged + Collect(Chosen(s, cm, selected), ids[..i])
  }

  lemma NothingApplied(s: Sides, cm: map<string, Conflict>, selected: map<string, Resolution>,
                       merged: seq<ThreadBundle>)
    ensures Applied(s, cm, selected, merged, merged, 0)
  {
    assert InOrder(cm.Keys)[..0] == [];
  }

  lemma NextConflict(cm: map<string, Conflict>, selected: map<string, Resolution>, i: nat)
    requires i < |Values(cm)| && Labelled(cm)
    ensures InOrder(cm.Keys)[i] == Values(cm)[i].threadId && Values(cm)[i].threadId in cm
    ensures cm[Values(cm)[i].threadId] == Values(cm)[i]
    ensures !MatchedAt(cm, selected, Values(cm)[i].threadId) ==> !Matched(cm, selected)
  {
  }

  lemma ApplyOne(s: Sides, cm: map<string, Conflict>, selected: map<string, Resolution>,
                 merged: seq<ThreadBundle>, threads: seq<ThreadBundle>, i: nat)
    requires Applied(s, cm, selected, merged, threads, i)
    requires i < |Values(cm)| && Labelled(cm)
    ensures var effect := ChoiceEffect(s, selected, Values(cm)[i]);
      if effect.Err? then !Matched(cm, selected)
      else Applied(s, cm, selected, merged, threads + if effect.value.Some? then [effect.value.value] else [], i + 1)
  {
    NextConflict(cm, selected, i);
    if ChoiceEffect(s, selected, Values(cm)[i]).Ok? {
      ApplyFitting(s, cm, selected, merged, threads, i);
    }
  }

  lemma ApplyFitting(s: Sides, cm: map<string, Conflict>, selected: map<string, Resolution>,
                     merged: seq<ThreadBundle>, threads: seq<ThreadBundle>, i: nat)
    requires Applied(s, cm, selected, merged, threads, i)
    requires i < |Values(cm)| && Labelled(cm)
    requires Values(cm)[i].threadId in cm && MatchedAt(cm, selected, Values(cm)[i].threadId)
    ensures var picked := Pick(s, selected[Values(cm)[i].threadId].choice, Values(cm)[i].threadId);
      Applied(s, cm, selected, merged, threads + if picked.Some? then [picked.value] else [], i + 1)
  {
    NextConflict(cm, selected, i);
    var ids, id := InOrder(cm.Keys), Values(cm)[i].threadId;
    CollectStep(Chosen(s, cm, selected), ids, i);
    ChosenIsPicked(s, cm, selected, id);
    assert MatchedUpTo(cm, selected, ids, i + 1);
  }

  lemma AllApplied(s: Sides, cm: map<string, Conflict>, selected: map<string, Resolution>,
                   merged: seq<ThreadBundle>, threads: seq<ThreadBundle>)
    requires Applied(s, cm, selected, merged, threads, |Values(cm)|)
    ensures Matched(cm, selected) && threads == merged + Values(Chosen(s, cm, selected))
  {
    var ids := InOrder(cm.Keys);
    assert ids[..|ids|] == ids;
    AllMatched(cm, selected);
    CollectInOrder(Chosen(s, cm, selected), cm.Keys);
  }

  ghost predicate MatchedUpTo(cm: map<string, Conflict>, selected: map<string, Resolution>, ids: seq<string>, i: nat) {
    i <= |ids| && forall j :: 0 <= j < i ==> ids[j] in cm && MatchedAt(cm, selected, ids[j])
  }

  lemma AllMatched(cm: map<string, Conflict>, selected: map<string, Resolution>)
    requires MatchedUpTo(cm, selected, InOrder(cm.Keys), |InOrder(cm.Keys)|)
    ensures Matched(cm, selected)
  {
  }

  lemma ChosenIsPicked(s: Sides, cm: map<string, Conflict>, selected: map<string, Resolution>, id: string)
    requires id in cm && id in selected
    ensures Lookup(Chosen(s, cm, selected), id) == Pick(s, selected[id].choice, id)
  {
  }

  lemma MergedAndChosen(s: Sides, selected: map<string, Resolution>)
    requires s.Valid()
    ensures Keyed(s.Merged()) && Keyed(Chosen(s, s.ConflictMap(), selected))
    ensures s.Merged().Keys !! Chosen(s, s.ConflictMap(), selected).Keys
    ensures Keyed(Resolved(s, selected))
  {
    MergedIsKeyed(s);
    ChosenIsKeyed(s, s.ConflictMap(), selected);
    forall id | id in s.Merged() ensures id !in s.ConflictMap() {
    }
  }

  lemma ChosenIsKeyed(s: Sides, conflicts: map<string, Conflict>, selected: map<string, Resolution>)
    requires s.Valid()
    ensures Keyed(Chosen(s, conflicts, selected))
  {
  }

  /** Two lists over disjoint sets of ids, put together, stand for the union. */
  lemma DisjointValues(a: map<string, ThreadBundle>, b: map<string, ThreadBundle>)
    requires Keyed(a) && Keyed(b) && a.Keys !! b.Keys
    ensures DistinctIds(Values(a) + Values(b))
    ensures ById(Values(a) + Values(b)) == a + b
  {
    ValuesAreSorted(a);
    ValuesAreSorted(b);
    DisjointLists(Values(a), Values(b), a.Keys, b.Keys);
    ListOfMap(Values(a) + Values(b), a + b);
  }

  lemma ListOfMap(ts: seq<ThreadBundle>, m: map<string, ThreadBundle>)
    requires DistinctIds(ts) && Keyed(m)
    requires forall t: ThreadBundle :: t in ts <==> t.threadId in m && m[t.threadId] == t
    ensures ById(ts) == m
  {
    ByIdHoldsExactly(ts);
    forall id | id in m ensures id in ById(ts) && ById(ts)[id] == m[id] {
      assert m[id] in ts;
    }
    forall id | id in ById(ts) ensures id in m {
      assert ById(ts)[id] in ts;
    }
  }

  lemma DisjointLists(x: seq<ThreadBundle>, y: seq<ThreadBundle>, a: set<string>, b: set<string>)
    requires DistinctIds(x) && DistinctIds(y) && a !! b
    requires forall t :: t in x ==> t.threadId in a
    requires forall t :: t in y ==> t.threadId in b
    ensures DistinctIds(x + y)
  {
  }

  /** `resolve_thread_sets`: merges again and applies the answers, or refuses. */
  method ResolveThreadSets(base: seq<ThreadBundle>, local: seq<ThreadBundle>, remote: seq<ThreadBundle>,
                           resolutions: seq<Resolution>)
      returns (result: Result<seq<ThreadBundle>, Error>)
    ensures result.Ok? <==> && DistinctIds(base) && DistinctIds(local) && DistinctIds(remote)
                            && Settles(SidesOf(base, local, remote).ConflictMap(), resolutions)
    ensures result.Ok? ==> result.value == Values(Resolved(SidesOf(base, local, remote), Answers(resolutions)))
    ensures result.Ok? ==> DistinctIds(result.value) && SortedById(result.value)
    ensures result.Ok? ==> forall r :: r in resolutions ==>
      Lookup(ById(result.value), r.threadId) == Lookup(ById(if r.choice == Remote then remote else local), r.threadId)
    ensures result.Ok? ==> forall id :: id !in SidesOf(base, local, remote).ConflictIds() ==>
      Lookup(ById(result.value), id) == Lookup(SidesOf(base, local, remote).Merged(), id)
  {
    var outcome := MergeThreadSets(base, local, remote);
    var b := ThreadMap(base);
    var l := ThreadMap(local);
    var r := ThreadMap(remote);
    if outcome.None? || b.None? || l.None? || r.None? {
      return Err(DuplicateThread);
    }
    var s := Sides(b.value, l.value, r.value);
    ghost var cm := s.ConflictMap();
    var selected := Select(resolutions);
    if selected.None? {
      return Err(DuplicateResolution);
    }
    SettlesIffMatched(cm, resolutions);
    SortedSize(InOrder(cm.Keys), cm.Keys);
    assert |cm.Keys| == |cm|;
    if |selected.value| != |outcome.value.conflicts| {
      return Err(ConflictSetChanged);
    }
    ConflictsAreLabelled(s);
    var added := ApplyChoices(s, selected.value, cm, outcome.value.conflicts, outcome.value.threads);
    if added.Err? {
      return Err(added.error);
    }
    MergedAndChosen(s, selected.value);
    DisjointValues(s.Merged(), Chosen(s, cm, selected.value));
    var sorted := SortThreads(added.value);
    AnswersAreFollowed(s, resolutions);
    return Ok(sorted);
  }

  /** The list that a resolution returns, read by id: each answer is followed, whichever side it chose, and the rest
      is what the merge took. */
  lemma AnswersAreFollowed(s: Sides, rs: seq<Resolution>)
    requires s.Valid() && Settles(s.ConflictMap(), rs)
    ensures var list := Values(Resolved(s, Answers(rs)));
      && DistinctIds(list) && SortedById(list)
      && (forall r :: r in rs ==>
            Lookup(ById(list), r.threadId) == Lookup(if r.choice == Remote then s.remote else s.local, r.threadId))
      && (forall id :: id !in s.ConflictIds() ==> Lookup(ById(list), id) == Lookup(s.Merged(), id))
  {
    var selected := Answers(rs);
    MergedAndChosen(s, selected);
    ValuesAreSorted(Resolved(s, selected));
    ByIdOfValues(Resolved(s, selected));
    AnswersHoldExactly(rs);
    forall r | r in rs
      ensures Lookup(Resolved(s, selected), r.threadId)
           == Lookup(if r.choice == Remote then s.remote else s.local, r.threadId)
    {
      assert Fits(s.ConflictMap(), r);
      ResolvedMeans(s, selected, r.threadId);
    }
    forall id | id !in s.ConflictIds() ensures Lookup(Resolved(s, selected), id) == Lookup(s.Merged(), id) {
      ResolvedMeans(s, selected, id);
    }
  }

  lemma ConflictsAreLabelled(s: Sides)
    ensures Labelled(s.ConflictMap())
  {
  }

  // ---------- what a resolution guarantees ----------

  predicate SameViewsAt(s: Sides, that: Sides, id: string) {
    && View(Lookup(s.base, id)) == View(Lookup(that.base, id))
    && View(Lookup(s.local, id)) == View(Lookup(that.local, id))
    && View(Lookup(s.remote, id)) == View(Lookup(that.remote, id))
  }

  /** Answers given to one state of the three sets are accepted for another only if the conflicting threads are
      the same and no view of any of them changed: a stale answer always fails. */
  lemma StaleAnswersFail(s: Sides, that: Sides, rs: seq<Resolution>)
    requires Settles(s.ConflictMap(), rs) && Settles(that.ConflictMap(), rs)
    ensures s.ConflictMap().Keys == that.ConflictMap().Keys
    ensures forall id :: id in s.ConflictMap() ==> SameViewsAt(s, that, id)
  {
    var mine, theirs := s.ConflictMap(), that.ConflictMap();
    SameAnswers(mine, theirs, rs);
    forall id | id in mine ensures SameViewsAt(s, that, id) {
      FingerprintShowsViews(s, that, id);
    }
  }

  lemma FingerprintShowsViews(s: Sides, that: Sides, id: string)
    requires id in s.ConflictMap() && id in that.ConflictMap()
    requires s.ConflictMap()[id].conflictId == that.ConflictMap()[id].conflictId
    ensures SameViewsAt(s, that, id)
  {
  }

  lemma SameAnswers(mine: map<string, Conflict>, theirs: map<string, Conflict>, rs: seq<Resolution>)
    requires Settles(mine, rs) && Settles(theirs, rs)
    ensures mine.Keys == theirs.Keys
    ensures forall id :: id in mine ==> mine[id].conflictId == theirs[id].conflictId
  {
  }

  /** Conversely an answer stays good, and does the same, as long as the views stay. */
  lemma AnswersOutliveInvisibleChanges(s: Sides, that: Sides, rs: seq<Resolution>)
    requires Settles(s.ConflictMap(), rs) && s.SameViewsAs(that)
    ensures Settles(that.ConflictMap(), rs)
    ensures SameViews(Resolved(that, Answers(rs)), Resolved(s, Answers(rs)))
  {
    MergeSeesOnlyViews(s, that);
    forall r | r in rs ensures Fits(that.ConflictMap(), r) {
      assert Fits(s.ConflictMap(), r);
    }
    forall id | id in that.ConflictMap() ensures HasAnswer(rs, id) {
      assert id in s.ConflictMap();
    }
    SettlesIffMatched(s.ConflictMap(), rs);
    forall id ensures View(Lookup(Resolved(that, Answers(rs)), id)) == View(Lookup(Resolved(s, Answers(rs)), id)) {
      assert id in s.ConflictMap() ==> MatchedAt(s.ConflictMap(), Answers(rs), id);
      assert View(Lookup(s.local, id)) == View(Lookup(that.local, id));
      assert View(Lookup(s.remote, id)) == View(Lookup(that.remote, id));
      assert View(Lookup(s.Merged(), id)) == View(Lookup(that.Merged(), id));
      SameResolution(s, that, Answers(rs), id);
    }
  }

  lemma SameResolution(s: Sides, that: Sides, selected: map<string, Resolution>, id: string)
    requires View(Lookup(s.local, id)) == View(Lookup(that.local, id))
    requires View(Lookup(s.remote, id)) == View(Lookup(that.remote, id))
    requires View(Lookup(s.Merged(), id)) == View(Lookup(that.Merged(), id))
    requires id in s.ConflictIds() <==> id in that.ConflictIds()
    requires id in s.ConflictIds() ==> id in selected
    ensures View(Lookup(Resolved(that, selected), id)) == View(Lookup(Resolved(s, selected), id))
  {
    ResolvedMeans(s, selected, id);
    ResolvedMeans(that, selected, id);
  }

  /** The conflicts on display are enough to answer them: one answer for each, with any choice, is accepted. */
  lemma DisplayedConflictsCanBeSettled(s: Sides, rs: seq<Resolution>)
    requires |rs| == |s.MergeOutcome().conflicts|
    requires forall i :: 0 <= i < |rs| ==>
      && rs[i].threadId == s.MergeOutcome().conflicts[i].threadId
      && rs[i].conflictId == s.MergeOutcome().conflicts[i].conflictId
    ensures Settles(s.ConflictMap(), rs)
  {
    ConflictsAreLabelled(s);
    AnswersToAll(s.ConflictMap(), rs);
  }

  lemma AnswersToAll(cm: map<string, Conflict>, rs: seq<Resolution>)
    requires Labelled(cm) && |rs| == |Values(cm)|
    requires forall i :: 0 <= i < |rs| ==>
      rs[i].threadId == Values(cm)[i].threadId && rs[i].conflictId == Values(cm)[i].conflictId
    ensures Settles(cm, rs)
  {
    var ids := InOrder(cm.Keys);
    forall i | 0 <= i < |rs| ensures rs[i].threadId == ids[i] && Fits(cm, rs[i]) {
      assert ids[i] in cm && Values(cm)[i] == cm[ids[i]];
    }
    forall i, j | 0 <= i < j < |rs| ensures rs[i].threadId != rs[j].threadId {
      LessIrreflexive(ids[i]);
    }
    forall id | id in cm ensures HasAnswer(rs, id) {
      assert id in ids;
      var i :| 0 <= i < |ids| && ids[i] == id;
      assert rs[i] in rs;
    }
  }
}
