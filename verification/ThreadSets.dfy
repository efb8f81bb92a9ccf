/** Thread sets: a list of bundles read as a map from thread id, and the list such a map is written back as. */
module ThreadSets {
  import opened Basics
  import opened KeyedLists
  import opened Order
  import opened Threads

  function ThreadId(t: ThreadBundle): string {
    t.threadId
  }

  predicate DistinctIds(threads: seq<ThreadBundle>) {
    DistinctKeys(threads, ThreadId)
  }

  /** The bundles by id; a later bundle replaces an earlier one with the same id. */
  function ById(threads: seq<ThreadBundle>): map<string, ThreadBundle> {
    ByKey(threads, ThreadId)
  }

  ghost predicate Keyed(m: map<string, ThreadBundle>) {
    forall id :: id in m ==> m[id].threadId == id
  }

  function Lookup<T>(m: map<string, T>, id: string): Option<T> {
    if id in m then Some(m[id]) else None
  }

  /** `map.into_values()` of an ordered map. */
  function Values<T>(m: map<string, T>): (r: seq<T>)
    ensures |r| == |InOrder(m.Keys)|
    ensures forall i :: 0 <= i < |r| ==> InOrder(m.Keys)[i] in m && r[i] == m[InOrder(m.Keys)[i]]
  {
    var ids := InOrder(m.Keys);
    seq(|ids|, i requires 0 <= i < |ids| => assert ids[i] in ids; m[ids[i]])
  }

  /** The values of those of `ids` that are keys, in the order given. */
  function Collect<T>(m: map<string, T>, ids: seq<string>): seq<T> {
    if ids == [] then []
    else
      var last := ids[|ids| - 1];
      Collect(m, ids[..|ids| - 1]) + if last in m then [m[last]] else []
  }

  function Known<T>(m: map<string, T>, ids: seq<string>): seq<string> {
    if ids == [] then []
    else
      var last := ids[|ids| - 1];
      Known(m, ids[..|ids| - 1]) + if last in m then [last] else []
  }

  lemma {:induction false} CollectFollowsKnown<T>(m: map<string, T>, ids: seq<string>)
    requires Sorted(ids)
    ensures Sorted(Known(m, ids))
    ensures forall id :: id in Known(m, ids) <==> id in ids && id in m
    ensures |Collect(m, ids)| == |Known(m, ids)|
    ensures forall i :: 0 <= i < |Known(m, ids)| ==> Collect(m, ids)[i] == m[Known(m, ids)[i]]
  {
    if ids != [] {
      var front, last := ids[..|ids| - 1], ids[|ids| - 1];
      CollectFollowsKnown(m, front);
      assert ids == front + [last];
      forall i | 0 <= i < |Known(m, front)| ensures Less(Known(m, front)[i], last) {
        assert Known(m, front)[i] in front;
      }
      forall i | 0 <= i < |Known(m, ids)| ensures Collect(m, ids)[i] == m[Known(m, ids)[i]] {
        if i < |Known(m, front)| {
          assert Known(m, front)[i] in Known(m, front);
        }
      }
    }
  }

  lemma CollectStep<T>(m: map<string, T>, ids: seq<string>, i: nat)
    requires i < |ids|
    ensures Collect(m, ids[..i + 1]) == Collect(m, ids[..i]) + if ids[i] in m then [m[ids[i]]] else []
  {
    assert ids[..i + 1][..i] == ids[..i];
  }

  /** Going through a superset of the keys in order collects the values in order. */
  lemma CollectInOrder<T>(m: map<string, T>, ids: set<string>)
    requires m.Keys <= ids
    ensures Collect(m, InOrder(ids)) == Values(m)
  {
    CollectFollowsKnown(m, InOrder(ids));
    SortedUnique(Known(m, InOrder(ids)), InOrder(m.Keys));
  }

  ghost predicate SortedById(threads: seq<ThreadBundle>) {
    forall i, j :: 0 <= i < j < |threads| ==> Less(threads[i].threadId, threads[j].threadId)
  }

  lemma ByIdHoldsExactly(threads: seq<ThreadBundle>)
    ensures Keyed(ById(threads))
    ensures forall id :: id in ById(threads) ==> ById(threads)[id] in threads
    ensures forall t :: t in threads ==> t.threadId in ById(threads)
    ensures DistinctIds(threads) ==> forall t :: t in threads ==> ById(threads)[t.threadId] == t
  {
    ByKeyHoldsExactly(threads, ThreadId);
    assert forall t :: t in threads ==> ThreadId(t) == t.threadId;
    assert forall id :: id in ById(threads) ==> ThreadId(ById(threads)[id]) == ById(threads)[id].threadId;
  }

  /** Writing a keyed map back lists each bundle once, in strictly increasing order of id. */
  lemma ValuesAreSorted(m: map<string, ThreadBundle>)
    requires Keyed(m)
    ensures SortedById(Values(m)) && DistinctIds(Values(m))
    ensures forall t :: t in Values(m) <==> t.threadId in m && m[t.threadId] == t
  {
    var ids, ts := InOrder(m.Keys), Values(m);
    forall i | 0 <= i < |ts| ensures ts[i].threadId == ids[i] {
    }
    forall i, j | 0 <= i < j < |ts| ensures ts[i].threadId != ts[j].threadId {
      LessIrreflexive(ids[i]);
    }
    forall t: ThreadBundle | t.threadId in m && m[t.threadId] == t ensures t in ts {
      assert t.threadId in ids;
      var i :| 0 <= i < |ids| && ids[i] == t.threadId;
      assert ts[i] == t;
    }
  }

  /** Reading back what was written gives the map again. */
  lemma ByIdOfValues(m: map<string, ThreadBundle>)
    requires Keyed(m)
    ensures ById(Values(m)) == m
  {
    ValuesAreSorted(m);
    ByIdHoldsExactly(Values(m));
    forall id | id in m ensures id in ById(Values(m)) && ById(Values(m))[id] == m[id] {
      assert m[id] in Values(m);
    }
  }

  /** A list sorted by id is determined by the bundles in it. */
  lemma SortedValues(threads: seq<ThreadBundle>)
    requires SortedById(threads) && DistinctIds(threads)
    ensures threads == Values(ById(threads))
  {
    var m := ById(threads);
    ByIdHoldsExactly(threads);
    var ids := seq(|threads|, i requires 0 <= i < |threads| => threads[i].threadId);
    assert Sorted(ids);
    forall x ensures x in ids <==> x in InOrder(m.Keys) {
      if x in ids {
        var i :| 0 <= i < |ids| && ids[i] == x;
        assert threads[i] in threads;
      }
      if x in m {
        var i :| 0 <= i < |threads| && threads[i] == m[x];
        assert ids[i] == x;
      }
    }
    SortedUnique(ids, InOrder(m.Keys));
    forall i | 0 <= i < |threads| ensures threads[i] == Values(m)[i] {
      assert ids[i] == InOrder(m.Keys)[i];
      assert threads[i] in threads;
    }
  }

  /** The part of a thread that two machines have to agree on, or its absence. */
  function View(t: Option<ThreadBundle>): Option<ThreadBundle> {
    if t.None? then None else Some(RemoteView(t.value))
  }

  /** Two thread sets that agree, id by id, up to the view. */
  ghost predicate SameViews(a: map<string, ThreadBundle>, b: map<string, ThreadBundle>) {
    forall id :: View(Lookup(a, id)) == View(Lookup(b, id))
  }

  /** Sets with the same views are written back as lists of the same length with the same view at each position. */
  lemma SameViewsLineUp(a: map<string, ThreadBundle>, b: map<string, ThreadBundle>)
    requires SameViews(a, b)
    ensures a.Keys == b.Keys
    ensures |Values(a)| == |Values(b)|
    ensures forall i :: 0 <= i < |Values(a)| ==> RemoteView(Values(a)[i]) == RemoteView(Values(b)[i])
  {
    forall id ensures id in a <==> id in b {
      assert View(Lookup(a, id)) == View(Lookup(b, id));
    }
    assert a.Keys == b.Keys;
    assert |Values(a)| == |Values(b)|;
    forall i | 0 <= i < |Values(a)| ensures RemoteView(Values(a)[i]) == RemoteView(Values(b)[i]) {
      var id := InOrder(a.Keys)[i];
      assert View(Lookup(a, id)) == View(Lookup(b, id));
    }
  }

  /** Stable insertion after the bundles whose id is not greater. */
  function InsertById(threads: seq<ThreadBundle>, t: ThreadBundle): seq<ThreadBundle> {
    if threads == [] || !Less(t.threadId, threads[|threads| - 1].threadId) then threads + [t]
    else InsertById(threads[..|threads| - 1], t) + [threads[|threads| - 1]]
  }

  lemma {:induction false} InsertByIdSorts(threads: seq<ThreadBundle>, t: ThreadBundle)
    requires SortedById(threads)
    requires forall u :: u in threads ==> u.threadId != t.threadId
    ensures SortedById(InsertById(threads, t))
    ensures forall u :: u in InsertById(threads, t) <==> u in threads || u == t
  {
    if threads != [] {
      var front, last := threads[..|threads| - 1], threads[|threads| - 1];
      assert threads == front + [last];
      if Less(t.threadId, last.threadId) {
        InsertByIdSorts(front, t);
        var r := InsertById(front, t);
        forall i | 0 <= i < |r| ensures Less(r[i].threadId, last.threadId) {
          assert r[i] in r;
        }
      } else {
        LessTotal(t.threadId, last.threadId);
        assert last in threads;
        forall i | 0 <= i < |threads| ensures Less(threads[i].threadId, t.threadId) {
          if i < |threads| - 1 {
            LessTransitive(threads[i].threadId, last.threadId, t.threadId);
          }
        }
      }
    }
  }

  /** `threads.sort_by(|left, right| left.thread_id.cmp(&right.thread_id))`, for threads with distinct ids. */
  method SortThreads(threads: seq<ThreadBundle>) returns (r: seq<ThreadBundle>)
    requires DistinctIds(threads)
    ensures r == Values(ById(threads))
  {
    r := [];
    var i := 0;
    while i < |threads|
      invariant 0 <= i <= |threads|
      invariant SortedById(r)
      invariant forall t :: t in r <==> t in threads[..i]
    {
      assert forall t :: t in r ==> t.threadId != threads[i].threadId;
      assert threads[..i + 1] == threads[..i] + [threads[i]];
      InsertByIdSorts(r, threads[i]);
      r := InsertById(r, threads[i]);
      i := i + 1;
    }
    assert threads[..i] == threads;
    SortedIsDistinct(r);
    SameElementsSameMap(r, threads);
    SortedValues(r);
  }

  lemma SortedIsDistinct(threads: seq<ThreadBundle>)
    requires SortedById(threads)
    ensures DistinctIds(threads)
  {
    forall i, j | 0 <= i < j < |threads| ensures threads[i].threadId != threads[j].threadId {
      LessIrreflexive(threads[i].threadId);
    }
  }

  lemma SameElementsSameMap(a: seq<ThreadBundle>, b: seq<ThreadBundle>)
    requires DistinctIds(a) && DistinctIds(b)
    requires forall t :: t in a <==> t in b
    ensures ById(a) == ById(b)
  {
    ByIdHoldsExactly(a);
    ByIdHoldsExactly(b);
    forall id ensures id in ById(a) <==> id in ById(b) {
      if id in ById(a) {
        assert ById(a)[id] in b;
      }
      if id in ById(b) {
        assert ById(b)[id] in a;
      }
    }
    forall id | id in ById(a) ensures ById(a)[id] == ById(b)[id] {
      assert ById(a)[id] in b;
    }
  }
}
