/** Validating an uploaded revision graph: which roots pass, and what the loops collect. */
module Validation {
  import opened Basics
  import opened ObjectGraph
  import opened Metadata
  import opened Catalog
  import opened Server
  import opened GcSafety
  import opened MetadataStores

  /** All checks in order: the edge table they leave, and whether none of them failed. */
  function CheckAll(cat: Contents, files: set<Obj>, objects: Objects, checks: seq<Check>): (Objects, bool)
    decreases |checks|
  {
    if checks == [] then (objects, true)
    else
      var first := PerformCheck(cat, files, objects, checks[0]);
      if first.None? then (objects, false) else CheckAll(cat, files, first.value, checks[1..])
  }

  lemma {:induction false} CheckAllConcat(cat: Contents, files: set<Obj>, objects: Objects, a: seq<Check>,
                                          b: seq<Check>)
    ensures var (middle, passed) := CheckAll(cat, files, objects, a);
            CheckAll(cat, files, objects, a + b) == if passed then CheckAll(cat, files, middle, b) else (middle, false)
    decreases |a|
  {
    if a == [] {
      assert a + b == b;
    } else {
      assert (a + b)[1..] == a[1..] + b;
      var first := PerformCheck(cat, files, objects, a[0]);
      if first.Some? {
        CheckAllConcat(cat, files, first.value, a[1..], b);
      }
    }
  }

  lemma CheckOne(cat: Contents, files: set<Obj>, objects: Objects, check: Check)
    ensures var performed := PerformCheck(cat, files, objects, check);
            CheckAll(cat, files, objects, [check])
            == if performed.Some? then (performed.value, true) else (objects, false)
  {
  }

  // ----- which roots pass -----

  /** A check that passes whatever the edge table holds. */
  predicate Passes(cat: Contents, files: set<Obj>, check: Check) {
    match check
    case Find(o, length) => o in files && (length.Some? ==> o in cat && cat[o].byteLength == length.value)
    case Link(owner, targets) => Distinct(targets)
    case Reject => false
  }

  predicate StoredWith(cat: Contents, files: set<Obj>, o: Obj, length: nat) {
    o in files && o in cat && cat[o].byteLength == length
  }

  /** The object is stored, or the manifest is, is the one meant, and all its chunks are stored. */
  predicate ContentFits(cat: Contents, files: set<Obj>, c: ContentRef) {
    match c.storage
    case WholeObject(sha256) => StoredWith(cat, files, WholeObj(sha256), c.byteLength)
    case Chunked(manifest) =>
      var m := ContentOf(cat, ManifestObj(manifest));
      && ManifestObj(manifest) in files
      && m.Manifest? && m.logicalSha256 == c.logicalSha256 && m.byteLength == c.byteLength
      && forall chunk :: chunk in m.chunks ==> StoredWith(cat, files, ChunkObj(chunk.sha256), chunk.byteLength)
  }

  predicate ThreadFits(cat: Contents, files: set<Obj>, t: ThreadRef) {
    var d := ContentOf(cat, ThreadObj(t.descriptor));
    && ThreadObj(t.descriptor) in files
    && d.Descriptor? && d.threadId == t.threadId
    && forall c :: c in d.contents ==> ContentFits(cat, files, c)
  }

  /** Every document of the revision is stored, parses and fits its reference, and everything it names is stored with
      the length it names. */
  predicate RootFits(cat: Contents, files: set<Obj>, root: nat) {
    var d := ContentOf(cat, RootObject(root));
    && RootObject(root) in files
    && d.RevisionDocument?
    && forall t :: t in d.threads ==> ThreadFits(cat, files, t)
  }

  /** No document of the revision refers to one object twice. */
  ghost predicate NoRepeats(cat: Contents, root: nat) {
    forall o :: o in ContentGraph(cat, root) ==> Distinct(Targets(cat, o))
  }

  ghost predicate Committable(cat: Contents, files: set<Obj>, root: nat) {
    RootFits(cat, files, root) && NoRepeats(cat, root)
  }

  lemma {:induction false} CheckAllIff(cat: Contents, files: set<Obj>, objects: Objects, checks: seq<Check>)
    ensures CheckAll(cat, files, objects, checks).1 <==> forall check :: check in checks ==> Passes(cat, files, check)
    decreases |checks|
  {
    if checks != [] {
      var first := PerformCheck(cat, files, objects, checks[0]);
      assert checks[0] in checks;
      assert forall check :: check in checks <==> check == checks[0] || check in checks[1..];
      if first.Some? {
        CheckAllIff(cat, files, first.value, checks[1..]);
      }
    }
  }

  lemma PassedChecksAreDistinct(cat: Contents, s: Sys, task: Task, owner: Obj)
    requires task.Commit? && TaskOk(cat, s, task) && task.done == |RootChecks(cat, task.root)|
    requires owner in ContentGraph(cat, task.root)
    ensures Distinct(Targets(cat, owner))
  {
    var checks := RootChecks(cat, task.root);
    forall c | c in checks ensures CheckHolds(cat, s, c) {
      var i :| 0 <= i < |checks| && checks[i] == c;
    }
    assert Reject in checks ==> CheckHolds(cat, s, Reject);
    ChecksCoverGraph(cat, task.root);
    if Targets(cat, owner) != [] {
      assert CheckHolds(cat, s, Link(owner, Targets(cat, owner)));
    }
  }

  /** A commit never passes the checks of a revision some document of which repeats a reference,
      even when all objects are stored: the primary key of the edge table refuses the repetition. */
  lemma RepeatedReferenceIsNeverCommitted(cat: Contents, states: seq<Sys>, labels: seq<Label>, k: nat, t: nat,
                                          owner: Obj)
    requires Run(cat, states, labels) && k < |states|
    requires states[k].mode.Serving? && t in states[k].mode.tasks && states[k].mode.tasks[t].Commit?
    requires owner in ContentGraph(cat, states[k].mode.tasks[t].root)
    requires !Distinct(Targets(cat, owner))
    ensures states[k].mode.tasks[t].done < |RootChecks(cat, states[k].mode.tasks[t].root)|
  {
    var task := states[k].mode.tasks[t];
    RunKeeps(cat, states, labels, k);
    assert TaskOk(cat, states[k], task);
    if task.done == |RootChecks(cat, task.root)| {
      PassedChecksAreDistinct(cat, states[k], task, owner);
      assert false;
    }
  }

  // ----- what the loops collect is the content graph -----

  function Found(checks: seq<Check>): set<Obj> {
    set c | c in checks && c.Find? :: c.target
  }

  lemma FoundConcat(a: seq<Check>, b: seq<Check>)
    ensures Found(a + b) == Found(a) + Found(b)
  {
  }

  lemma FoundWrapped(o: Obj, inner: seq<Check>, link: Check)
    requires link.Link?
    ensures Found([Find(o, None)] + inner + [link]) == {o} + Found(inner)
  {
    FoundConcat([Find(o, None)] + inner, [link]);
    FoundConcat([Find(o, None)], inner);
    assert Found([Find(o, None)]) == {o} by {
      assert Find(o, None) in [Find(o, None)];
    }
  }

  lemma {:induction false} ContentsFindTargets(cat: Contents, cs: seq<ContentRef>)
    ensures Found(ContentsChecks(cat, cs)) <= Elements(ContentsTargets(cat, cs))
  {
    if cs != [] {
      FoundConcat(ContentChecks(cat, cs[0]), ContentsChecks(cat, cs[1..]));
      ContentsFindTargets(cat, cs[1..]);
      ContentFindsTargets(cat, cs[0]);
    }
  }

  lemma ContentFindsTargets(cat: Contents, c: ContentRef)
    ensures Found(ContentChecks(cat, c)) <= Elements(ContentTargets(cat, c))
  {
  }

  lemma ThreadFindsReachable(cat: Contents, t: ThreadRef, s: set<Obj>)
    requires Closed(ContentEdges(cat), s) && ThreadObj(t.descriptor) in s
    ensures Found(ThreadChecks(cat, t)) <= s
  {
    var o := ThreadObj(t.descriptor);
    var d := ContentOf(cat, o);
    if d.Descriptor? && d.threadId == t.threadId {
      ContentsFindTargets(cat, d.contents);
      forall x | x in Found(ContentsChecks(cat, d.contents)) ensures x in s {
        ContentEdge(cat, o, x);
        assert Edge(o, x).target in s;
      }
    }
  }

  lemma {:induction false} ThreadsFindReachable(cat: Contents, ts: seq<ThreadRef>, s: set<Obj>)
    requires Closed(ContentEdges(cat), s) && forall t :: t in ts ==> ThreadObj(t.descriptor) in s
    ensures Found(ThreadsChecks(cat, ts)) <= s
  {
    if ts != [] {
      FoundConcat(ThreadChecks(cat, ts[0]), ThreadsChecks(cat, ts[1..]));
      ThreadFindsReachable(cat, ts[0], s);
      ThreadsFindReachable(cat, ts[1..], s);
    }
  }

  /** Validation that rejects nothing finds the content graph of the root: no more and no less. */
  lemma FoundIsContentGraph(cat: Contents, root: nat)
    requires Reject !in RootChecks(cat, root)
    ensures Found(RootChecks(cat, root)) == ContentGraph(cat, root)
  {
    var graph := ContentGraph(cat, root);
    RootFindsWithinGraph(cat, root);
    ChecksCoverGraph(cat, root);
    forall x | x in graph ensures x in Found(RootChecks(cat, root)) {
      assert Finds(RootChecks(cat, root), x);
    }
  }

  lemma RootFindsWithinGraph(cat: Contents, root: nat)
    requires Reject !in RootChecks(cat, root)
    ensures Found(RootChecks(cat, root)) <= ContentGraph(cat, root)
  {
    var o := RootObject(root);
    assert Reject in [Find(o, None), Reject];
    var threads := ContentOf(cat, o).threads;
    RootReachesThreads(cat, root, threads);
    ThreadsFindReachable(cat, threads, ContentGraph(cat, root));
    FoundWrapped(o, ThreadsChecks(cat, threads), Link(o, Targets(cat, o)));
  }

  lemma RootReachesThreads(cat: Contents, root: nat, threads: seq<ThreadRef>)
    requires var d := ContentOf(cat, RootObject(root)); d.RevisionDocument? && d.threads == threads
    ensures forall t :: t in threads ==> ThreadObj(t.descriptor) in ContentGraph(cat, root)
  {
    var o := RootObject(root);
    forall t | t in threads ensures ThreadObj(t.descriptor) in ContentGraph(cat, root) {
      var i :| 0 <= i < |threads| && threads[i] == t;
      assert DescriptorTargets(threads)[i] in Targets(cat, o);
      ContentEdge(cat, o, ThreadObj(t.descriptor));
      assert Edge(o, ThreadObj(t.descriptor)).target in ContentGraph(cat, root);
    }
  }

  // ----- the exact condition, on documents -----

  /** All checks but the links pass. */
  ghost predicate Plain(cat: Contents, files: set<Obj>, checks: seq<Check>) {
    forall check :: check in checks && !check.Link? ==> Passes(cat, files, check)
  }

  lemma PlainConcat(cat: Contents, files: set<Obj>, a: seq<Check>, b: seq<Check>)
    ensures Plain(cat, files, a + b) <==> Plain(cat, files, a) && Plain(cat, files, b)
  {
    assert forall check :: check in a + b <==> check in a || check in b;
  }

  lemma PlainRejects(cat: Contents, files: set<Obj>, o: Obj)
    ensures !Plain(cat, files, [Find(o, None), Reject])
  {
    assert Reject in [Find(o, None), Reject] && !Passes(cat, files, Reject);
  }

  /** A document with its own check first and its link last. */
  lemma PlainWrapped(cat: Contents, files: set<Obj>, o: Obj, inner: seq<Check>, link: Check)
    requires link.Link?
    ensures Plain(cat, files, [Find(o, None)] + inner + [link]) <==> o in files && Plain(cat, files, inner)
  {
    PlainConcat(cat, files, [Find(o, None)] + inner, [link]);
    PlainConcat(cat, files, [Find(o, None)], inner);
    assert Find(o, None) in [Find(o, None)];
  }

  lemma PlainChunks(cat: Contents, files: set<Obj>, chunks: seq<ChunkRef>)
    ensures Plain(cat, files, ChunkChecks(chunks)) <==>
      forall chunk :: chunk in chunks ==> StoredWith(cat, files, ChunkObj(chunk.sha256), chunk.byteLength)
  {
    forall i | 0 <= i < |chunks|
      ensures Passes(cat, files, ChunkChecks(chunks)[i])
              <==> StoredWith(cat, files, ChunkObj(chunks[i].sha256), chunks[i].byteLength)
    {
    }
    assert forall i :: 0 <= i < |chunks| ==> ChunkChecks(chunks)[i] in ChunkChecks(chunks);
  }

  lemma PlainContent(cat: Contents, files: set<Obj>, c: ContentRef)
    ensures Plain(cat, files, ContentChecks(cat, c)) <==> ContentFits(cat, files, c)
  {
    match c.storage
    case WholeObject(sha256) => assert ContentChecks(cat, c)[0] in ContentChecks(cat, c);
    case Chunked(manifest) =>
      var o := ManifestObj(manifest);
      var m := ContentOf(cat, o);
      PlainRejects(cat, files, o);
      if m.Manifest? {
        PlainWrapped(cat, files, o, ChunkChecks(m.chunks), Link(o, Targets(cat, o)));
        PlainChunks(cat, files, m.chunks);
      }
  }

  lemma {:induction false} PlainContents(cat: Contents, files: set<Obj>, cs: seq<ContentRef>)
    ensures Plain(cat, files, ContentsChecks(cat, cs)) <==> forall c :: c in cs ==> ContentFits(cat, files, c)
  {
    if cs != [] {
      PlainConcat(cat, files, ContentChecks(cat, cs[0]), ContentsChecks(cat, cs[1..]));
      PlainContent(cat, files, cs[0]);
      PlainContents(cat, files, cs[1..]);
      assert forall c :: c in cs <==> c == cs[0] || c in cs[1..];
    }
  }

  lemma PlainThread(cat: Contents, files: set<Obj>, t: ThreadRef)
    ensures Plain(cat, files, ThreadChecks(cat, t)) <==> ThreadFits(cat, files, t)
  {
    var o := ThreadObj(t.descriptor);
    var d := ContentOf(cat, o);
    PlainRejects(cat, files, o);
    if d.Descriptor? {
      PlainWrapped(cat, files, o, ContentsChecks(cat, d.contents), Link(o, Targets(cat, o)));
      PlainContents(cat, files, d.contents);
    }
  }

  lemma {:induction false} PlainThreads(cat: Contents, files: set<Obj>, ts: seq<ThreadRef>)
    ensures Plain(cat, files, ThreadsChecks(cat, ts)) <==> forall t :: t in ts ==> ThreadFits(cat, files, t)
  {
    if ts != [] {
      PlainConcat(cat, files, ThreadChecks(cat, ts[0]), ThreadsChecks(cat, ts[1..]));
      PlainThread(cat, files, ts[0]);
      PlainThreads(cat, files, ts[1..]);
      assert forall t :: t in ts <==> t == ts[0] || t in ts[1..];
    }
  }

  lemma PlainRoot(cat: Contents, files: set<Obj>, root: nat)
    ensures Plain(cat, files, RootChecks(cat, root)) <==> RootFits(cat, files, root)
  {
    var o := RootObject(root);
    var d := ContentOf(cat, o);
    PlainRejects(cat, files, o);
    if d.RevisionDocument? {
      PlainWrapped(cat, files, o, ThreadsChecks(cat, d.threads), Link(o, Targets(cat, o)));
      PlainThreads(cat, files, d.threads);
    }
  }

  /** Whatever is linked has been found. */
  ghost predicate OwnersFound(checks: seq<Check>) {
    forall check :: check in checks && check.Link? ==> check.owner in Found(checks)
  }

  lemma OwnersConcat(a: seq<Check>, b: seq<Check>)
    requires OwnersFound(a) && OwnersFound(b)
    ensures OwnersFound(a + b)
  {
    FoundConcat(a, b);
  }

  lemma OwnersWrapped(o: Obj, inner: seq<Check>, targets: seq<Obj>)
    requires OwnersFound(inner)
    ensures OwnersFound([Find(o, None)] + inner + [Link(o, targets)])
  {
    FoundWrapped(o, inner, Link(o, targets));
  }

  lemma {:induction false} ContentsOwnersFound(cat: Contents, cs: seq<ContentRef>)
    ensures OwnersFound(ContentsChecks(cat, cs))
  {
    if cs != [] {
      var c := cs[0];
      if c.storage.Chunked? && ContentOf(cat, ManifestObj(c.storage.manifest)).Manifest? {
        var o := ManifestObj(c.storage.manifest);
        OwnersWrapped(o, ChunkChecks(ContentOf(cat, o).chunks), Targets(cat, o));
      }
      ContentsOwnersFound(cat, cs[1..]);
      OwnersConcat(ContentChecks(cat, c), ContentsChecks(cat, cs[1..]));
    }
  }

  lemma {:induction false} ThreadsOwnersFound(cat: Contents, ts: seq<ThreadRef>)
    ensures OwnersFound(ThreadsChecks(cat, ts))
  {
    if ts != [] {
      var o := ThreadObj(ts[0].descriptor);
      var d := ContentOf(cat, o);
      if d.Descriptor? {
        ContentsOwnersFound(cat, d.contents);
        OwnersWrapped(o, ContentsChecks(cat, d.contents), Targets(cat, o));
      }
      ThreadsOwnersFound(cat, ts[1..]);
      OwnersConcat(ThreadChecks(cat, ts[0]), ThreadsChecks(cat, ts[1..]));
    }
  }

  lemma RootOwnersFound(cat: Contents, root: nat)
    ensures OwnersFound(RootChecks(cat, root))
  {
    var o := RootObject(root);
    var d := ContentOf(cat, o);
    if d.RevisionDocument? {
      ThreadsOwnersFound(cat, d.threads);
      OwnersWrapped(o, ThreadsChecks(cat, d.threads), Targets(cat, o));
    }
  }

  /** Given that everything else is in order, the links all pass exactly if no document repeats a reference. */
  lemma LinksPassIffNoRepeats(cat: Contents, files: set<Obj>, root: nat)
    requires Plain(cat, files, RootChecks(cat, root))
    ensures (forall check :: check in RootChecks(cat, root) && check.Link? ==> Passes(cat, files, check))
            <==> NoRepeats(cat, root)
  {
    var checks := RootChecks(cat, root);
    assert !Passes(cat, files, Reject);
    ChecksCoverGraph(cat, root);
    FoundIsContentGraph(cat, root);
    RootOwnersFound(cat, root);
    forall check | check in checks && check.Link?
      ensures check.owner in ContentGraph(cat, root) && check.targets == Targets(cat, check.owner)
    {
      LinksAreTargets(cat, root, check);
    }
    if forall check :: check in checks && check.Link? ==> Passes(cat, files, check) {
      forall o | o in ContentGraph(cat, root) ensures Distinct(Targets(cat, o)) {
        assert Targets(cat, o) != [] ==> Passes(cat, files, Link(o, Targets(cat, o)));
      }
    }
  }

  /** Validation accepts a root exactly if every document parses and fits its reference, everything is stored with its
      length, and no document refers to one object twice. */
  lemma ValidationIsExact(cat: Contents, files: set<Obj>, objects: Objects, root: nat)
    ensures CheckAll(cat, files, objects, RootChecks(cat, root)).1 <==> Committable(cat, files, root)
  {
    CheckAllIff(cat, files, objects, RootChecks(cat, root));
    PlainRoot(cat, files, root);
    if Plain(cat, files, RootChecks(cat, root)) {
      LinksPassIffNoRepeats(cat, files, root);
    }
  }

  lemma CommittableFindsGraph(cat: Contents, files: set<Obj>, root: nat)
    requires Committable(cat, files, root)
    ensures Found(RootChecks(cat, root)) == ContentGraph(cat, root)
  {
    PlainRoot(cat, files, root);
    assert !Passes(cat, files, Reject);
    FoundIsContentGraph(cat, root);
  }

  /** A revision with one thread whose rollout is a manifest of two equal chunks. */
  function TwinChunks(): Contents {
    map[
      RootObject(0) := Bytes(9, RevisionDocument(0, None, 0, [ThreadRef(1, 2)])),
      ThreadObj(2) := Bytes(8, Descriptor(1, [ContentRef(3, 10, Chunked(4))])),
      ManifestObj(4) := Bytes(7, Manifest(3, 10, [ChunkRef(5, 5), ChunkRef(5, 5)])),
      ChunkObj(5) := Bytes(5, Blob)]
  }

  /** It is in perfect order and completely stored, and is refused all the same. */
  lemma TwinChunksAreRefused(objects: Objects)
    ensures ContentGraph(TwinChunks(), 0) <= TwinChunks().Keys
    ensures RootFits(TwinChunks(), TwinChunks().Keys, 0)
    ensures !CheckAll(TwinChunks(), TwinChunks().Keys, objects, RootChecks(TwinChunks(), 0)).1
  {
    var cat := TwinChunks();
    var manifest := ManifestObj(4);
    assert ContentOf(cat, manifest).chunks[0] == ContentOf(cat, manifest).chunks[1];
    assert ContentFits(cat, cat.Keys, ContentRef(3, 10, Chunked(4)));
    assert ThreadFits(cat, cat.Keys, ThreadRef(1, 2));
    ValidationIsExact(cat, cat.Keys, objects, 0);
    PlainRoot(cat, cat.Keys, 0);
    var checks := RootChecks(cat, 0);
    assert !Passes(cat, cat.Keys, Reject);
    FoundIsContentGraph(cat, 0);
    forall o | o in ContentGraph(cat, 0) ensures o in cat.Keys {
      var c :| c in checks && c.Find? && c.target == o;
      assert Passes(cat, cat.Keys, c);
    }
    ReachesManifest(cat);
    assert Targets(cat, manifest)[0] == Targets(cat, manifest)[1];
    assert !Distinct(Targets(cat, manifest));
  }

  lemma ReachesManifest(cat: Contents)
    requires cat == TwinChunks()
    ensures ManifestObj(4) in ContentGraph(cat, 0)
  {
    var o, t, m := RootObject(0), ThreadObj(2), ManifestObj(4);
    assert ContentOf(cat, o).threads[0] == ThreadRef(1, 2);
    assert Targets(cat, o)[0] == t && t in Targets(cat, o);
    ContentEdge(cat, o, t);
    var c := ContentRef(3, 10, Chunked(4));
    assert ContentTargets(cat, c)[0] == m;
    assert ContentsTargets(cat, [c]) == ContentTargets(cat, c) + ContentsTargets(cat, []);
    assert Targets(cat, t) == ContentsTargets(cat, [c]);
    assert Targets(cat, t)[0] == m && m in Targets(cat, t);
    ContentEdge(cat, t, m);
    var graph := ContentGraph(cat, 0);
    assert Edge(o, t).target in graph;
    assert Edge(t, m).target in graph;
  }

  // ----- the loops -----

  class Validator {
    const metadata: MetadataStore
    const catalog: Contents
    const files: set<Obj>

    constructor (metadata: MetadataStore, catalog: Contents, files: set<Obj>)
      ensures this.metadata == metadata && this.catalog == catalog && this.files == files
    {
      this.metadata, this.catalog, this.files := metadata, catalog, files;
    }

    /** What running `checks` from the tables `before` must leave behind. */
    ghost predicate Ran(before: Objects, checks: seq<Check>, passed: bool)
      reads metadata
    {
      (metadata.ObjectTables(), passed) == CheckAll(catalog, files, before, checks)
    }

    /** `ensure_typed_object`. */
    method EnsureObject(o: Obj, length: Option<nat>) returns (ok: bool)
      ensures Ran(metadata.ObjectTables(), [Find(o, length)], ok)
    {
      CheckOne(catalog, files, metadata.ObjectTables(), Find(o, length));
      ok := o in files && (length.Some? ==> o in catalog && catalog[o].byteLength == length.value);
    }

    method LinkObject(owner: Obj, targets: seq<Obj>) returns (ok: bool)
      modifies metadata
      ensures metadata.HistoryTables() == old(metadata.HistoryTables())
      ensures Ran(old(metadata.ObjectTables()), [Link(owner, targets)], ok)
    {
      CheckOne(catalog, files, metadata.ObjectTables(), Link(owner, targets));
      var reply := metadata.ReplaceObjectEdges(owner, targets);
      ok := reply.Ok?;
    }

    /** `validate_content_graph_v4`: the object or the manifest with its chunks. */
    method ValidateContent(c: ContentRef) returns (ok: bool, targets: seq<Obj>)
      modifies metadata
      ensures metadata.HistoryTables() == old(metadata.HistoryTables())
      ensures Ran(old(metadata.ObjectTables()), ContentChecks(catalog, c), ok)
      ensures ok ==> targets == ContentTargets(catalog, c)
    {
      ghost var before := metadata.ObjectTables();
      targets := [];
      match c.storage {
        case WholeObject(sha256) =>
          ok := EnsureObject(WholeObj(sha256), Some(c.byteLength));
          targets := [WholeObj(sha256)];
        case Chunked(manifest) =>
          var o := ManifestObj(manifest);
          var m := ContentOf(catalog, o);
          ok := EnsureObject(o, None);
          ghost var rest := ContentChecks(catalog, c)[1..];
          assert ContentChecks(catalog, c) == [Find(o, None)] + rest;
          CheckAllConcat(catalog, files, before, [Find(o, None)], rest);
          if !ok {
            return;
          }
          if !(m.Manifest? && m.logicalSha256 == c.logicalSha256 && m.byteLength == c.byteLength) {
            assert rest == [Reject];
            CheckOne(catalog, files, before, Reject);
            ok := false;
            return;
          }
          assert rest == ChunkChecks(m.chunks) + [Link(o, Targets(catalog, o))];
          CheckAllConcat(catalog, files, before, ChunkChecks(m.chunks), [Link(o, Targets(catalog, o))]);
          ok := EnsureChunks(m.chunks);
          if !ok {
            return;
          }
          ok := LinkObject(o, ChunkTargets(m.chunks));
          targets := [o] + ChunkTargets(m.chunks);
      }
    }

    method EnsureChunks(chunks: seq<ChunkRef>) returns (ok: bool)
      ensures Ran(metadata.ObjectTables(), ChunkChecks(chunks), ok)
    {
      ghost var tables, checks := metadata.ObjectTables(), ChunkChecks(chunks);
      assert checks[..0] == [];
      for i := 0 to |chunks|
        invariant CheckAll(catalog, files, tables, checks[..i]) == (tables, true)
      {
        var found := EnsureObject(ChunkObj(chunks[i].sha256), Some(chunks[i].byteLength));
        assert checks[..i + 1] == checks[..i] + [checks[i]];
        CheckAllConcat(catalog, files, tables, checks[..i], [checks[i]]);
        if !found {
          assert checks == checks[..i + 1] + checks[i + 1..];
          CheckAllConcat(catalog, files, tables, checks[..i + 1], checks[i + 1..]);
          return false;
        }
      }
      assert checks[..|chunks|] == checks;
      return true;
    }

    /** What is left to run from the tables as they are now comes to the same as all from the tables `before`. */
    ghost predicate LeftToRun(before: Objects, all: seq<Check>, rest: seq<Check>)
      reads metadata
    {
      CheckAll(catalog, files, before, all) == CheckAll(catalog, files, metadata.ObjectTables(), rest)
    }

    /** The rollout and attachments of one descriptor. */
    method ValidateContents(contents: seq<ContentRef>) returns (ok: bool, targets: seq<Obj>)
      modifies metadata
      ensures metadata.HistoryTables() == old(metadata.HistoryTables())
      ensures Ran(old(metadata.ObjectTables()), ContentsChecks(catalog, contents), ok)
      ensures ok ==> targets == ContentsTargets(catalog, contents)
    {
      ghost var before, all := metadata.ObjectTables(), ContentsChecks(catalog, contents);
      ok, targets := true, [];
      for i := 0 to |contents|
        invariant metadata.HistoryTables() == old(metadata.HistoryTables())
        invariant LeftToRun(before, all, ContentsChecks(catalog, contents[i..]))
        invariant targets + ContentsTargets(catalog, contents[i..]) == ContentsTargets(catalog, contents)
      {
        ghost var middle := metadata.ObjectTables();
        assert contents[i..][1..] == contents[i + 1..];
        CheckAllConcat(catalog, files, middle, ContentChecks(catalog, contents[i]),
            ContentsChecks(catalog, contents[i + 1..]));
        var more;
        ok, more := ValidateContent(contents[i]);
        if !ok {
          return;
        }
        Regroup(targets, more, ContentsTargets(catalog, contents[i + 1..]));
        targets := targets + more;
      }
      ok := true;
    }

    method ValidateThread(t: ThreadRef) returns (ok: bool, found: set<Obj>)
      modifies metadata
      ensures metadata.HistoryTables() == old(metadata.HistoryTables())
      ensures Ran(old(metadata.ObjectTables()), ThreadChecks(catalog, t), ok)
      ensures ok ==> found == Found(ThreadChecks(catalog, t))
    {
      ghost var before := metadata.ObjectTables();
      found := {};
      var o := ThreadObj(t.descriptor);
      var d := ContentOf(catalog, o);
      ok := EnsureObject(o, None);
      ghost var rest := ThreadChecks(catalog, t)[1..];
      assert ThreadChecks(catalog, t) == [Find(o, None)] + rest;
      CheckAllConcat(catalog, files, before, [Find(o, None)], rest);
      if !ok {
        return;
      }
      if !(d.Descriptor? && d.threadId == t.threadId) {
        assert rest == [Reject];
        CheckOne(catalog, files, before, Reject);
        ok := false;
        return;
      }
      ghost var inner := ContentsChecks(catalog, d.contents);
      assert rest == inner + [Link(o, Targets(catalog, o))];
      CheckAllConcat(catalog, files, before, inner, [Link(o, Targets(catalog, o))]);
      var targets;
      ok, targets := ValidateContents(d.contents);
      if !ok {
        return;
      }
      ok := LinkObject(o, targets);
      found := {o} + set x | x in targets;
      if ok {
        CheckAllIff(catalog, files, before, ThreadChecks(catalog, t));
        ThreadFinds(catalog, t);
      }
    }

    /** `validate_revision_graph_v4`: succeeds exactly on committable roots, and returns their graph. */
    method ValidateRevisionGraph(root: nat) returns (ok: bool, graph: set<Obj>)
      modifies metadata
      ensures metadata.HistoryTables() == old(metadata.HistoryTables())
      ensures Ran(old(metadata.ObjectTables()), RootChecks(catalog, root), ok)
      ensures ok <==> Committable(catalog, files, root)
      ensures ok ==> graph == ContentGraph(catalog, root)
    {
      ghost var before := metadata.ObjectTables();
      ok, graph := ValidateRoot(root);
      ValidationIsExact(catalog, files, before, root);
      if ok {
        CommittableFindsGraph(catalog, files, root);
      }
    }

    method ValidateRoot(root: nat) returns (ok: bool, graph: set<Obj>)
      modifies metadata
      ensures metadata.HistoryTables() == old(metadata.HistoryTables())
      ensures Ran(old(metadata.ObjectTables()), RootChecks(catalog, root), ok)
      ensures ok ==> graph == Found(RootChecks(catalog, root))
    {
      ghost var before := metadata.ObjectTables();
      var o := RootObject(root);
      var d := ContentOf(catalog, o);
      graph := {o};
      ok := EnsureObject(o, None);
      ghost var rest := RootChecks(catalog, root)[1..];
      assert RootChecks(catalog, root) == [Find(o, None)] + rest;
      CheckAllConcat(catalog, files, before, [Find(o, None)], rest);
      if !ok {
        return;
      }
      if !d.RevisionDocument? {
        assert rest == [Reject];
        CheckOne(catalog, files, before, Reject);
        ok := false;
        return;
      }
      assert rest == ThreadsChecks(catalog, d.threads) + [Link(o, DescriptorTargets(d.threads))];
      var found;
      ok, found := ValidateThreadsAndLink(o, d.threads);
      graph := graph + found;
      FoundWrapped(o, ThreadsChecks(catalog, d.threads), Link(o, Targets(catalog, o)));
    }

    method ValidateThreadsAndLink(o: Obj, threads: seq<ThreadRef>) returns (ok: bool, found: set<Obj>)
      modifies metadata
      ensures metadata.HistoryTables() == old(metadata.HistoryTables())
      ensures Ran(old(metadata.ObjectTables()),
              ThreadsChecks(catalog, threads) + [Link(o, DescriptorTargets(threads))], ok)
      ensures ok ==> found == Found(ThreadsChecks(catalog, threads))
    {
      ghost var before, inner := metadata.ObjectTables(), ThreadsChecks(catalog, threads);
      CheckAllConcat(catalog, files, before, inner, [Link(o, DescriptorTargets(threads))]);
      ok, found := ValidateThreads(threads);
      if ok {
        ok := LinkObject(o, DescriptorTargets(threads));
      }
    }

    method ValidateThreads(threads: seq<ThreadRef>) returns (ok: bool, found: set<Obj>)
      modifies metadata
      ensures metadata.HistoryTables() == old(metadata.HistoryTables())
      ensures Ran(old(metadata.ObjectTables()), ThreadsChecks(catalog, threads), ok)
      ensures ok ==> found == Found(ThreadsChecks(catalog, threads))
    {
      ghost var before, all := metadata.ObjectTables(), ThreadsChecks(catalog, threads);
      ok, found := true, {};
      for i := 0 to |threads|
        invariant metadata.HistoryTables() == old(metadata.HistoryTables())
        invariant LeftToRun(before, all, ThreadsChecks(catalog, threads[i..]))
        invariant found + Found(ThreadsChecks(catalog, threads[i..])) == Found(all)
      {
        ghost var middle := metadata.ObjectTables();
        assert threads[i..][1..] == threads[i + 1..];
        CheckAllConcat(catalog, files, middle, ThreadChecks(catalog, threads[i]),
            ThreadsChecks(catalog, threads[i + 1..]));
        FoundConcat(ThreadChecks(catalog, threads[i]), ThreadsChecks(catalog, threads[i + 1..]));
        var more;
        ok, more := ValidateThread(threads[i]);
        if !ok {
          return;
        }
        found := found + more;
      }
      ok := true;
    }
  }

  lemma Regroup(a: seq<Obj>, b: seq<Obj>, c: seq<Obj>)
    ensures a + (b + c) == a + b + c
  {
  }

  lemma ContentsFindAllTargets(cat: Contents, cs: seq<ContentRef>)
    requires Reject !in ContentsChecks(cat, cs)
    ensures Found(ContentsChecks(cat, cs)) == Elements(ContentsTargets(cat, cs))
  {
    ContentsFindTargets(cat, cs);
    ContentsCover(cat, cs);
    forall x | x in ContentsTargets(cat, cs) ensures x in Found(ContentsChecks(cat, cs)) {
      assert Finds(ContentsChecks(cat, cs), x);
    }
  }

  /** The targets of an accepted descriptor are exactly what its checks find below it. */
  lemma ThreadFinds(cat: Contents, t: ThreadRef)
    requires Reject !in ThreadChecks(cat, t)
    ensures Found(ThreadChecks(cat, t))
            == {ThreadObj(t.descriptor)} + Elements(Targets(cat, ThreadObj(t.descriptor)))
  {
    var o := ThreadObj(t.descriptor);
    assert Reject in [Find(o, None), Reject];
    var contents := ContentOf(cat, o).contents;
    var inner := ContentsChecks(cat, contents);
    FoundWrapped(o, inner, Link(o, Targets(cat, o)));
    assert forall x :: x in inner ==> x in [Find(o, None)] + inner + [Link(o, Targets(cat, o))];
    ContentsFindAllTargets(cat, contents);
  }
}
