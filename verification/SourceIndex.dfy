/** The source-object index: preparing a workspace snapshot with remembered normalisation results, and why that is the
    same as normalising every rollout again. */
module SourceIndex {
  import opened Basics
  import opened Threads

  datatype Error = SourceMissing | NormalisationFailed

  datatype File = File(bytes: string, modified: nat)

  datatype Content = Content(
    logicalSha256: string, byteLength: nat, storage: StorageRef, mediaType: string, logicalPath: Option<string>)

  datatype Entry = Entry(
    threadId: Option<string>, byteLength: nat, modified: nat,
    normalizedSha256: string, normalizedByteLength: nat, storage: StorageRef,
    observedProvider: Option<string>, observedWorkspacePath: Option<string>)

  /** A scanned thread: its bundle but for the rollout's digest, size and storage, and where its rollout is. */
  datatype Scanned = Scanned(template: ThreadBundle, source: string)

  /** What normalising some bytes for a thread gives; `installed` are the objects written to the store meanwhile. */
  datatype Normalised =
    | Failed(installed: set<string>)
    | Done(sha256: string, byteLength: nat, storage: StorageRef, warnings: nat, installed: set<string>)

  /** Normalisation as a deterministic function of the bytes and the thread id, and the objects a storage reference
      stands for (a manifest and its chunks, or one whole object). */
  datatype Normaliser = Normaliser(run: (string, string) -> Normalised, parts: StorageRef -> set<string>)
  {
    /** A successful normalisation installs what its result refers to. */
    ghost predicate Installs() {
      forall bytes, id :: run(bytes, id).Done? ==> run(bytes, id).installed == parts(run(bytes, id).storage)
    }
  }

  /** The loop's variables; `reread` lists the rollouts that were normalised. */
  datatype Work = Work(
    index: map<string, Entry>, store: set<string>, threads: seq<ThreadBundle>, contents: map<string, Content>,
    unique: set<string>, warnings: nat, reread: seq<string>, failed: Option<Error>)

  datatype Prepared = Prepared(
    threads: seq<ThreadBundle>, contents: map<string, Content>, warningCount: nat, objectCount: nat, totalBytes: nat)

  function Remembered(index: map<string, Entry>, store: set<string>, n: Normaliser, file: File,
                      t: Scanned): Option<Content> {
    if t.source in index then
      var e := index[t.source];
      if e.byteLength == |file.bytes| && e.modified == file.modified && e.threadId == Some(t.template.threadId)
         && n.parts(e.storage) <= store then
        Some(Content(e.normalizedSha256, e.normalizedByteLength, e.storage,
                     t.template.rollout.mediaType, t.template.rollout.logicalPath))
      else None
    else None
  }

  function BundleWith(t: Scanned, c: Content): ThreadBundle {
    t.template.(rollout := t.template.rollout.(sha256 := c.logicalSha256, byteLength := c.byteLength,
                                               storage := Some(c.storage), sourcePath := Some(t.source)))
  }

  function EntryFor(t: Scanned, file: File, c: Content): Entry {
    Entry(Some(t.template.threadId), |file.bytes|, file.modified, c.logicalSha256, c.byteLength, c.storage,
          t.template.modelProvider, t.template.workspace.sourcePath)
  }

  function Recorded(w: Work, t: Scanned, file: File, c: Content): Work {
    w.(index := w.index[t.source := EntryFor(t, file, c)],
       threads := w.threads + [BundleWith(t, c)],
       contents := w.contents[t.template.threadId := c],
       unique := w.unique + {c.logicalSha256})
  }

  function ContentFor(t: Scanned, outcome: Normalised): Content
    requires outcome.Done?
  {
    Content(outcome.sha256, outcome.byteLength, outcome.storage, t.template.rollout.mediaType,
        t.template.rollout.logicalPath)
  }

  /** Normalising a rollout, whatever the index says. */
  function Normalise(n: Normaliser, w: Work, t: Scanned, file: File): Work {
    var outcome := n.run(file.bytes, t.template.threadId);
    var next := w.(store := w.store + outcome.installed, reread := w.reread + [t.source]);
    if outcome.Failed? then next.(failed := Some(NormalisationFailed))
    else Recorded(next.(warnings := w.warnings + outcome.warnings), t, file, ContentFor(t, outcome))
  }

  /** One turn of the loop. */
  function Take(n: Normaliser, files: map<string, File>, w: Work, t: Scanned): Work {
    if t.source !in files then w.(failed := Some(SourceMissing))
    else
      var remembered := Remembered(w.index, w.store, n, files[t.source], t);
      if remembered.Some? then Recorded(w, t, files[t.source], remembered.value)
      else Normalise(n, w, t, files[t.source])
  }

  function TakeAll(n: Normaliser, files: map<string, File>, w: Work, ts: seq<Scanned>): Work
    decreases |ts|
  {
    if ts == [] || w.failed.Some? then w else TakeAll(n, files, Take(n, files, w, ts[0]), ts[1..])
  }

  /** The same loop without an index: every rollout is normalised again. */
  function Recompute(n: Normaliser, files: map<string, File>, w: Work, t: Scanned): Work {
    if t.source !in files then w.(failed := Some(SourceMissing)) else Normalise(n, w, t, files[t.source])
  }

  function RecomputeAll(n: Normaliser, files: map<string, File>, w: Work, ts: seq<Scanned>): Work
    decreases |ts|
  {
    if ts == [] || w.failed.Some? then w else RecomputeAll(n, files, Recompute(n, files, w, ts[0]), ts[1..])
  }

  function Start(index: map<string, Entry>, store: set<string>): Work {
    Work(index, store, [], map[], {}, 0, [], None)
  }

  function TotalBytes(threads: seq<ThreadBundle>): nat {
    if threads == [] then 0 else TotalBytes(threads[..|threads| - 1]) + threads[|threads| - 1].rollout.byteLength
  }

  function Summary(w: Work, scanWarnings: nat): Prepared {
    Prepared(w.threads, w.contents, scanWarnings + w.warnings, |w.unique|, TotalBytes(w.threads))
  }

  // ---------- the preparation as the program runs it ----------

  lemma TakeNext(n: Normaliser, files: map<string, File>, w: Work, ts: seq<Scanned>, i: nat)
    requires i < |ts| && w.failed.None?
    ensures var next := Take(n, files, w, ts[i]);
            TakeAll(n, files, w, ts[i..]) == if next.failed.Some? then next else TakeAll(n, files, next, ts[i + 1..])
  {
    assert ts[i..][0] == ts[i] && ts[i..][1..] == ts[i + 1..];
  }

  /** How a content is obtained: it is remembered, and then adds no warning, or the rollout is normalised. */
  ghost predicate Obtained(index: map<string, Entry>, store: set<string>, n: Normaliser, file: File, t: Scanned,
                           after: set<string>, result: Result<(Content, nat), Error>) {
    var remembered := Remembered(index, store, n, file, t);
    if remembered.Some? then after == store && result == Ok((remembered.value, 0))
    else
      var outcome := n.run(file.bytes, t.template.threadId);
      && after == store + outcome.installed
      && result == if outcome.Failed? then Err(NormalisationFailed) else Ok((ContentFor(t, outcome), outcome.warnings))
  }

  /** One turn of the loop, once the content is obtained. */
  lemma TakeObtained(n: Normaliser, files: map<string, File>, w: Work, t: Scanned, after: set<string>,
                     result: Result<(Content, nat), Error>)
    requires t.source in files && Obtained(w.index, w.store, n, files[t.source], t, after, result)
    ensures var next := Take(n, files, w, t);
      if result.Err? then next.failed == Some(result.error) && next.store == after
      else
        next == Work(w.index[t.source := EntryFor(t, files[t.source], result.value.0)], after,
                     w.threads + [BundleWith(t, result.value.0)],
                     w.contents[t.template.threadId := result.value.0], w.unique + {result.value.0.logicalSha256},
                     w.warnings + result.value.1, next.reread, w.failed)
  {
  }

  class Repository {
    var index: map<string, Entry>
    var store: set<string>

    constructor ()
      ensures index == map[] && store == {}
    {
      index, store := map[], {};
    }

    /** `prepare_workspace_snapshot_with_control`: the index is written back only at the end. */
    method PrepareWorkspaceSnapshot(n: Normaliser, files: map<string, File>, ts: seq<Scanned>, scanWarnings: nat)
        returns (result: Result<Prepared, Error>)
      modifies this
      ensures var w := old(TakeAll(n, files, Start(index, store), ts));
        && store == w.store
        && index == (if w.failed.Some? then old(index) else w.index)
        && result == if w.failed.Some? then Err(w.failed.value) else Ok(Summary(w, scanWarnings))
    {
      ghost var first := Start(index, store);
      ghost var w := first;
      var sourceIndex, threads, contents, unique := index, [], map[], {};
      var warnings: nat := 0;
      var i := 0;
      while i < |ts|
        invariant 0 <= i <= |ts|
        invariant index == old(index)
        invariant w == Work(sourceIndex, store, threads, contents, unique, warnings, w.reread, None)
        invariant TakeAll(n, files, first, ts) == TakeAll(n, files, w, ts[i..])
      {
        var t := ts[i];
        TakeNext(n, files, w, ts, i);
        ghost var before := w;
        w := Take(n, files, w, t);
        if t.source !in files {
          return Err(SourceMissing);
        }
        var file := files[t.source];
        var obtained := Obtain(n, sourceIndex, file, t);
        TakeObtained(n, files, before, t, store, obtained);
        if obtained.Err? {
          return Err(obtained.error);
        }
        var content := obtained.value.0;
        warnings := warnings + obtained.value.1;
        unique := unique + {content.logicalSha256};
        var bundle := BundleWith(t, content);
        contents := contents[bundle.threadId := content];
        sourceIndex := sourceIndex[t.source := EntryFor(t, file, content)];
        threads := threads + [bundle];
        i := i + 1;
      }
      index := sourceIndex;
      var total := Sum(threads);
      return Ok(Prepared(threads, contents, scanWarnings + warnings, |unique|, total));
    }

    /** The remembered content, or that of normalising the rollout, with the number of warnings. */
    method Obtain(n: Normaliser, sourceIndex: map<string, Entry>, file: File, t: Scanned)
        returns (result: Result<(Content, nat), Error>)
      modifies this`store
      ensures Obtained(sourceIndex, old(store), n, file, t, store, result)
    {
      var remembered := Remembered(sourceIndex, store, n, file, t);
      if remembered.Some? {
        return Ok((remembered.value, 0));
      }
      var outcome := n.run(file.bytes, t.template.threadId);
      store := store + outcome.installed;
      if outcome.Failed? {
        return Err(NormalisationFailed);
      }
      return Ok((ContentFor(t, outcome), outcome.warnings));
    }
  }

  method Sum(threads: seq<ThreadBundle>) returns (total: nat)
    ensures total == TotalBytes(threads)
  {
    total := 0;
    var i := 0;
    while i < |threads|
      invariant 0 <= i <= |threads| && total == TotalBytes(threads[..i])
    {
      assert threads[..i + 1][..i] == threads[..i];
      total := total + threads[i].rollout.byteLength;
      i := i + 1;
    }
    assert threads[..i] == threads;
  }

  // ---------- the index agrees with recomputation ----------

  /** Whatever a path, a length and a modification time were ever seen with. */
  type History = (string, nat, nat) -> string

  /** The content of a file is what its path, length and time say: contents that were ever at one path with the same
      length and time are the same. */
  ghost predicate Honest(history: History, files: map<string, File>) {
    forall path :: path in files ==> files[path].bytes == history(path, |files[path].bytes|, files[path].modified)
  }

  ghost predicate EntryOk(n: Normaliser, history: History, path: string, e: Entry) {
    e.threadId.Some? ==>
      var now := n.run(history(path, e.byteLength, e.modified), e.threadId.value);
      && now.Done?
      && now.sha256 == e.normalizedSha256
      && now.byteLength == e.normalizedByteLength
      && now.storage == e.storage
  }

  /** Every entry is what normalising that content for that thread gives. */
  ghost predicate IndexOk(n: Normaliser, history: History, index: map<string, Entry>) {
    forall path :: path in index ==> EntryOk(n, history, path, index[path])
  }

  /** Two runs of the loop that differ in nothing but their index, their warnings and what they reread. */
  ghost predicate Agree(w: Work, v: Work) {
    && w.store == v.store
    && w.threads == v.threads
    && w.contents == v.contents
    && w.unique == v.unique
    && w.failed == v.failed
    && w.warnings <= v.warnings
  }

  lemma TakeAgrees(n: Normaliser, history: History, files: map<string, File>, w: Work, v: Work, t: Scanned)
    requires n.Installs() && Honest(history, files) && IndexOk(n, history, w.index) && Agree(w, v)
    ensures Agree(Take(n, files, w, t), Recompute(n, files, v, t))
    ensures IndexOk(n, history, Take(n, files, w, t).index)
  {
    if t.source in files {
      var file := files[t.source];
      var remembered := Remembered(w.index, w.store, n, file, t);
      if remembered.Some? {
        assert EntryOk(n, history, t.source, w.index[t.source]);
        var done := n.run(file.bytes, t.template.threadId);
        assert done.installed <= v.store;
        assert v.store + done.installed == v.store;
      }
    }
  }

  /** With any index that tells the truth the loop gives what recomputing gives: the same threads, contents and
      failures, and the same objects in the store. */
  lemma {:induction false} IndexAgreesWithRecomputation(
    n: Normaliser, history: History, files: map<string, File>, w: Work, v: Work, ts: seq<Scanned>)
    requires n.Installs() && Honest(history, files) && IndexOk(n, history, w.index) && Agree(w, v)
    ensures Agree(TakeAll(n, files, w, ts), RecomputeAll(n, files, v, ts))
    ensures IndexOk(n, history, TakeAll(n, files, w, ts).index)
    decreases |ts|
  {
    if ts != [] && w.failed.None? {
      TakeAgrees(n, history, files, w, v, ts[0]);
      IndexAgreesWithRecomputation(n, history, files, Take(n, files, w, ts[0]), Recompute(n, files, v, ts[0]), ts[1..]);
    }
  }

  // ---------- over every run ----------

  /** Files are edited, objects may get lost from the store, and snapshots are prepared. */
  datatype Event =
    | Edit(files: map<string, File>)
    | Lose(objects: set<string>)
    | Prepare(threads: seq<Scanned>, scanWarnings: nat)

  datatype World = World(files: map<string, File>, index: map<string, Entry>, store: set<string>)

  /** The world after an event, with the index or without. */
  function After(n: Normaliser, world: World, event: Event, indexed: bool): World {
    match event
    case Edit(files) => world.(files := files)
    case Lose(objects) => world.(store := world.store - objects)
    case Prepare(threads, _) =>
      if indexed then
        var w := TakeAll(n, world.files, Start(world.index, world.store), threads);
        world.(store := w.store, index := if w.failed.Some? then world.index else w.index)
      else
        world.(store := RecomputeAll(n, world.files, Start(world.index, world.store), threads).store)
  }

  /** What a preparation returns, without its warning count. */
  datatype Answer = Answer(threads: seq<ThreadBundle>, contents: map<string, Content>, objectCount: nat,
      totalBytes: nat)

  function AnswerOf(w: Work): Result<Answer, Error> {
    if w.failed.Some? then Err(w.failed.value)
    else Ok(Answer(w.threads, w.contents, |w.unique|, TotalBytes(w.threads)))
  }

  function Answers(n: Normaliser, world: World, events: seq<Event>, indexed: bool): seq<Result<Answer, Error>>
    decreases |events|
  {
    if events == [] then []
    else
      (if events[0].Prepare? then
         var first := Start(world.index, world.store);
         [AnswerOf(if indexed then TakeAll(n, world.files, first, events[0].threads)
                   else RecomputeAll(n, world.files, first, events[0].threads))]
       else [])
      + Answers(n, After(n, world, events[0], indexed), events[1..], indexed)
  }

  ghost predicate AllHonest(history: History, events: seq<Event>) {
    forall i :: 0 <= i < |events| && events[i].Edit? ==> Honest(history, events[i].files)
  }

  /** Over any run of edits, losses and preparations, the indexed program returns what a program without index
      returns. */
  lemma {:induction false} EveryRunAgrees(n: Normaliser, history: History, world: World, plain: World,
                                          events: seq<Event>)
    requires n.Installs() && Honest(history, world.files) && AllHonest(history, events)
    requires IndexOk(n, history, world.index)
    requires world.files == plain.files && world.store == plain.store
    ensures Answers(n, world, events, true) == Answers(n, plain, events, false)
    decreases |events|
  {
    if events != [] {
      if events[0].Prepare? {
        IndexAgreesWithRecomputation(n, history, world.files, Start(world.index, world.store),
                                     Start(plain.index, plain.store), events[0].threads);
      }
      assert AllHonest(history, events[1..]) by {
        assert forall i :: 0 <= i < |events[1..]| ==> events[1..][i] == events[i + 1];
      }
      EveryRunAgrees(n, history, After(n, world, events[0], true), After(n, plain, events[0], false), events[1..]);
    }
  }

  // ---------- what a preparation returns ----------

  /** The rollout of `t` is there and can be normalised. */
  predicate Normalisable(n: Normaliser, files: map<string, File>, t: Scanned) {
    t.source in files && n.run(files[t.source].bytes, t.template.threadId).Done?
  }

  /** The bundle is the scanned one with digest, size and storage of its normalised rollout, and where that is. */
  ghost predicate IsNormalised(n: Normaliser, files: map<string, File>, t: Scanned, bundle: ThreadBundle)
    requires Normalisable(n, files, t)
  {
    var done := n.run(files[t.source].bytes, t.template.threadId);
    && bundle.(rollout := t.template.rollout) == t.template
    && bundle.rollout.sha256 == done.sha256 && bundle.rollout.byteLength == done.byteLength
    && bundle.rollout.storage == Some(done.storage) && bundle.rollout.sourcePath == Some(t.source)
    && bundle.rollout.mediaType == t.template.rollout.mediaType
    && bundle.rollout.logicalPath == t.template.rollout.logicalPath
  }

  ghost predicate AllNormalised(n: Normaliser, files: map<string, File>, ts: seq<Scanned>, threads: seq<ThreadBundle>) {
    && |threads| == |ts|
    && forall i :: 0 <= i < |ts| ==> Normalisable(n, files, ts[i]) && IsNormalised(n, files, ts[i], threads[i])
  }

  /** The content listed for a thread is what its bundle says of the rollout. */
  ghost predicate Lists(c: Content, bundle: ThreadBundle) {
    && c.logicalSha256 == bundle.rollout.sha256 && c.byteLength == bundle.rollout.byteLength
    && bundle.rollout.storage == Some(c.storage)
    && c.mediaType == bundle.rollout.mediaType && c.logicalPath == bundle.rollout.logicalPath
  }

  /** The contents of exactly the given threads. */
  ghost predicate ListsAll(contents: map<string, Content>, threads: seq<ThreadBundle>) {
    && (forall t :: t in threads ==> t.threadId in contents)
    && (forall id :: id in contents ==> exists t :: t in threads && t.threadId == id && Lists(contents[id], t))
  }

  ghost predicate HasDigests(unique: set<string>, threads: seq<ThreadBundle>) {
    forall d :: d in unique <==> exists t :: t in threads && t.rollout.sha256 == d
  }

  /** What a loop without index has returned after the threads `ts`. */
  ghost predicate Returned(n: Normaliser, files: map<string, File>, ts: seq<Scanned>, w: Work) {
    AllNormalised(n, files, ts, w.threads) && HasDigests(w.unique, w.threads) && ListsAll(w.contents, w.threads)
  }

  lemma OneMoreListed(w: Work, bundle: ThreadBundle, c: Content)
    requires HasDigests(w.unique, w.threads) && ListsAll(w.contents, w.threads) && Lists(c, bundle)
    ensures HasDigests(w.unique + {c.logicalSha256}, w.threads + [bundle])
    ensures ListsAll(w.contents[bundle.threadId := c], w.threads + [bundle])
  {
    var all := w.threads + [bundle];
    assert forall t :: t in all <==> t in w.threads || t == bundle;
  }

  lemma OneMoreNormalised(n: Normaliser, files: map<string, File>, done: seq<Scanned>, threads: seq<ThreadBundle>,
                          t: Scanned, bundle: ThreadBundle)
    requires AllNormalised(n, files, done, threads)
    requires Normalisable(n, files, t) && IsNormalised(n, files, t, bundle)
    ensures AllNormalised(n, files, done + [t], threads + [bundle])
  {
  }

  lemma OneMoreReturned(n: Normaliser, files: map<string, File>, done: seq<Scanned>, w: Work, t: Scanned)
    requires Returned(n, files, done, w) && w.failed.None?
    ensures Recompute(n, files, w, t).failed.None? <==> Normalisable(n, files, t)
    ensures Normalisable(n, files, t) ==> Returned(n, files, done + [t], Recompute(n, files, w, t))
  {
    if Normalisable(n, files, t) {
      var c := ContentFor(t, n.run(files[t.source].bytes, t.template.threadId));
      OneMoreNormalised(n, files, done, w.threads, t, BundleWith(t, c));
      OneMoreListed(w, BundleWith(t, c), c);
    }
  }

  ghost predicate AllNormalisable(n: Normaliser, files: map<string, File>, ts: seq<Scanned>) {
    forall i :: 0 <= i < |ts| ==> Normalisable(n, files, ts[i])
  }

  lemma FirstNormalisable(n: Normaliser, files: map<string, File>, ts: seq<Scanned>)
    requires ts != []
    ensures AllNormalisable(n, files, ts) <==> Normalisable(n, files, ts[0]) && AllNormalisable(n, files, ts[1..])
  {
    assert forall i :: 1 <= i < |ts| ==> ts[i] == ts[1..][i - 1];
  }

  lemma RecomputeNext(n: Normaliser, files: map<string, File>, w: Work, ts: seq<Scanned>)
    requires ts != [] && w.failed.None?
    ensures var next := Recompute(n, files, w, ts[0]);
      RecomputeAll(n, files, w, ts) == if next.failed.Some? then next else RecomputeAll(n, files, next, ts[1..])
  {
  }

  /** One turn of that loop. */
  lemma NextReturned(n: Normaliser, files: map<string, File>, done: seq<Scanned>, w: Work, ts: seq<Scanned>)
    returns (next: Work)
    requires Returned(n, files, done, w) && w.failed.None? && ts != []
    ensures RecomputeAll(n, files, w, ts) == if next.failed.Some? then next else RecomputeAll(n, files, next, ts[1..])
    ensures next.failed.None? ==> Returned(n, files, done + [ts[0]], next)
    ensures AllNormalisable(n, files, ts) <==> next.failed.None? && AllNormalisable(n, files, ts[1..])
  {
    next := Recompute(n, files, w, ts[0]);
    RecomputeNext(n, files, w, ts);
    OneMoreReturned(n, files, done, w, ts[0]);
    FirstNormalisable(n, files, ts);
  }

  lemma {:induction false} AllReturned(n: Normaliser, files: map<string, File>, done: seq<Scanned>, w: Work,
                                       ts: seq<Scanned>)
    requires Returned(n, files, done, w) && w.failed.None?
    ensures RecomputeAll(n, files, w, ts).failed.None? <==> AllNormalisable(n, files, ts)
    ensures AllNormalisable(n, files, ts) ==> Returned(n, files, done + ts, RecomputeAll(n, files, w, ts))
    decreases |ts|
  {
    if ts == [] {
      assert done + ts == done;
    } else {
      var next := NextReturned(n, files, done, w, ts);
      if next.failed.None? {
        AllReturned(n, files, done + [ts[0]], next, ts[1..]);
        assert done + [ts[0]] + ts[1..] == done + ts;
      }
    }
  }

  /** With an index that tells the truth, a preparation succeeds exactly if every rollout is there and can be
      normalised; it then returns the threads in the order scanned, each with what normalising its rollout gives, counts
      the different digests among them, and adds up their sizes. */
  lemma PreparationNormalises(n: Normaliser, history: History, files: map<string, File>, index: map<string, Entry>,
                              store: set<string>, ts: seq<Scanned>, scanWarnings: nat)
    requires n.Installs() && Honest(history, files) && IndexOk(n, history, index)
    ensures var w := TakeAll(n, files, Start(index, store), ts);
      && (w.failed.None? <==> AllNormalisable(n, files, ts))
      && (w.failed.None? ==>
            var prepared := Summary(w, scanWarnings);
            && AllNormalised(n, files, ts, prepared.threads)
            && ListsAll(prepared.contents, prepared.threads)
            && prepared.objectCount == |set t | t in prepared.threads :: t.rollout.sha256|
            && prepared.warningCount == scanWarnings + w.warnings)
  {
    var first := Start(index, store);
    var w := TakeAll(n, files, first, ts);
    IndexAgreesWithRecomputation(n, history, files, first, first, ts);
    AllReturned(n, files, [], first, ts);
    assert [] + ts == ts;
    if w.failed.None? {
      assert w.unique == set t | t in w.threads :: t.rollout.sha256;
    }
  }

  /** The total is what the sizes of the threads come to, in any grouping. */
  lemma {:induction false} TotalAddsUp(a: seq<ThreadBundle>, b: seq<ThreadBundle>)
    ensures TotalBytes(a + b) == TotalBytes(a) + TotalBytes(b)
    ensures |a| == 1 ==> TotalBytes(a) == a[0].rollout.byteLength
  {
    assert |a| == 1 ==> a[..0] == [];
    if b == [] {
      assert a + b == a;
    } else {
      assert (a + b)[..|a + b| - 1] == a + b[..|b| - 1];
      TotalAddsUp(a, b[..|b| - 1]);
    }
  }

  // ---------- what the index saves ----------

  /** The index remembers the rollout of `t` as it is now, and its objects are there. */
  ghost predicate Remembers(n: Normaliser, files: map<string, File>, index: map<string, Entry>, store: set<string>,
                            t: Scanned) {
    t.source in files && Remembered(index, store, n, files[t.source], t).Some?
  }

  ghost predicate DistinctSources(ts: seq<Scanned>) {
    forall i, j :: 0 <= i < j < |ts| ==> ts[i].source != ts[j].source
  }

  lemma FailureIsFinal(n: Normaliser, files: map<string, File>, w: Work, ts: seq<Scanned>)
    ensures w.failed.Some? ==> TakeAll(n, files, w, ts) == w
  {
  }

  /** The loop adds objects to the store and replaces only the entries of the rollouts it goes through. */
  lemma {:induction false} LoopOnlyAdds(n: Normaliser, files: map<string, File>, w: Work, ts: seq<Scanned>,
                                        path: string)
    ensures w.store <= TakeAll(n, files, w, ts).store
    ensures (forall t :: t in ts ==> t.source != path) ==>
      (path in TakeAll(n, files, w, ts).index <==> path in w.index)
      && (path in w.index ==> TakeAll(n, files, w, ts).index[path] == w.index[path])
    decreases |ts|
  {
    if ts != [] && w.failed.None? {
      assert ts[0] in ts && forall t :: t in ts[1..] ==> t in ts;
      LoopOnlyAdds(n, files, Take(n, files, w, ts[0]), ts[1..], path);
    }
  }

  lemma TakeRemembers(n: Normaliser, files: map<string, File>, w: Work, t: Scanned)
    requires n.Installs() && Take(n, files, w, t).failed.None?
    ensures Remembers(n, files, Take(n, files, w, t).index, Take(n, files, w, t).store, t)
  {
  }

  /** After a successful preparation of threads with distinct rollouts, the index remembers all of them. */
  lemma {:induction false} PreparationRemembers(n: Normaliser, files: map<string, File>, w: Work, ts: seq<Scanned>)
    requires n.Installs() && DistinctSources(ts) && w.failed.None?
    requires TakeAll(n, files, w, ts).failed.None?
    ensures forall t :: t in ts ==>
        Remembers(n, files, TakeAll(n, files, w, ts).index, TakeAll(n, files, w, ts).store, t)
    decreases |ts|
  {
    if ts != [] {
      var next := Take(n, files, w, ts[0]);
      FailureIsFinal(n, files, next, ts[1..]);
      TakeRemembers(n, files, w, ts[0]);
      LoopOnlyAdds(n, files, next, ts[1..], ts[0].source);
      PreparationRemembers(n, files, next, ts[1..]);
      assert ts == [ts[0]] + ts[1..];
    }
  }

  /** The entry says what was normalised, at which size and time, and what was seen of provider and workspace. */
  ghost predicate IsEntryFor(e: Entry, t: Scanned, file: File, bundle: ThreadBundle) {
    && e.threadId == Some(t.template.threadId) && e.byteLength == |file.bytes| && e.modified == file.modified
    && e.normalizedSha256 == bundle.rollout.sha256 && e.normalizedByteLength == bundle.rollout.byteLength
    && Some(e.storage) == bundle.rollout.storage
    && e.observedProvider == bundle.modelProvider && e.observedWorkspacePath == bundle.workspace.sourcePath
  }

  /** One turn of a loop that succeeds. */
  lemma NextTaken(n: Normaliser, files: map<string, File>, w: Work, ts: seq<Scanned>) returns (next: Work)
    requires ts != [] && w.failed.None? && TakeAll(n, files, w, ts).failed.None?
    ensures next.failed.None? && TakeAll(n, files, w, ts) == TakeAll(n, files, next, ts[1..])
    ensures |next.threads| == |w.threads| + 1 && w.threads <= next.threads
    ensures ts[0].source in files && ts[0].source in next.index
    ensures IsEntryFor(next.index[ts[0].source], ts[0], files[ts[0].source], next.threads[|w.threads|])
  {
    next := Take(n, files, w, ts[0]);
    FailureIsFinal(n, files, next, ts[1..]);
  }

  /** After a successful preparation of threads with distinct rollouts the index has an entry for each of them. */
  lemma {:induction false} PreparationRecords(n: Normaliser, files: map<string, File>, w: Work, ts: seq<Scanned>,
                                              i: nat)
    requires DistinctSources(ts) && w.failed.None? && i < |ts|
    requires TakeAll(n, files, w, ts).failed.None?
    ensures var done := TakeAll(n, files, w, ts);
      && |done.threads| == |w.threads| + |ts|
      && ts[i].source in files && ts[i].source in done.index
      && IsEntryFor(done.index[ts[i].source], ts[i], files[ts[i].source], done.threads[|w.threads| + i])
    decreases |ts|
  {
    var next := NextTaken(n, files, w, ts);
    ThreadsGrow(n, files, next, ts[1..]);
    if i > 0 {
      PreparationRecords(n, files, next, ts[1..], i - 1);
    } else {
      LoopOnlyAdds(n, files, next, ts[1..], ts[0].source);
    }
  }

  lemma {:induction false} ThreadsGrow(n: Normaliser, files: map<string, File>, w: Work, ts: seq<Scanned>)
    requires TakeAll(n, files, w, ts).failed.None? && w.failed.None?
    ensures w.threads <= TakeAll(n, files, w, ts).threads
    ensures |TakeAll(n, files, w, ts).threads| == |w.threads| + |ts|
    decreases |ts|
  {
    if ts != [] {
      var next := NextTaken(n, files, w, ts);
      ThreadsGrow(n, files, next, ts[1..]);
    }
  }

  /** While nothing changes, going through remembered rollouts opens none of them, adds no warning and keeps the index's
      memory of them. */
  lemma {:induction false} RememberedIsNotOpened(n: Normaliser, files: map<string, File>, w: Work, ts: seq<Scanned>)
    requires DistinctSources(ts) && w.failed.None?
    requires forall t :: t in ts ==> Remembers(n, files, w.index, w.store, t)
    ensures var done := TakeAll(n, files, w, ts);
      done.failed.None? && done.reread == w.reread && done.warnings == w.warnings && done.store == w.store
    decreases |ts|
  {
    if ts != [] {
      assert Remembers(n, files, w.index, w.store, ts[0]);
      var next := Take(n, files, w, ts[0]);
      forall t | t in ts[1..] ensures Remembers(n, files, next.index, next.store, t) {
        assert Remembers(n, files, w.index, w.store, t);
        assert t.source != ts[0].source;
      }
      RememberedIsNotOpened(n, files, next, ts[1..]);
    }
  }

  /** So preparing again right after a successful preparation reads no rollout, and reports no normalisation warning
      although the first run may have. */
  lemma SecondRunOpensNothing(n: Normaliser, files: map<string, File>, index: map<string, Entry>, store: set<string>,
                              ts: seq<Scanned>)
    requires n.Installs() && DistinctSources(ts)
    requires TakeAll(n, files, Start(index, store), ts).failed.None?
    ensures var once := TakeAll(n, files, Start(index, store), ts);
      var twice := TakeAll(n, files, Start(once.index, once.store), ts);
      twice.failed.None? && twice.reread == [] && twice.warnings == 0 && twice.store == once.store
  {
    PreparationRemembers(n, files, Start(index, store), ts);
    var once := TakeAll(n, files, Start(index, store), ts);
    RememberedIsNotOpened(n, files, Start(once.index, once.store), ts);
  }

  /** The assumption is needed: an edit that keeps length and time goes unnoticed, and the thread keeps the digest of
      the old content although normalising the new one would give another. */
  lemma SameStampGoesUnnoticed(n: Normaliser, t: Scanned, was: File, now: File, store: set<string>)
    requires n.Installs() && |was.bytes| == |now.bytes| && was.modified == now.modified
    requires n.run(was.bytes, t.template.threadId).Done? && n.run(now.bytes, t.template.threadId).Done?
    requires n.run(was.bytes, t.template.threadId).sha256 != n.run(now.bytes, t.template.threadId).sha256
    ensures var once := Take(n, map[t.source := was], Start(map[], store), t);
      var first := Start(once.index, once.store);
      var indexed, recomputed := Take(n, map[t.source := now], first, t), Recompute(n, map[t.source := now], first, t);
      && indexed.failed.None? && recomputed.failed.None?
      && indexed.threads == once.threads
      && indexed.threads[0].rollout.sha256 != recomputed.threads[0].rollout.sha256
  {
  }
}
