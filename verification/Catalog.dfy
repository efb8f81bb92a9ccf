/**
 The content behind digests and the checks that validating a revision graph performs.
 SHA-256 is taken to be injective, so a digest determines the bytes; `Catalog` records what they are.
 */
module Catalog {
  import opened Basics
  import opened ObjectGraph
  import opened Metadata

  datatype ThreadRef = ThreadRef(threadId: nat, descriptor: nat)

  datatype StorageRef = WholeObject(sha256: nat) | Chunked(manifest: nat)

  datatype ContentRef = ContentRef(logicalSha256: nat, byteLength: nat, storage: StorageRef)

  datatype ChunkRef = ChunkRef(sha256: nat, byteLength: nat)

  /** Bytes that parse as a valid canonical document of their kind, or bytes that do not. */
  datatype Content =
    | Blob
    | Manifest(logicalSha256: nat, byteLength: nat, chunks: seq<ChunkRef>)
    | Descriptor(threadId: nat, contents: seq<ContentRef>)
    | RevisionDocument(namespace: NamespaceId, parent: Option<RevisionId>, details: nat, threads: seq<ThreadRef>)

  datatype Bytes = Bytes(byteLength: nat, content: Content)

  type Contents = map<Obj, Bytes>

  function ContentOf(cat: Contents, o: Obj): Content {
    if o in cat then cat[o].content else Blob
  }

  function WholeObj(sha256: nat): Obj { Obj(Whole, sha256) }
  function ChunkObj(sha256: nat): Obj { Obj(Chunk, sha256) }
  function ManifestObj(sha256: nat): Obj { Obj(ChunkManifest, sha256) }
  function ThreadObj(sha256: nat): Obj { Obj(Thread, sha256) }

  // ----- the edges a document's content calls for -----

  function ChunkTargets(chunks: seq<ChunkRef>): (r: seq<Obj>)
    ensures |r| == |chunks|
    ensures forall i :: 0 <= i < |r| ==> r[i] == ChunkObj(chunks[i].sha256)
  {
    seq(|chunks|, i requires 0 <= i < |chunks| => ChunkObj(chunks[i].sha256))
  }

  function ContentTargets(cat: Contents, c: ContentRef): seq<Obj> {
    match c.storage
    case WholeObject(sha256) => [WholeObj(sha256)]
    case Chunked(manifest) =>
      var m := ContentOf(cat, ManifestObj(manifest));
      [ManifestObj(manifest)] + if m.Manifest? then ChunkTargets(m.chunks) else []
  }

  function ContentsTargets(cat: Contents, cs: seq<ContentRef>): seq<Obj> {
    if cs == [] then [] else ContentTargets(cat, cs[0]) + ContentsTargets(cat, cs[1..])
  }

  function DescriptorTargets(threads: seq<ThreadRef>): (r: seq<Obj>)
    ensures |r| == |threads|
    ensures forall i :: 0 <= i < |r| ==> r[i] == ThreadObj(threads[i].descriptor)
  {
    seq(|threads|, i requires 0 <= i < |threads| => ThreadObj(threads[i].descriptor))
  }

  function Targets(cat: Contents, o: Obj): seq<Obj> {
    match ContentOf(cat, o)
    case RevisionDocument(_, _, _, threads) => if o.kind == RevisionRoot then DescriptorTargets(threads) else []
    case Descriptor(_, contents) => if o.kind == Thread then ContentsTargets(cat, contents) else []
    case Manifest(_, _, chunks) => if o.kind == ChunkManifest then ChunkTargets(chunks) else []
    case Blob => []
  }

  function ContentEdges(cat: Contents): set<Edge> {
    set o, t | o in cat && t in Targets(cat, o) :: Edge(o, t)
  }

  /** The content graph of a revision: its root document and all it refers to, directly or not. */
  function ContentGraph(cat: Contents, root: nat): set<Obj> {
    Reach(ContentEdges(cat), {RootObject(root)})
  }

  lemma ContentEdge(cat: Contents, o: Obj, t: Obj)
    ensures Edge(o, t) in ContentEdges(cat) <==> t in Targets(cat, o)
  {
  }

  // ----- validation -----

  /** One step of `validate_revision_graph_v4`: find an object, replace its edges, or give up. */
  datatype Check =
    | Find(target: Obj, byteLength: Option<nat>)
    | Link(owner: Obj, targets: seq<Obj>)
    | Reject

  function ChunkChecks(chunks: seq<ChunkRef>): (r: seq<Check>)
    ensures |r| == |chunks|
    ensures forall i :: 0 <= i < |r| ==> r[i] == Find(ChunkObj(chunks[i].sha256), Some(chunks[i].byteLength))
  {
    seq(|chunks|, i requires 0 <= i < |chunks| => Find(ChunkObj(chunks[i].sha256), Some(chunks[i].byteLength)))
  }

  /** `validate_content_graph_v4`. */
  function ContentChecks(cat: Contents, c: ContentRef): seq<Check> {
    match c.storage
    case WholeObject(sha256) => [Find(WholeObj(sha256), Some(c.byteLength))]
    case Chunked(manifest) =>
      var o := ManifestObj(manifest);
      var m := ContentOf(cat, o);
      if m.Manifest? && m.logicalSha256 == c.logicalSha256 && m.byteLength == c.byteLength then
        [Find(o, None)] + ChunkChecks(m.chunks) + [Link(o, Targets(cat, o))]
      else
        [Find(o, None), Reject]
  }

  function ContentsChecks(cat: Contents, cs: seq<ContentRef>): seq<Check> {
    if cs == [] then [] else ContentChecks(cat, cs[0]) + ContentsChecks(cat, cs[1..])
  }

  function ThreadChecks(cat: Contents, t: ThreadRef): seq<Check> {
    var o := ThreadObj(t.descriptor);
    var d := ContentOf(cat, o);
    if d.Descriptor? && d.threadId == t.threadId then
      [Find(o, None)] + ContentsChecks(cat, d.contents) + [Link(o, Targets(cat, o))]
    else
      [Find(o, None), Reject]
  }

  function ThreadsChecks(cat: Contents, ts: seq<ThreadRef>): seq<Check> {
    if ts == [] then [] else ThreadChecks(cat, ts[0]) + ThreadsChecks(cat, ts[1..])
  }

  /** `validate_revision_graph_v4`. */
  function RootChecks(cat: Contents, root: nat): seq<Check> {
    var o := RootObject(root);
    var d := ContentOf(cat, o);
    if d.RevisionDocument? then
      [Find(o, None)] + ThreadsChecks(cat, d.threads) + [Link(o, Targets(cat, o))]
    else
      [Find(o, None), Reject]
  }

  // ----- the checks cover the content graph -----

  predicate Finds(checks: seq<Check>, o: Obj) {
    exists c :: c in checks && c.Find? && c.target == o
  }

  /** Every object found is either a leaf or linked, and its targets are found as well. */
  ghost predicate Covering(cat: Contents, checks: seq<Check>) {
    forall o :: Finds(checks, o) ==>
      && (Targets(cat, o) != [] ==> Link(o, Targets(cat, o)) in checks)
      && (forall t :: t in Targets(cat, o) ==> Finds(checks, t))
  }

  lemma CoveringConcat(cat: Contents, a: seq<Check>, b: seq<Check>)
    requires Covering(cat, a) && Covering(cat, b)
    ensures Covering(cat, a + b)
  {
    forall o | Finds(a + b, o)
      ensures Targets(cat, o) != [] ==> Link(o, Targets(cat, o)) in a + b
      ensures forall t :: t in Targets(cat, o) ==> Finds(a + b, t)
    {
      FindsConcat(a, b);
    }
  }

  lemma FindsConcat(a: seq<Check>, b: seq<Check>)
    ensures forall o :: Finds(a + b, o) <==> Finds(a, o) || Finds(b, o)
  {
    forall o ensures Finds(a + b, o) <==> Finds(a, o) || Finds(b, o) {
    }
  }

  lemma ContentCovers(cat: Contents, c: ContentRef)
    requires Reject !in ContentChecks(cat, c)
    ensures Covering(cat, ContentChecks(cat, c))
    ensures forall t :: t in ContentTargets(cat, c) ==> Finds(ContentChecks(cat, c), t)
  {
    var checks := ContentChecks(cat, c);
    match c.storage
    case WholeObject(sha256) =>
      assert checks[0] in checks;
    case Chunked(manifest) =>
      assert Reject in [Find(ManifestObj(manifest), None), Reject];
      ManifestCovers(cat, manifest, ContentOf(cat, ManifestObj(manifest)).chunks, checks);
  }

  lemma ManifestCovers(cat: Contents, manifest: nat, chunks: seq<ChunkRef>, checks: seq<Check>)
    requires var m := ContentOf(cat, ManifestObj(manifest)); m.Manifest? && m.chunks == chunks
    requires checks == [Find(ManifestObj(manifest), None)] + ChunkChecks(chunks)
                       + [Link(ManifestObj(manifest), Targets(cat, ManifestObj(manifest)))]
    ensures Covering(cat, checks)
    ensures forall t :: t in [ManifestObj(manifest)] + ChunkTargets(chunks) ==> Finds(checks, t)
  {
    assert checks[0] in checks && checks[|checks| - 1] in checks;
    forall i | 0 <= i < |chunks| ensures Finds(checks, ChunkObj(chunks[i].sha256)) {
      assert checks[i + 1] in checks;
    }
  }

  lemma {:induction false} ContentsCover(cat: Contents, cs: seq<ContentRef>)
    requires Reject !in ContentsChecks(cat, cs)
    ensures Covering(cat, ContentsChecks(cat, cs))
    ensures forall t :: t in ContentsTargets(cat, cs) ==> Finds(ContentsChecks(cat, cs), t)
  {
    if cs != [] {
      var a, b := ContentChecks(cat, cs[0]), ContentsChecks(cat, cs[1..]);
      assert forall x :: x in a || x in b ==> x in a + b;
      ContentCovers(cat, cs[0]);
      ContentsCover(cat, cs[1..]);
      CoveringConcat(cat, a, b);
      FindsConcat(a, b);
    }
  }

  lemma ThreadCovers(cat: Contents, t: ThreadRef)
    requires Reject !in ThreadChecks(cat, t)
    ensures Covering(cat, ThreadChecks(cat, t))
    ensures Finds(ThreadChecks(cat, t), ThreadObj(t.descriptor))
  {
    var o := ThreadObj(t.descriptor);
    var checks := ThreadChecks(cat, t);
    assert Reject in [Find(o, None), Reject];
    var inner := ContentsChecks(cat, ContentOf(cat, o).contents);
    assert checks == [Find(o, None)] + inner + [Link(o, Targets(cat, o))];
    assert forall x :: x in inner ==> x in checks;
    ContentsCover(cat, ContentOf(cat, o).contents);
    FindsWrapped(o, inner, Link(o, Targets(cat, o)));
    assert checks[|checks| - 1] in checks;
  }

  lemma FindsWrapped(o: Obj, inner: seq<Check>, last: Check)
    requires last.Link?
    ensures forall x :: Finds([Find(o, None)] + inner + [last], x) <==> x == o || Finds(inner, x)
  {
    var checks := [Find(o, None)] + inner + [last];
    assert checks[0] in checks;
    forall x ensures Finds(checks, x) <==> x == o || Finds(inner, x) {
    }
  }

  lemma {:induction false} ThreadsCover(cat: Contents, ts: seq<ThreadRef>)
    requires Reject !in ThreadsChecks(cat, ts)
    ensures Covering(cat, ThreadsChecks(cat, ts))
    ensures forall t :: t in ts ==> Finds(ThreadsChecks(cat, ts), ThreadObj(t.descriptor))
  {
    if ts != [] {
      var a, b := ThreadChecks(cat, ts[0]), ThreadsChecks(cat, ts[1..]);
      assert forall x :: x in a || x in b ==> x in a + b;
      ThreadCovers(cat, ts[0]);
      ThreadsCover(cat, ts[1..]);
      CoveringConcat(cat, a, b);
      FindsConcat(a, b);
    }
  }

  lemma RootCovers(cat: Contents, root: nat)
    requires Reject !in RootChecks(cat, root)
    ensures Covering(cat, RootChecks(cat, root))
    ensures Finds(RootChecks(cat, root), RootObject(root))
  {
    var o := RootObject(root);
    var checks := RootChecks(cat, root);
    assert Reject in [Find(o, None), Reject];
    var threads := ContentOf(cat, o).threads;
    var inner := ThreadsChecks(cat, threads);
    assert checks == [Find(o, None)] + inner + [Link(o, Targets(cat, o))];
    assert forall x :: x in inner ==> x in checks;
    ThreadsCover(cat, threads);
    FindsWrapped(o, inner, Link(o, Targets(cat, o)));
    assert checks[|checks| - 1] in checks;
  }

  lemma CoveringReaches(cat: Contents, checks: seq<Check>, o: Obj)
    requires Covering(cat, checks) && Finds(checks, o)
    ensures forall x :: x in Reach(ContentEdges(cat), {o}) ==> Finds(checks, x)
  {
    var found := set c | c in checks && c.Find? :: c.target;
    assert forall x :: x in found <==> Finds(checks, x);
    forall e | e in ContentEdges(cat) && e.owner in found ensures e.target in found {
      ContentEdge(cat, e.owner, e.target);
    }
    ReachLeast(ContentEdges(cat), {o}, found);
  }

  /** Validation looks at the whole content graph of the root it accepts, and at nothing it skips. */
  lemma ChecksCoverGraph(cat: Contents, root: nat)
    requires Reject !in RootChecks(cat, root)
    ensures forall o :: o in ContentGraph(cat, root) ==>
      && Finds(RootChecks(cat, root), o)
      && (Targets(cat, o) != [] ==> Link(o, Targets(cat, o)) in RootChecks(cat, root))
  {
    RootCovers(cat, root);
    CoveringReaches(cat, RootChecks(cat, root), RootObject(root));
  }
}
