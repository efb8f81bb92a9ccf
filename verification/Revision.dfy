/** Revision payloads, their canonical bytes, and what a revision id therefore identifies. */
module Revision {
  import opened Basics
  import opened KeyedLists
  import opened Json
  import opened Order
  import opened Threads
  import opened ThreadSets
  import opened Staging
  import opened CanonicalJson

  const REVISION_SCHEMA_VERSION: nat := 1
  const THREAD_BUNDLE_SCHEMA_VERSION: nat := 1

  /** A namespace id is the 36-character text of a UUID. */
  datatype Payload = Payload(
    schemaVersion: nat, namespaceId: string, parentRevision: Option<string>, createdAt: string,
    threads: seq<ThreadBundle>, warningCount: nat)

  datatype Error =
    | UnsupportedRevisionSchema
    | InvalidNamespaceId
    | InvalidParentRevision
    | InvalidCreatedAt
    | EmptyThread
    | UnsupportedThreadSchema
    | InvalidObjectHash
    | EmptyObjectMediaType
    | DuplicateThreadId

  // ---------- validation ----------

  /** `sha256:` and 64 lowercase hexadecimal digits. */
  predicate IsSha256(s: string) {
    && |s| == 71
    && s[..7] == "sha256:"
    && forall c :: c in s[7..] ==> '0' <= c <= '9' || 'a' <= c <= 'f'
  }

  function ContentProblem(c: ContentObject): Option<Error> {
    if !IsSha256(c.sha256) then Some(InvalidObjectHash)
    else if Blank(c.mediaType) then Some(EmptyObjectMediaType)
    else None
  }

  predicate ThreadOk(t: ThreadBundle) {
    && !Blank(t.threadId)
    && t.schemaVersion == THREAD_BUNDLE_SCHEMA_VERSION
    && ContentProblem(t.rollout).None?
    && forall a :: a in t.attachments ==> ContentProblem(a).None?
  }

  predicate UuidVersion7(id: string) {
    |id| == 36 && id[14] == '7'
  }

  /** What a valid payload is; `isRfc3339` stands for the date parser. */
  predicate Valid(p: Payload, isRfc3339: string -> bool) {
    && p.schemaVersion == REVISION_SCHEMA_VERSION
    && UuidVersion7(p.namespaceId)
    && (p.parentRevision.Some? ==> IsSha256(p.parentRevision.value))
    && isRfc3339(p.createdAt)
    && (forall t :: t in p.threads ==> ThreadOk(t))
    && DistinctIds(p.threads)
  }

  method ThreadProblem(t: ThreadBundle) returns (problem: Option<Error>)
    ensures problem.None? <==> ThreadOk(t)
    ensures problem == Some(EmptyThread) <==> Blank(t.threadId)
    ensures problem == Some(UnsupportedThreadSchema) <==> !Blank(t.threadId) && t.schemaVersion != 1
    ensures problem.Some? ==>
      problem.value in {EmptyThread, UnsupportedThreadSchema, InvalidObjectHash, EmptyObjectMediaType}
  {
    if Blank(t.threadId) {
      return Some(EmptyThread);
    }
    if t.schemaVersion != THREAD_BUNDLE_SCHEMA_VERSION {
      return Some(UnsupportedThreadSchema);
    }
    problem := ContentProblem(t.rollout);
    if problem.Some? {
      return;
    }
    var i := 0;
    while i < |t.attachments|
      invariant 0 <= i <= |t.attachments|
      invariant forall j :: 0 <= j < i ==> ContentProblem(t.attachments[j]).None?
    {
      problem := ContentProblem(t.attachments[i]);
      if problem.Some? {
        return;
      }
      i := i + 1;
    }
    return None;
  }

  /** `RevisionPayload::validate`. */
  method Validate(p: Payload, isRfc3339: string -> bool) returns (problem: Option<Error>)
    ensures problem.None? <==> Valid(p, isRfc3339)
    ensures problem == Some(UnsupportedRevisionSchema) <==> p.schemaVersion != 1
    ensures p.schemaVersion == 1 ==>
      (problem == Some(InvalidNamespaceId) <==> !(|p.namespaceId| == 36 && p.namespaceId[14] == '7'))
    ensures problem == Some(InvalidParentRevision) ==>
      p.parentRevision.Some? && !IsSha256(p.parentRevision.value)
    ensures problem == Some(InvalidCreatedAt) ==> !isRfc3339(p.createdAt)
    ensures problem == Some(DuplicateThreadId) ==> !DistinctIds(p.threads)
  {
    if p.schemaVersion != REVISION_SCHEMA_VERSION {
      return Some(UnsupportedRevisionSchema);
    }
    if !UuidVersion7(p.namespaceId) {
      return Some(InvalidNamespaceId);
    }
    if p.parentRevision.Some? && !IsSha256(p.parentRevision.value) {
      return Some(InvalidParentRevision);
    }
    if !isRfc3339(p.createdAt) {
      return Some(InvalidCreatedAt);
    }
    problem := ThreadsProblem(p.threads);
  }

  /** The loop that fills the set of ids. */
  method ThreadsProblem(threads: seq<ThreadBundle>) returns (problem: Option<Error>)
    ensures problem.None? <==> (forall t :: t in threads ==> ThreadOk(t)) && DistinctIds(threads)
    ensures problem == Some(DuplicateThreadId) ==> !DistinctIds(threads)
    ensures problem.Some? ==> problem.value !in {UnsupportedRevisionSchema, InvalidNamespaceId, InvalidParentRevision,
      InvalidCreatedAt}
  {
    var ids: set<string> := {};
    var i := 0;
    while i < |threads|
      invariant 0 <= i <= |threads|
      invariant forall j :: 0 <= j < i ==> ThreadOk(threads[j])
      invariant DistinctIds(threads[..i]) && ids == ById(threads[..i]).Keys
    {
      assert threads[i] in threads;
      problem := ThreadProblem(threads[i]);
      if problem.Some? {
        return;
      }
      IdsGrow(threads, i, ids);
      if threads[i].threadId in ids {
        return Some(DuplicateThreadId);
      }
      ids := ids + {threads[i].threadId};
      i := i + 1;
    }
    assert threads[..i] == threads;
    return None;
  }

  lemma IdsGrow(threads: seq<ThreadBundle>, i: nat, ids: set<string>)
    requires i < |threads| && DistinctIds(threads[..i]) && ids == ById(threads[..i]).Keys
    ensures threads[i].threadId in ids ==> !DistinctIds(threads)
    ensures threads[i].threadId !in ids ==>
      DistinctIds(threads[..i + 1]) && ById(threads[..i + 1]).Keys == ids + {threads[i].threadId}
  {
    DistinctGrows(threads, i, ThreadId);
  }

  // ---------- the serialised form ----------

  function OptionalString(s: Option<string>): Value {
    if s.None? then Null else String(s.value)
  }

  function OptionalInt(i: Option<int>): Value {
    if i.None? then Null else Number(Int(i.value))
  }

  function StorageValue(s: StorageRef): Value {
    match s
    case Whole(sha256) => Object(map["kind" := String("whole"), "object_sha256" := String(sha256)])
    case Chunked(sha256) => Object(map["kind" := String("chunked"), "manifest_sha256" := String(sha256)])
  }

  /** The source path is not serialised, and the storage only when it is there. */
  function ContentValue(c: ContentObject): Value {
    var fields := map[
      "sha256" := String(c.sha256),
      "byteLength" := Number(Int(c.byteLength)),
      "mediaType" := String(c.mediaType),
      "logicalPath" := OptionalString(c.logicalPath)];
    Object(if c.storage.Some? then fields["storage" := StorageValue(c.storage.value)] else fields)
  }

  function WorkspaceValue(w: WorkspaceRef): Value {
    Object(map["logicalId" := OptionalString(w.logicalId), "sourcePath" := OptionalString(w.sourcePath)])
  }

  /** The source database is not serialised. */
  function RecordsValue(r: RelatedRecords): Value {
    Object(map["tables" := Object(map table | table in r.tables :: Array(r.tables[table]))])
  }

  function ContentValues(cs: seq<ContentObject>): (r: seq<Value>)
    ensures |r| == |cs| && forall i :: 0 <= i < |cs| ==> r[i] == ContentValue(cs[i])
  {
    seq(|cs|, i requires 0 <= i < |cs| => ContentValue(cs[i]))
  }

  function ThreadValue(t: ThreadBundle): Value {
    Object(map[
      "schemaVersion" := Number(Int(t.schemaVersion)),
      "threadId" := String(t.threadId),
      "title" := String(t.title),
      "archived" := Bool(t.archived),
      "createdAtMs" := OptionalInt(t.createdAtMs),
      "updatedAtMs" := OptionalInt(t.updatedAtMs),
      "modelProvider" := OptionalString(t.modelProvider),
      "workspace" := WorkspaceValue(t.workspace),
      "rollout" := ContentValue(t.rollout),
      "relatedRecords" := RecordsValue(t.relatedRecords),
      "attachments" := Array(ContentValues(t.attachments))])
  }

  function ThreadValues(ts: seq<ThreadBundle>): (r: seq<Value>)
    ensures |r| == |ts| && forall i :: 0 <= i < |ts| ==> r[i] == ThreadValue(ts[i])
  {
    seq(|ts|, i requires 0 <= i < |ts| => ThreadValue(ts[i]))
  }

  function PayloadValue(p: Payload): Value {
    Object(map[
      "schemaVersion" := Number(Int(p.schemaVersion)),
      "namespaceId" := String(p.namespaceId),
      "parentRevision" := OptionalString(p.parentRevision),
      "createdAt" := String(p.createdAt),
      "threads" := Array(ThreadValues(p.threads)),
      "warningCount" := Number(Int(p.warningCount))])
  }

  /** `normalized`: the threads sorted by id. */
  ghost function Normalized(p: Payload): Payload {
    p.(threads := Values(ById(p.threads)))
  }

  ghost function CanonicalRevision(p: Payload): string {
    Text(PayloadValue(Normalized(p)))
  }

  /** `canonical_revision_json`. */
  method CanonicalRevisionJson(p: Payload, isRfc3339: string -> bool) returns (bytes: Result<string, Error>)
    ensures bytes.Ok? <==> Valid(p, isRfc3339)
    ensures bytes.Ok? ==> bytes.value == CanonicalRevision(p)
  {
    var problem := Validate(p, isRfc3339);
    if problem.Some? {
      return Err(problem.value);
    }
    var threads := SortThreads(p.threads);
    var output := new Output();
    WriteCanonicalJson(PayloadValue(p.(threads := threads)), output);
    return Ok(output.text);
  }

  // ---------- what the bytes identify ----------

  function SerialisedContent(c: ContentObject): ContentObject {
    c.(sourcePath := None)
  }

  /** A bundle without the two paths that are not serialised. */
  function Serialised(t: ThreadBundle): (r: ThreadBundle)
    ensures r.threadId == t.threadId
  {
    t.(rollout := SerialisedContent(t.rollout),
       relatedRecords := t.relatedRecords.(sourceDatabase := None),
       attachments := seq(|t.attachments|, i requires 0 <= i < |t.attachments| => SerialisedContent(t.attachments[i])))
  }

  /** The same payload up to the order of the threads and the paths that are not serialised. */
  ghost predicate SameRevision(p: Payload, q: Payload) {
    && p.(threads := []) == q.(threads := [])
    && ById(p.threads).Keys == ById(q.threads).Keys
    && forall id :: id in ById(p.threads) ==> Serialised(ById(p.threads)[id]) == Serialised(ById(q.threads)[id])
  }

  lemma ContentInjective(c: ContentObject, d: ContentObject)
    ensures ContentValue(c) == ContentValue(d) <==> SerialisedContent(c) == SerialisedContent(d)
  {
    if ContentValue(c) == ContentValue(d) {
      var f, g := ContentValue(c).fields, ContentValue(d).fields;
      assert f["sha256"] == g["sha256"] && f["byteLength"] == g["byteLength"];
      assert f["mediaType"] == g["mediaType"] && f["logicalPath"] == g["logicalPath"];
      assert c.storage.Some? <==> "storage" in f;
      assert d.storage.Some? <==> "storage" in g;
      if c.storage.Some? {
        assert f["storage"] == g["storage"];
        StorageInjective(c.storage.value, d.storage.value);
      }
    }
  }

  lemma StorageInjective(a: StorageRef, b: StorageRef)
    requires StorageValue(a) == StorageValue(b)
    ensures a == b
  {
    var f, g := StorageValue(a).fields, StorageValue(b).fields;
    assert f["kind"] == g["kind"];
    if a.Whole? {
      assert f["object_sha256"] == g["object_sha256"];
    } else {
      assert f["manifest_sha256"] == g["manifest_sha256"];
    }
  }

  lemma RecordsInjective(r: RelatedRecords, q: RelatedRecords)
    ensures RecordsValue(r) == RecordsValue(q) <==> r.tables == q.tables
  {
    if RecordsValue(r) == RecordsValue(q) {
      var f, g := RecordsValue(r).fields["tables"].fields, RecordsValue(q).fields["tables"].fields;
      assert f == g;
      assert r.tables.Keys == f.Keys && q.tables.Keys == g.Keys;
      forall table | table in r.tables ensures r.tables[table] == q.tables[table] {
        assert f[table] == Array(r.tables[table]) && g[table] == Array(q.tables[table]);
      }
    }
  }

  lemma ContentsInjective(cs: seq<ContentObject>, ds: seq<ContentObject>)
    ensures ContentValues(cs) == ContentValues(ds) <==>
      |cs| == |ds| && forall i :: 0 <= i < |cs| ==> SerialisedContent(cs[i]) == SerialisedContent(ds[i])
  {
    if |cs| == |ds| {
      forall i | 0 <= i < |cs|
        ensures ContentValues(cs)[i] == ContentValues(ds)[i] <==> SerialisedContent(cs[i]) == SerialisedContent(ds[i])
      {
        ContentInjective(cs[i], ds[i]);
      }
    }
  }

  /** Everything `Serialised` keeps, field by field. */
  ghost predicate SameFieldsAs(t: ThreadBundle, u: ThreadBundle) {
    && t.schemaVersion == u.schemaVersion && t.threadId == u.threadId && t.title == u.title && t.archived == u.archived
    && t.createdAtMs == u.createdAtMs && t.updatedAtMs == u.updatedAtMs && t.modelProvider == u.modelProvider
    && t.workspace == u.workspace
    && ContentValue(t.rollout) == ContentValue(u.rollout)
    && RecordsValue(t.relatedRecords) == RecordsValue(u.relatedRecords)
    && ContentValues(t.attachments) == ContentValues(u.attachments)
  }

  lemma PlainFields(t: ThreadBundle)
    ensures var f := ThreadValue(t).fields;
      && "schemaVersion" in f && f["schemaVersion"] == Number(Int(t.schemaVersion))
      && "threadId" in f && f["threadId"] == String(t.threadId)
      && "title" in f && f["title"] == String(t.title)
      && "archived" in f && f["archived"] == Bool(t.archived)
  {
  }

  lemma OptionalFields(t: ThreadBundle)
    ensures var f := ThreadValue(t).fields;
      && "createdAtMs" in f && f["createdAtMs"] == OptionalInt(t.createdAtMs)
      && "updatedAtMs" in f && f["updatedAtMs"] == OptionalInt(t.updatedAtMs)
      && "modelProvider" in f && f["modelProvider"] == OptionalString(t.modelProvider)
  {
  }

  lemma NestedFields(t: ThreadBundle)
    ensures var f := ThreadValue(t).fields;
      && "workspace" in f && f["workspace"] == WorkspaceValue(t.workspace)
      && "rollout" in f && f["rollout"] == ContentValue(t.rollout)
      && "relatedRecords" in f && f["relatedRecords"] == RecordsValue(t.relatedRecords)
      && "attachments" in f && f["attachments"] == Array(ContentValues(t.attachments))
  {
  }

  lemma EqualPlainFields(t: ThreadBundle, u: ThreadBundle)
    requires ThreadValue(t) == ThreadValue(u)
    ensures t.schemaVersion == u.schemaVersion && t.threadId == u.threadId
    ensures t.title == u.title && t.archived == u.archived
  {
    PlainFields(t);
    PlainFields(u);
  }

  lemma EqualOptionalFields(t: ThreadBundle, u: ThreadBundle)
    requires ThreadValue(t) == ThreadValue(u)
    ensures t.createdAtMs == u.createdAtMs && t.updatedAtMs == u.updatedAtMs && t.modelProvider == u.modelProvider
  {
    OptionalFields(t);
    OptionalFields(u);
  }

  lemma EqualNestedFields(t: ThreadBundle, u: ThreadBundle)
    requires ThreadValue(t) == ThreadValue(u)
    ensures WorkspaceValue(t.workspace) == WorkspaceValue(u.workspace)
    ensures ContentValue(t.rollout) == ContentValue(u.rollout)
    ensures RecordsValue(t.relatedRecords) == RecordsValue(u.relatedRecords)
    ensures ContentValues(t.attachments) == ContentValues(u.attachments)
  {
    NestedFields(t);
    NestedFields(u);
  }

  lemma EqualValuesHaveSameFields(t: ThreadBundle, u: ThreadBundle)
    requires ThreadValue(t) == ThreadValue(u)
    ensures SameFieldsAs(t, u)
  {
    EqualPlainFields(t, u);
    EqualOptionalFields(t, u);
    EqualNestedFields(t, u);
    WorkspaceInjective(t.workspace, u.workspace);
  }

  lemma WorkspaceInjective(v: WorkspaceRef, w: WorkspaceRef)
    requires WorkspaceValue(v) == WorkspaceValue(w)
    ensures v == w
  {
    var f, g := WorkspaceValue(v).fields, WorkspaceValue(w).fields;
    assert f["logicalId"] == g["logicalId"] && f["sourcePath"] == g["sourcePath"];
  }

  lemma SameFieldsMeansSerialised(t: ThreadBundle, u: ThreadBundle)
    ensures SameFieldsAs(t, u) <==> Serialised(t) == Serialised(u)
  {
    ContentInjective(t.rollout, u.rollout);
    RecordsInjective(t.relatedRecords, u.relatedRecords);
    ContentsInjective(t.attachments, u.attachments);
    SameAttachments(t, u);
  }

  lemma SameAttachments(t: ThreadBundle, u: ThreadBundle)
    ensures Serialised(t).attachments == Serialised(u).attachments <==>
      |t.attachments| == |u.attachments|
      && forall i :: 0 <= i < |t.attachments|
          ==> SerialisedContent(t.attachments[i]) == SerialisedContent(u.attachments[i])
  {
    var a, b := Serialised(t).attachments, Serialised(u).attachments;
    assert forall i :: 0 <= i < |a| ==> a[i] == SerialisedContent(t.attachments[i]);
    assert forall i :: 0 <= i < |b| ==> b[i] == SerialisedContent(u.attachments[i]);
    if a == b {
      assert |a| == |b|;
      forall i | 0 <= i < |t.attachments| ensures SerialisedContent(t.attachments[i])
          == SerialisedContent(u.attachments[i]) {
        assert a[i] == b[i];
      }
    }
  }

  lemma ThreadInjective(t: ThreadBundle, u: ThreadBundle)
    ensures ThreadValue(t) == ThreadValue(u) <==> Serialised(t) == Serialised(u)
  {
    SameFieldsMeansSerialised(t, u);
    if ThreadValue(t) == ThreadValue(u) {
      EqualValuesHaveSameFields(t, u);
    }
  }

  lemma EqualPayloadValues(p: Payload, q: Payload)
    ensures PayloadValue(p) == PayloadValue(q) <==>
      p.(threads := []) == q.(threads := []) && ThreadValues(p.threads) == ThreadValues(q.threads)
  {
    if PayloadValue(p) == PayloadValue(q) {
      var f, g := PayloadValue(p).fields, PayloadValue(q).fields;
      assert f["schemaVersion"] == g["schemaVersion"] && f["namespaceId"] == g["namespaceId"];
      assert f["parentRevision"] == g["parentRevision"] && f["createdAt"] == g["createdAt"];
      assert f["threads"] == g["threads"] && f["warningCount"] == g["warningCount"];
    }
  }

  /** Lists of equal serialised threads, sorted by id, are lists over the same ids. */
  lemma EqualThreadLists(a: map<string, ThreadBundle>, b: map<string, ThreadBundle>)
    requires Keyed(a) && Keyed(b)
    ensures ThreadValues(Values(a)) == ThreadValues(Values(b)) <==>
      a.Keys == b.Keys && forall id :: id in a ==> Serialised(a[id]) == Serialised(b[id])
  {
    if ThreadValues(Values(a)) == ThreadValues(Values(b)) {
      EqualListsEqualMaps(a, b);
    }
    if a.Keys == b.Keys && forall id :: id in a ==> Serialised(a[id]) == Serialised(b[id]) {
      forall i | 0 <= i < |Values(a)| ensures ThreadValues(Values(a))[i] == ThreadValues(Values(b))[i] {
        ThreadInjective(Values(a)[i], Values(b)[i]);
      }
    }
  }

  lemma EqualListsEqualMaps(a: map<string, ThreadBundle>, b: map<string, ThreadBundle>)
    requires Keyed(a) && Keyed(b) && ThreadValues(Values(a)) == ThreadValues(Values(b))
    ensures a.Keys == b.Keys && forall id :: id in a ==> Serialised(a[id]) == Serialised(b[id])
  {
    var ids := InOrder(a.Keys);
    EqualListsEqualOrder(a, b);
    SameOrderSameKeys(a, b);
    forall id | id in a ensures Serialised(a[id]) == Serialised(b[id]) {
      assert id in ids;
      var i :| 0 <= i < |ids| && ids[i] == id;
      EqualAt(a, b, i);
    }
  }

  lemma EqualAt(a: map<string, ThreadBundle>, b: map<string, ThreadBundle>, i: nat)
    requires Keyed(a) && Keyed(b) && ThreadValues(Values(a)) == ThreadValues(Values(b)) && i < |Values(a)|
    ensures i < |Values(b)|
    ensures Serialised(Values(a)[i]) == Serialised(Values(b)[i])
    ensures InOrder(a.Keys)[i] == InOrder(b.Keys)[i]
  {
    assert |ThreadValues(Values(a))| == |Values(a)| && |ThreadValues(Values(b))| == |Values(b)|;
    var t, u := Values(a)[i], Values(b)[i];
    assert ThreadValues(Values(a))[i] == ThreadValue(t) && ThreadValues(Values(b))[i] == ThreadValue(u);
    ThreadInjective(t, u);
    assert Serialised(t).threadId == t.threadId && Serialised(u).threadId == u.threadId;
  }

  lemma EqualListsEqualOrder(a: map<string, ThreadBundle>, b: map<string, ThreadBundle>)
    requires Keyed(a) && Keyed(b) && ThreadValues(Values(a)) == ThreadValues(Values(b))
    ensures InOrder(a.Keys) == InOrder(b.Keys)
  {
    assert |ThreadValues(Values(a))| == |Values(a)| && |ThreadValues(Values(b))| == |Values(b)|;
    forall i | 0 <= i < |InOrder(a.Keys)| ensures InOrder(a.Keys)[i] == InOrder(b.Keys)[i] {
      EqualAt(a, b, i);
    }
  }

  lemma SameOrderSameKeys(a: map<string, ThreadBundle>, b: map<string, ThreadBundle>)
    requires InOrder(a.Keys) == InOrder(b.Keys)
    ensures a.Keys == b.Keys
  {
  }

  /** Two payloads have the same canonical bytes, and so the same revision id, exactly when they are the same
      up to the order of their threads and the local paths that are not serialised. */
  lemma BytesIdentifyTheRevision(p: Payload, q: Payload)
    ensures CanonicalRevision(p) == CanonicalRevision(q) <==> SameRevision(p, q)
  {
    ByIdHoldsExactly(p.threads);
    ByIdHoldsExactly(q.threads);
    var x, y := Normalized(p), Normalized(q);
    if CanonicalRevision(p) == CanonicalRevision(q) {
      CanonicalJsonIsInjective(PayloadValue(x), PayloadValue(y));
    }
    EqualPayloadValues(x, y);
    EqualThreadLists(ById(p.threads), ById(q.threads));
    assert x.(threads := []) == p.(threads := []) && y.(threads := []) == q.(threads := []);
  }

  /** In particular the order in which a valid payload lists its threads does not matter. */
  lemma OrderDoesNotMatter(p: Payload, q: Payload)
    requires DistinctIds(p.threads) && DistinctIds(q.threads) && multiset(p.threads) == multiset(q.threads)
    requires p.(threads := []) == q.(threads := [])
    ensures CanonicalRevision(p) == CanonicalRevision(q)
  {
    assert forall t :: t in p.threads <==> t in multiset(p.threads);
    assert forall t :: t in q.threads <==> t in multiset(q.threads);
    SameElementsSameMap(p.threads, q.threads);
    BytesIdentifyTheRevision(p, q);
  }

  /** Not every difference shows: a payload whose thread was found at another path has the same bytes. */
  lemma LocalPathsDoNotShow(p: Payload, i: nat, path: Option<string>)
    requires i < |p.threads| && DistinctIds(p.threads)
    ensures CanonicalRevision(p.(threads := p.threads[i := Moved(p.threads[i], path)])) == CanonicalRevision(p)
  {
    var ts, moved := p.threads, Moved(p.threads[i], path);
    ReplaceOne(ts, i, moved);
    ByIdHoldsExactly(ts);
    assert ts[i] in ts && ById(ts)[moved.threadId] == ts[i];
    MovedSerialises(ts[i], path);
    var q := p.(threads := ts[i := moved]);
    assert SameRevision(q, p) by {
      forall id | id in ById(q.threads) ensures Serialised(ById(q.threads)[id]) == Serialised(ById(p.threads)[id]) {
        assert id != moved.threadId ==> ById(q.threads)[id] == ById(p.threads)[id];
      }
    }
    BytesIdentifyTheRevision(q, p);
  }

  lemma MovedSerialises(t: ThreadBundle, path: Option<string>)
    ensures Serialised(Moved(t, path)) == Serialised(t)
  {
  }

  function Moved(t: ThreadBundle, path: Option<string>): ThreadBundle {
    t.(rollout := t.rollout.(sourcePath := path))
  }

  lemma {:induction false} ReplaceOne(ts: seq<ThreadBundle>, i: nat, t: ThreadBundle)
    requires i < |ts| && DistinctIds(ts) && t.threadId == ts[i].threadId
    ensures ById(ts[i := t]) == ById(ts)[t.threadId := t]
  {
    var front, last := ts[..|ts| - 1], ts[|ts| - 1];
    if i == |ts| - 1 {
      assert ts[i := t][..|ts| - 1] == front;
    } else {
      assert ts[i := t][..|ts| - 1] == front[i := t];
      ReplaceOne(front, i, t);
    }
  }

  /** A view has none of the paths that are not serialised, so its serialised form, and with it the semantic hash,
      determines it completely. */
  lemma ViewsSerialiseFaithfully(t: ThreadBundle, u: ThreadBundle)
    ensures ThreadValue(RemoteView(t)) == ThreadValue(RemoteView(u)) <==> RemoteView(t) == RemoteView(u)
  {
    ThreadInjective(RemoteView(t), RemoteView(u));
    ViewIsSerialised(t);
    ViewIsSerialised(u);
  }

  lemma ViewIsSerialised(t: ThreadBundle)
    ensures Serialised(RemoteView(t)) == RemoteView(t)
  {
  }
}
