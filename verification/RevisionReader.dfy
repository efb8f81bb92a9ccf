/** Reading a revision payload back from its canonical bytes, field by field. */
module RevisionReader {
  import opened Basics
  import opened Json
  import opened Threads
  import opened ThreadSets
  import opened CanonicalJson
  import opened JsonReader
  import opened Revision

  type Fields = map<string, Value>

  // ---------- the fields ----------

  function ReadText(f: Fields, key: string): Option<string> {
    if key in f && f[key].String? then Some(f[key].text) else None
  }

  /** An optional field: `Some(None)` where it is null or missing, `None` where it has another type. */
  function ReadOptionalText(f: Fields, key: string): Option<Option<string>> {
    if key !in f || f[key].Null? then Some(None)
    else if f[key].String? then Some(Some(f[key].text))
    else None
  }

  function ReadNatural(f: Fields, key: string): Option<nat> {
    if key in f && f[key].Number? && f[key].number.Int? && f[key].number.value >= 0 then Some(f[key].number.value)
    else None
  }

  function ReadOptionalInt(f: Fields, key: string): Option<Option<int>> {
    if key !in f || f[key].Null? then Some(None)
    else if f[key].Number? && f[key].number.Int? then Some(Some(f[key].number.value))
    else None
  }

  function ReadFlag(f: Fields, key: string): Option<bool> {
    if key !in f then None
    else
      match f[key]
      case Bool(b) => Some(b)
      case _ => None
  }

  function ReadList(f: Fields, key: string): Option<seq<Value>> {
    if key in f && f[key].Array? then Some(f[key].items) else None
  }

  function ReadObject(f: Fields, key: string): Option<Fields> {
    if key in f && f[key].Object? then Some(f[key].fields) else None
  }

  // ---------- the records ----------

  function ReadStorage(v: Value): Option<StorageRef> {
    if !v.Object? then None
    else
      var kind, whole, manifest :=
        ReadText(v.fields, "kind"), ReadText(v.fields, "object_sha256"), ReadText(v.fields, "manifest_sha256");
      if kind == Some("whole") && whole.Some? then Some(Whole(whole.value))
      else if kind == Some("chunked") && manifest.Some? then Some(Chunked(manifest.value))
      else None
  }

  function ReadOptionalStorage(f: Fields, key: string): Option<Option<StorageRef>> {
    if key !in f || f[key].Null? then Some(None)
    else
      var storage := ReadStorage(f[key]);
      if storage.None? then None else Some(storage)
  }

  function ReadContent(v: Value): Option<ContentObject> {
    if !v.Object? then None
    else
      var sha256, length := ReadText(v.fields, "sha256"), ReadNatural(v.fields, "byteLength");
      var media, path := ReadText(v.fields, "mediaType"), ReadOptionalText(v.fields, "logicalPath");
      var storage := ReadOptionalStorage(v.fields, "storage");
      if sha256.None? || length.None? || media.None? || path.None? || storage.None? then None
      else Some(ContentObject(sha256.value, length.value, media.value, path.value, None, storage.value))
  }

  function ReadContents(items: seq<Value>): Option<seq<ContentObject>> {
    if items == [] then Some([])
    else
      var first, rest := ReadContent(items[0]), ReadContents(items[1..]);
      if first.None? || rest.None? then None else Some([first.value] + rest.value)
  }

  function ReadWorkspace(f: Fields): Option<WorkspaceRef> {
    var id, path := ReadOptionalText(f, "logicalId"), ReadOptionalText(f, "sourcePath");
    if id.None? || path.None? then None else Some(WorkspaceRef(id.value, path.value))
  }

  function ReadRecords(f: Fields): Option<RelatedRecords> {
    var tables := ReadObject(f, "tables");
    if tables.None? || exists t :: t in tables.value && !tables.value[t].Array? then None
    else Some(RelatedRecords(None, map t | t in tables.value && tables.value[t].Array? :: tables.value[t].items))
  }

  /** The fields of a thread that are texts, numbers and flags. */
  function ReadPlain(f: Fields, workspace: WorkspaceRef, rollout: ContentObject, records: RelatedRecords,
                     attachments: seq<ContentObject>): Option<ThreadBundle> {
    var schema, id, title := ReadNatural(f, "schemaVersion"), ReadText(f, "threadId"), ReadText(f, "title");
    var archived, created := ReadFlag(f, "archived"), ReadOptionalInt(f, "createdAtMs");
    var updated, provider := ReadOptionalInt(f, "updatedAtMs"), ReadOptionalText(f, "modelProvider");
    if schema.None? || id.None? || title.None? || archived.None? || created.None? || updated.None?
       || provider.None? then None
    else
      Some(ThreadBundle(schema.value, id.value, title.value, archived.value, created.value, updated.value,
                        provider.value, workspace, rollout, records, attachments))
  }

  function ReadThread(v: Value): Option<ThreadBundle> {
    if !v.Object? then None
    else
      var f := v.fields;
      var workspace, records := ReadObject(f, "workspace"), ReadObject(f, "relatedRecords");
      var attachments := ReadList(f, "attachments");
      if workspace.None? || records.None? || attachments.None? || "rollout" !in f then None
      else
        var w, r, c := ReadWorkspace(workspace.value), ReadRecords(records.value), ReadContent(f["rollout"]);
        var a := ReadContents(attachments.value);
        if w.None? || r.None? || c.None? || a.None? then None
        else ReadPlain(f, w.value, c.value, r.value, a.value)
  }

  function ReadThreads(items: seq<Value>): Option<seq<ThreadBundle>> {
    if items == [] then Some([])
    else
      var first, rest := ReadThread(items[0]), ReadThreads(items[1..]);
      if first.None? || rest.None? then None else Some([first.value] + rest.value)
  }

  function ReadPayload(v: Value): Option<Payload> {
    if !v.Object? then None
    else
      var f := v.fields;
      var schema, id, parent :=
        ReadNatural(f, "schemaVersion"), ReadText(f, "namespaceId"), ReadOptionalText(f, "parentRevision");
      var created, list, warnings := ReadText(f, "createdAt"), ReadList(f, "threads"), ReadNatural(f, "warningCount");
      if schema.None? || id.None? || parent.None? || created.None? || list.None? || warnings.None? then None
      else
        var threads := ReadThreads(list.value);
        if threads.None? then None
        else Some(Payload(schema.value, id.value, parent.value, created.value, threads.value, warnings.value))
  }

  // ---------- the round trip ----------

  lemma StorageRoundTrip(s: StorageRef)
    ensures ReadStorage(StorageValue(s)) == Some(s)
  {
  }

  lemma ContentRoundTrip(c: ContentObject)
    ensures ReadContent(ContentValue(c)) == Some(SerialisedContent(c))
  {
    if c.storage.Some? {
      StorageRoundTrip(c.storage.value);
    }
  }

  ghost function SerialisedContents(cs: seq<ContentObject>): (r: seq<ContentObject>)
    ensures |r| == |cs| && forall i :: 0 <= i < |cs| ==> r[i] == SerialisedContent(cs[i])
  {
    seq(|cs|, i requires 0 <= i < |cs| => SerialisedContent(cs[i]))
  }

  lemma {:induction false} ContentsRoundTrip(cs: seq<ContentObject>)
    ensures ReadContents(ContentValues(cs)) == Some(SerialisedContents(cs))
  {
    if cs != [] {
      ContentRoundTrip(cs[0]);
      ContentsRoundTrip(cs[1..]);
      assert ContentValues(cs)[1..] == ContentValues(cs[1..]);
      assert SerialisedContents(cs) == [SerialisedContent(cs[0])] + SerialisedContents(cs[1..]);
    }
  }

  lemma WorkspaceRoundTrip(w: WorkspaceRef)
    ensures WorkspaceValue(w).Object? && ReadWorkspace(WorkspaceValue(w).fields) == Some(w)
  {
  }

  lemma RecordsRoundTrip(r: RelatedRecords)
    ensures RecordsValue(r).Object? && ReadRecords(RecordsValue(r).fields) == Some(r.(sourceDatabase := None))
  {
    var tables := ReadObject(RecordsValue(r).fields, "tables").value;
    assert forall t :: t in tables ==> tables[t] == Array(r.tables[t]);
    assert (map t | t in tables && tables[t].Array? :: tables[t].items) == r.tables;
  }

  lemma PlainRoundTrip(t: ThreadBundle, workspace: WorkspaceRef, rollout: ContentObject, records: RelatedRecords,
                       attachments: seq<ContentObject>)
    ensures ReadPlain(ThreadValue(t).fields, workspace, rollout, records, attachments)
         == Some(t.(workspace := workspace, rollout := rollout, relatedRecords := records, attachments := attachments))
  {
    PlainFields(t);
    OptionalFields(t);
  }

  lemma ThreadRoundTrip(t: ThreadBundle)
    ensures ReadThread(ThreadValue(t)) == Some(Serialised(t))
  {
    var f := ThreadValue(t).fields;
    NestedFields(t);
    WorkspaceRoundTrip(t.workspace);
    RecordsRoundTrip(t.relatedRecords);
    ContentRoundTrip(t.rollout);
    ContentsRoundTrip(t.attachments);
    PlainRoundTrip(t, t.workspace, SerialisedContent(t.rollout), t.relatedRecords.(sourceDatabase := None),
                   SerialisedContents(t.attachments));
    assert ReadObject(f, "workspace") == Some(WorkspaceValue(t.workspace).fields);
    assert ReadObject(f, "relatedRecords") == Some(RecordsValue(t.relatedRecords).fields);
    assert ReadList(f, "attachments") == Some(ContentValues(t.attachments));
    assert Serialised(t).attachments == SerialisedContents(t.attachments);
  }

  ghost function SerialisedThreads(ts: seq<ThreadBundle>): (r: seq<ThreadBundle>)
    ensures |r| == |ts| && forall i :: 0 <= i < |ts| ==> r[i] == Serialised(ts[i])
  {
    seq(|ts|, i requires 0 <= i < |ts| => Serialised(ts[i]))
  }

  lemma OneMoreThread(items: seq<Value>, t: ThreadBundle, rest: seq<ThreadBundle>)
    requires items != [] && ReadThread(items[0]) == Some(t) && ReadThreads(items[1..]) == Some(rest)
    ensures ReadThreads(items) == Some([t] + rest)
  {
  }

  lemma ThreadValuesTail(ts: seq<ThreadBundle>)
    requires ts != []
    ensures ThreadValues(ts) != [] && ThreadValues(ts)[0] == ThreadValue(ts[0])
    ensures ThreadValues(ts)[1..] == ThreadValues(ts[1..])
  {
  }

  lemma SerialisedTail(ts: seq<ThreadBundle>)
    requires ts != []
    ensures SerialisedThreads(ts) == [Serialised(ts[0])] + SerialisedThreads(ts[1..])
  {
  }

  lemma {:induction false} ThreadsRoundTrip(ts: seq<ThreadBundle>)
    ensures ReadThreads(ThreadValues(ts)) == Some(SerialisedThreads(ts))
  {
    if ts != [] {
      ThreadRoundTrip(ts[0]);
      ThreadsRoundTrip(ts[1..]);
      ThreadValuesTail(ts);
      OneMoreThread(ThreadValues(ts), Serialised(ts[0]), SerialisedThreads(ts[1..]));
      SerialisedTail(ts);
    }
  }

  lemma PayloadFields(p: Payload)
    ensures var f := PayloadValue(p).fields;
      && ReadNatural(f, "schemaVersion") == Some(p.schemaVersion)
      && ReadText(f, "namespaceId") == Some(p.namespaceId)
      && ReadOptionalText(f, "parentRevision") == Some(p.parentRevision)
      && ReadText(f, "createdAt") == Some(p.createdAt)
      && ReadList(f, "threads") == Some(ThreadValues(p.threads))
      && ReadNatural(f, "warningCount") == Some(p.warningCount)
  {
  }

  lemma PayloadRoundTrip(p: Payload)
    ensures ReadPayload(PayloadValue(p)) == Some(p.(threads := SerialisedThreads(p.threads)))
  {
    PayloadFields(p);
    ThreadsRoundTrip(p.threads);
  }

  /** Reading the canonical bytes of a revision gives the payload, its threads in the order of their ids and without the
      local paths that are not written, provided the reader's limits and the floats in its rows hold. */
  lemma RevisionReadsBack(printed: Printed, p: Payload)
    requires JsonReader.Readable(PayloadValue(Normalized(p)), RECURSION_LIMIT)
    requires FloatsHold(printed, PayloadValue(Normalized(p)))
    ensures var v := Read(printed, CanonicalRevision(p));
      && v.Some?
      && ReadPayload(v.value) == Some(p.(threads := SerialisedThreads(Values(ById(p.threads)))))
  {
    ReadsBackExactly(printed, PayloadValue(Normalized(p)));
    PayloadRoundTrip(Normalized(p));
  }
}
