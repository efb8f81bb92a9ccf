/** Thread bundles and the view of them that two machines have to agree on. */
module Threads {
  import opened Basics
  import opened Json

  datatype StorageRef = Whole(objectSha256: string) | Chunked(manifestSha256: string)

  datatype ContentObject = ContentObject(
    sha256: string, byteLength: nat, mediaType: string, logicalPath: Option<string>,
    sourcePath: Option<string>, storage: Option<StorageRef>)

  datatype WorkspaceRef = WorkspaceRef(logicalId: Option<string>, sourcePath: Option<string>)

  datatype RelatedRecords = RelatedRecords(sourceDatabase: Option<string>, tables: map<string, seq<Value>>)

  datatype ThreadBundle = ThreadBundle(
    schemaVersion: nat, threadId: string, title: string, archived: bool,
    createdAtMs: Option<int>, updatedAtMs: Option<int>, modelProvider: Option<string>,
    workspace: WorkspaceRef, rollout: ContentObject, relatedRecords: RelatedRecords,
    attachments: seq<ContentObject>)

  const MACHINE_FIELDS: set<string> := {"rollout_path", "codex_home", "model_provider", "cwd"}

  function PortableContent(c: ContentObject): ContentObject {
    c.(sourcePath := None, storage := None)
  }

  function UpdatedAtMs(row: map<string, Value>): Option<int> {
    if GetI64(row, "updated_at_ms").Some? then GetI64(row, "updated_at_ms")
    else CheckedMillis(GetI64(row, "updated_at"))
  }

  /** Drops columns that a newer local schema materialises with a default. */
  function WithoutDefaults(row: map<string, Value>): map<string, Value> {
    var recencyAt := GetI64(row, "recency_at");
    var recencyAtMs := GetI64(row, "recency_at_ms");
    row
    - (if recencyAt == Some(0) || recencyAt == GetI64(row, "updated_at") then {"recency_at"} else {})
    - (if recencyAtMs == Some(0) || recencyAtMs == UpdatedAtMs(row) then {"recency_at_ms"} else {})
    - (if "history_mode" in row && row["history_mode"] == String("legacy") then {"history_mode"} else {})
  }

  /** The columns that have a value and do not name this machine. */
  function Kept(fields: map<string, Value>): map<string, Value> {
    map k | k in fields && k !in MACHINE_FIELDS && fields[k] != Null :: fields[k]
  }

  function PortableRow(table: string, row: Value): Value {
    match row
    case Object(fields) =>
      Object(if table == "threads" then WithoutDefaults(Kept(fields)) else Kept(fields))
    case _ => row
  }

  function PortableRows(table: string, rows: seq<Value>): (r: seq<Value>)
    ensures |r| == |rows|
    ensures forall i :: 0 <= i < |rows| ==> r[i] == PortableRow(table, rows[i])
  {
    seq(|rows|, i requires 0 <= i < |rows| => PortableRow(table, rows[i]))
  }

  function PortableRecords(records: RelatedRecords): RelatedRecords {
    RelatedRecords(None, map t | t in records.tables :: PortableRows(t, records.tables[t]))
  }

  function PortableContents(contents: seq<ContentObject>): (r: seq<ContentObject>)
    ensures |r| == |contents|
    ensures forall i :: 0 <= i < |contents| ==> r[i] == PortableContent(contents[i])
  {
    seq(|contents|, i requires 0 <= i < |contents| => PortableContent(contents[i]))
  }

  /** `remote_thread_view`. */
  function RemoteView(t: ThreadBundle): ThreadBundle {
    t.(modelProvider := None,
       workspace := t.workspace.(sourcePath := None),
       rollout := PortableContent(t.rollout),
       attachments := PortableContents(t.attachments),
       relatedRecords := PortableRecords(t.relatedRecords))
  }

  /** `remote_thread_view` as the program runs it: a copy whose parts are overwritten one after the other. */
  method RemoteThreadView(t: ThreadBundle) returns (r: ThreadBundle)
    ensures r == RemoteView(t)
  {
    r := t;
    r := r.(modelProvider := None);
    r := r.(workspace := r.workspace.(sourcePath := None));
    r := r.(rollout := PortableContent(r.rollout));
    var attachments := r.attachments;
    for i := 0 to |attachments|
      invariant |attachments| == |t.attachments|
      invariant forall j :: 0 <= j < i ==> attachments[j] == PortableContent(t.attachments[j])
      invariant forall j :: i <= j < |attachments| ==> attachments[j] == t.attachments[j]
    {
      attachments := attachments[i := PortableContent(attachments[i])];
    }
    var tables := PortableTables(r.relatedRecords.tables);
    r := r.(attachments := attachments, relatedRecords := RelatedRecords(None, tables));
    assert attachments == PortableContents(t.attachments);
  }

  method PortableTables(tables: map<string, seq<Value>>) returns (r: map<string, seq<Value>>)
    ensures r == PortableRecords(RelatedRecords(None, tables)).tables
  {
    r := tables;
    var rest := tables.Keys;
    while rest != {}
      invariant rest <= tables.Keys == r.Keys
      invariant forall table :: table in tables ==>
        r[table] == if table in rest then tables[table] else PortableRows(table, tables[table])
    {
      var table :| table in rest;
      var rows := r[table];
      for i := 0 to |rows|
        invariant |rows| == |tables[table]|
        invariant forall j :: 0 <= j < i ==> rows[j] == PortableRow(table, tables[table][j])
        invariant forall j :: i <= j < |rows| ==> rows[j] == tables[table][j]
      {
        rows := rows[i := PortableRow(table, rows[i])];
      }
      assert rows == PortableRows(table, tables[table]);
      r := r[table := rows];
      rest := rest - {table};
    }
  }

  /** `semantic_thread_hash`: the digest of the serialised view stands for the view itself. */
  function SemanticHash(t: ThreadBundle): ThreadBundle {
    RemoteView(t)
  }

  // ---------- the view of a view ----------

  lemma PortableRowKeeps(table: string, fields: map<string, Value>)
    ensures PortableRow(table, Object(fields))
            == Object(if table == "threads" then WithoutDefaults(Kept(fields)) else Kept(fields))
  {
  }

  lemma PortableRowIdempotent(table: string, row: Value)
    ensures PortableRow(table, PortableRow(table, row)) == PortableRow(table, row)
  {
  }

  /** Taking the view twice is taking it once. */
  lemma RemoteViewIdempotent(t: ThreadBundle)
    ensures RemoteView(RemoteView(t)) == RemoteView(t)
  {
    var once, twice := RemoteView(t), RemoteView(RemoteView(t));
    forall table | table in t.relatedRecords.tables
      ensures twice.relatedRecords.tables[table] == once.relatedRecords.tables[table]
    {
      forall i | 0 <= i < |t.relatedRecords.tables[table]|
        ensures twice.relatedRecords.tables[table][i] == once.relatedRecords.tables[table][i]
      {
        PortableRowIdempotent(table, t.relatedRecords.tables[table][i]);
      }
    }
    assert twice.attachments == once.attachments;
  }

  // ---------- what the view shows ----------

  /** A default as a newer schema fills it in: no recency, or the update time as recency, in seconds or, in
      milliseconds, taken from either column; and the legacy mode. */
  ghost predicate ShowsDefault(row: map<string, Value>, column: string)
    requires column in row
  {
    || (column == "recency_at" && (GetI64(row, column) == Some(0) || GetI64(row, column) == GetI64(row, "updated_at")))
    || (column == "recency_at_ms" &&
          (|| GetI64(row, column) == Some(0)
           || GetI64(row, column) == if GetI64(row, "updated_at_ms").Some? then GetI64(row, "updated_at_ms")
                                     else CheckedMillis(GetI64(row, "updated_at"))))
    || (column == "history_mode" && row[column] == String("legacy"))
  }

  /** The view shows a column that has a value, does not name this machine and, in the table of threads, is no
      default. */
  ghost predicate Shows(table: string, row: map<string, Value>, column: string) {
    && column in row && row[column] != Null
    && column != "rollout_path" && column != "codex_home" && column != "model_provider" && column != "cwd"
    && !(table == "threads" && ShowsDefault(row, column))
  }

  ghost function Shown(table: string, row: map<string, Value>): map<string, Value> {
    map column | column in row && Shows(table, row, column) :: row[column]
  }

  /** Two rows show the same columns with the same values; what is not an object shows as it is. */
  ghost predicate RowsLookAlike(table: string, a: Value, b: Value) {
    if a.Object? && b.Object? then Shown(table, a.fields) == Shown(table, b.fields) else a == b
  }

  ghost predicate TablesLookAlike(a: map<string, seq<Value>>, b: map<string, seq<Value>>) {
    && a.Keys == b.Keys
    && forall table :: table in a ==>
         && |a[table]| == |b[table]|
         && forall i :: 0 <= i < |a[table]| ==> RowsLookAlike(table, a[table][i], b[table][i])
  }

  ghost predicate ContentsLookAlike(a: ContentObject, b: ContentObject) {
    && a.sha256 == b.sha256 && a.byteLength == b.byteLength
    && a.mediaType == b.mediaType && a.logicalPath == b.logicalPath
  }

  /** Two bundles that agree in everything but what belongs to one machine or one schema. */
  ghost predicate LookAlike(a: ThreadBundle, b: ThreadBundle) {
    && a.schemaVersion == b.schemaVersion && a.threadId == b.threadId
    && a.title == b.title && a.archived == b.archived
    && a.createdAtMs == b.createdAtMs && a.updatedAtMs == b.updatedAtMs
    && a.workspace.logicalId == b.workspace.logicalId
    && ContentsLookAlike(a.rollout, b.rollout)
    && |a.attachments| == |b.attachments|
    && (forall i :: 0 <= i < |a.attachments| ==> ContentsLookAlike(a.attachments[i], b.attachments[i]))
    && TablesLookAlike(a.relatedRecords.tables, b.relatedRecords.tables)
  }

  lemma KeptColumn(fields: map<string, Value>, column: string)
    ensures column in Kept(fields) <==>
      && column in fields && fields[column] != Null
      && column != "rollout_path" && column != "codex_home" && column != "model_provider" && column != "cwd"
    ensures column in Kept(fields) ==> Kept(fields)[column] == fields[column]
    ensures column !in MACHINE_FIELDS ==> GetI64(Kept(fields), column) == GetI64(fields, column)
  {
  }

  lemma WithoutDefaultsColumn(row: map<string, Value>, column: string)
    ensures column in WithoutDefaults(row) <==> column in row && !ShowsDefault(row, column)
    ensures column in WithoutDefaults(row) ==> WithoutDefaults(row)[column] == row[column]
  {
  }

  lemma DefaultsOfKept(fields: map<string, Value>, column: string)
    requires column in Kept(fields)
    ensures ShowsDefault(Kept(fields), column) <==> ShowsDefault(fields, column)
  {
    KeptColumn(fields, column);
    KeptColumn(fields, "updated_at");
    KeptColumn(fields, "updated_at_ms");
  }

  /** The columns of a portable row are those that show, with their values. */
  lemma PortableColumn(table: string, fields: map<string, Value>, column: string)
    ensures column in PortableRow(table, Object(fields)).fields <==> Shows(table, fields, column)
    ensures column in PortableRow(table, Object(fields)).fields ==>
      PortableRow(table, Object(fields)).fields[column] == fields[column]
  {
    PortableRowKeeps(table, fields);
    KeptColumn(fields, column);
    WithoutDefaultsColumn(Kept(fields), column);
    if column in Kept(fields) {
      DefaultsOfKept(fields, column);
    }
  }

  /** A portable row consists of the columns that show, with their values. */
  lemma RowShows(table: string, fields: map<string, Value>)
    ensures PortableRow(table, Object(fields)) == Object(Shown(table, fields))
  {
    PortableRowKeeps(table, fields);
    var p := PortableRow(table, Object(fields)).fields;
    forall column
      ensures (column in p <==> Shows(table, fields, column)) && (column in p ==> p[column] == fields[column])
    {
      PortableColumn(table, fields, column);
    }
    assert p == Shown(table, fields);
  }

  /** A column that only the local schema has, or that names this machine, does not show: adding a column without a
      value, or any column of the machine, leaves the portable row as it is. */
  lemma ExtraColumnsDoNotShow(table: string, fields: map<string, Value>, column: string, value: Value)
    requires column in MACHINE_FIELDS || (value == Null && column !in fields)
    ensures PortableRow(table, Object(fields[column := value])) == PortableRow(table, Object(fields))
  {
    RowShows(table, fields[column := value]);
    RowShows(table, fields);
    forall c ensures Shows(table, fields[column := value], c) <==> Shows(table, fields, c) {
      if c != column {
        OtherColumnsShowAlike(table, fields, column, value, c);
      }
    }
    assert Shown(table, fields[column := value]) == Shown(table, fields);
  }

  lemma SameNumbers(fields: map<string, Value>, column: string, value: Value)
    requires column !in {"updated_at", "updated_at_ms"} || (value == Null && column !in fields)
    ensures GetI64(fields[column := value], "updated_at") == GetI64(fields, "updated_at")
    ensures GetI64(fields[column := value], "updated_at_ms") == GetI64(fields, "updated_at_ms")
    ensures forall c :: c != column ==> GetI64(fields[column := value], c) == GetI64(fields, c)
  {
  }

  lemma OtherColumnsShowAlike(table: string, fields: map<string, Value>, column: string, value: Value, c: string)
    requires c != column && (column !in {"updated_at", "updated_at_ms"} || (value == Null && column !in fields))
    ensures Shows(table, fields[column := value], c) <==> Shows(table, fields, c)
  {
    SameNumbers(fields, column, value);
    if c in fields {
      assert ShowsDefault(fields[column := value], c) <==> ShowsDefault(fields, c);
    }
  }

  /** Nor do the defaults that a newer schema fills in. */
  lemma DefaultsDoNotShow(fields: map<string, Value>, column: string, value: Value)
    requires column !in fields && ShowsDefault(fields[column := value], column)
    ensures PortableRow("threads", Object(fields[column := value])) == PortableRow("threads", Object(fields))
  {
    RowShows("threads", fields[column := value]);
    RowShows("threads", fields);
    assert column !in {"updated_at", "updated_at_ms"};
    forall c ensures Shows("threads", fields[column := value], c) <==> Shows("threads", fields, c) {
      if c != column {
        OtherColumnsShowAlike("threads", fields, column, value, c);
      }
    }
    assert Shown("threads", fields[column := value]) == Shown("threads", fields);
  }

  lemma RowsShowExactly(table: string, a: Value, b: Value)
    ensures PortableRow(table, a) == PortableRow(table, b) <==> RowsLookAlike(table, a, b)
  {
    if a.Object? && b.Object? {
      RowShows(table, a.fields);
      RowShows(table, b.fields);
    }
  }

  lemma TablesShowExactly(a: RelatedRecords, b: RelatedRecords)
    ensures PortableRecords(a) == PortableRecords(b) <==> TablesLookAlike(a.tables, b.tables)
  {
    var p, q := PortableRecords(a).tables, PortableRecords(b).tables;
    forall table | table in a.tables && table in b.tables
      ensures p[table] == q[table] <==>
        && |a.tables[table]| == |b.tables[table]|
        && forall i :: 0 <= i < |a.tables[table]| ==> RowsLookAlike(table, a.tables[table][i], b.tables[table][i])
    {
      ListsShowExactly(table, a.tables[table], b.tables[table]);
    }
    assert p.Keys == a.tables.Keys && q.Keys == b.tables.Keys;
    assert p == q ==> forall table :: table in p ==> p[table] == q[table];
  }

  lemma ListsShowExactly(table: string, a: seq<Value>, b: seq<Value>)
    ensures PortableRows(table, a) == PortableRows(table, b) <==>
      |a| == |b| && forall i :: 0 <= i < |a| ==> RowsLookAlike(table, a[i], b[i])
  {
    var p, q := PortableRows(table, a), PortableRows(table, b);
    if |a| == |b| {
      forall i | 0 <= i < |a| ensures p[i] == q[i] <==> RowsLookAlike(table, a[i], b[i]) {
        RowsShowExactly(table, a[i], b[i]);
      }
      assert p == q <==> forall i :: 0 <= i < |a| ==> p[i] == q[i];
    }
  }

  lemma AttachmentsShowExactly(a: seq<ContentObject>, b: seq<ContentObject>)
    ensures PortableContents(a) == PortableContents(b) <==>
      |a| == |b| && forall i :: 0 <= i < |a| ==> ContentsLookAlike(a[i], b[i])
  {
    var p, q := PortableContents(a), PortableContents(b);
    if |a| == |b| {
      forall i | 0 <= i < |a| ensures p[i] == q[i] <==> ContentsLookAlike(a[i], b[i]) {
      }
      assert p == q <==> forall i :: 0 <= i < |a| ==> p[i] == q[i];
    }
  }

  /** The exact kernel of the view: it hides the machine and the schema, and nothing else. */
  lemma ViewShowsExactly(a: ThreadBundle, b: ThreadBundle)
    ensures RemoteView(a) == RemoteView(b) <==> LookAlike(a, b)
  {
    AttachmentsShowExactly(a.attachments, b.attachments);
    TablesShowExactly(a.relatedRecords, b.relatedRecords);
  }

  /** The view of a bundle looks like the bundle, and names nothing of the machine. */
  lemma ViewLooksLikeTheThread(t: ThreadBundle)
    ensures LookAlike(RemoteView(t), t)
    ensures var v := RemoteView(t);
      && v.modelProvider == None && v.workspace.sourcePath == None && v.relatedRecords.sourceDatabase == None
      && v.rollout.sourcePath == None && v.rollout.storage == None
      && (forall i :: 0 <= i < |v.attachments| ==>
            v.attachments[i].sourcePath == None && v.attachments[i].storage == None)
  {
    RemoteViewIdempotent(t);
    ViewShowsExactly(RemoteView(t), t);
  }

  /** No row of a view has a column that does not show. */
  lemma ViewRowsShowAll(t: ThreadBundle, table: string, i: nat, column: string)
    requires table in t.relatedRecords.tables && i < |t.relatedRecords.tables[table]|
    requires t.relatedRecords.tables[table][i].Object?
    ensures var rows := RemoteView(t).relatedRecords.tables;
      && table in rows && i < |rows[table]| && rows[table][i].Object?
      && (column in rows[table][i].fields <==> Shows(table, t.relatedRecords.tables[table][i].fields, column))
  {
    PortableColumn(table, t.relatedRecords.tables[table][i].fields, column);
  }
}
