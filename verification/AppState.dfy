/** The request handlers' loops over the store, and the runs of the state machine they amount to. */
module AppStates {
  import opened Basics
  import opened ObjectGraph
  import opened Metadata
  import opened Catalog
  import opened Server
  import opened GcSafety
  import opened GcRuns
  import opened MetadataStores
  import ObjectStores

  // ----- one entry, all entries -----

  /** What a handler does to the database or the files, each of which may fail. */
  datatype Effect = Looking | Cancelling | Moving | Completing | Removing | Marking

  type Faults = (EntryId, Effect) -> bool

  /** The typed stores: one directory of objects and one of quarantined files for each kind. */
  type Places = map<Kind, ObjectStores.Places<nat, EntryId>>

  /** The tables and the bytes on disk. */
  datatype Data = Data(clock: Time, history: History, objects: Objects, places: Places)

  predicate IsReachable(d: Data, e: EntryId) {
    e.target in Reachable(d.history, d.objects, d.clock)
  }

  /** `quarantine` for the object of an entry. */
  function Move(places: Places, e: EntryId): Places
    requires e.target.kind in places
  {
    places[e.target.kind := ObjectStores.Quarantined(places[e.target.kind], e.target.sha256, e).0]
  }

  /** `purge_quarantined` for an entry: it refuses a file of another length than the queue says. */
  function Remove(places: Places, e: EntryId, length: nat): Option<Places>
    requires e.target.kind in places
  {
    var (rest, removed) := ObjectStores.Removed(places[e.target.kind], e, length);
    if removed.Err? then None else Some(places[e.target.kind := rest])
  }

  /** `purge_gc_entry`: what it leaves, and whether it succeeds. */
  function PurgeEntry(d: Data, e: EntryId, length: nat, faults: Faults): (Data, bool) {
    if e.target.kind !in d.places || faults(e, Removing) || Remove(d.places, e, length).None? then (d, false)
    else
      var removed := d.(places := Remove(d.places, e, length).value);
      if faults(e, Marking) then (removed, false)
      else (removed.(objects := Metadata.MarkGcEntryPurged(d.objects, e)), true)
  }

  /** `process_gc_entries` on one entry: what it leaves, and whether it succeeds. */
  function ProcessEntry(d: Data, e: EntryId, isDigest: nat -> bool, faults: Faults): (Data, bool) {
    if faults(e, Looking) then (d, false)
    else if IsReachable(d, e) then
      if faults(e, Cancelling) then (d, false) else (d.(objects := Metadata.CancelGcEntry(d.objects, e)), true)
    else if e.target.kind !in d.places || !isDigest(e.target.sha256) || faults(e, Moving) then (d, false)
    else
      var moved := d.(places := Move(d.places, e));
      if faults(e, Completing) then (moved, false)
      else
        var completed := moved.(objects := Metadata.CompleteGcEntry(d.objects, e));
        if e in d.objects.queue && d.objects.queue[e].deleteAfterQuarantine then
          PurgeEntry(completed, e, d.objects.queue[e].byteLength, faults)
        else (completed, true)
  }

  /** The loop stops at the first entry that fails. */
  function ProcessEntries(d: Data, entries: seq<EntryId>, isDigest: nat -> bool, faults: Faults): (Data, bool)
    decreases |entries|
  {
    if entries == [] then (d, true)
    else
      var (next, ok) := ProcessEntry(d, entries[0], isDigest, faults);
      if ok then ProcessEntries(next, entries[1..], isDigest, faults) else (next, false)
  }

  // ----- the machine's view of the files -----

  function FilesOf(places: Places): set<Obj> {
    set k, x | k in places && x in places[k].files :: Obj(k, x)
  }

  function QuarantineOf(places: Places): set<EntryId> {
    set k, e | k in places && e in places[k].quarantined && e.target.kind == k :: e
  }

  function AsSys(d: Data, mode: Mode): Sys {
    Sys(d.clock, d.history, d.objects, FilesOf(d.places), QuarantineOf(d.places), mode)
  }

  lemma FilesAt(places: Places, o: Obj)
    ensures o in FilesOf(places) <==> o.kind in places && o.sha256 in places[o.kind].files
  {
    assert o == Obj(o.kind, o.sha256);
  }

  lemma QuarantineAt(places: Places, e: EntryId)
    ensures e in QuarantineOf(places) <==> e.target.kind in places && e in places[e.target.kind].quarantined
  {
  }

  /** The store's `quarantine` is the machine's step. */
  lemma MovedSets(places: Places, e: EntryId)
    requires e.target.kind in places
    ensures FilesOf(Move(places, e)) == FilesOf(places) - {e.target}
    ensures QuarantineOf(Move(places, e))
            == if e.target in FilesOf(places) then QuarantineOf(places) + {e} else QuarantineOf(places)
  {
    forall o ensures o in FilesOf(Move(places, e)) <==> o in FilesOf(places) && o != e.target {
      FilesAt(places, o);
      FilesAt(Move(places, e), o);
    }
    FilesAt(places, e.target);
    forall x: EntryId ensures x in QuarantineOf(Move(places, e))
                    <==> x in QuarantineOf(places) || (x == e && e.target in FilesOf(places)) {
      QuarantineAt(places, x);
      QuarantineAt(Move(places, e), x);
    }
  }

  /** And so is its `purge_quarantined`. */
  lemma RemovedSets(places: Places, e: EntryId, length: nat)
    requires e.target.kind in places && Remove(places, e, length).Some?
    ensures FilesOf(Remove(places, e, length).value) == FilesOf(places)
    ensures QuarantineOf(Remove(places, e, length).value) == QuarantineOf(places) - {e}
  {
    var rest := Remove(places, e, length).value;
    forall o ensures o in FilesOf(rest) <==> o in FilesOf(places) {
      FilesAt(places, o);
      FilesAt(rest, o);
    }
    forall x ensures x in QuarantineOf(rest) <==> x in QuarantineOf(places) && x != e {
      QuarantineAt(places, x);
      QuarantineAt(rest, x);
    }
  }

  // ----- the loop is a run -----

  /** The steps of the state machine, one after the other. */
  function Execute(cat: Contents, s: Sys, labels: seq<Label>): Option<Sys>
    decreases |labels|
  {
    if labels == [] then Some(s)
    else
      var next := Next(cat, s, labels[0]);
      if next.None? then None else Execute(cat, next.value, labels[1..])
  }

  lemma {:induction false} ExecuteConcat(cat: Contents, s: Sys, a: seq<Label>, b: seq<Label>)
    requires Execute(cat, s, a).Some?
    ensures Execute(cat, s, a + b) == Execute(cat, Execute(cat, s, a).value, b)
    decreases |a|
  {
    if a == [] {
      assert a + b == b;
    } else {
      assert (a + b)[1..] == a[1..] + b;
      ExecuteConcat(cat, Next(cat, s, a[0]).value, a[1..], b);
    }
  }

  lemma ExecuteCons(cat: Contents, s: Sys, l: Label, s': Sys, rest: seq<Label>)
    requires Next(cat, s, l) == Some(s')
    ensures Execute(cat, s, [l] + rest) == Execute(cat, s', rest)
  {
  }

  /** Processing one entry is a run of the sweep, up to where it fails. */
  lemma ProcessEntryIsARun(cat: Contents, d: Data, todo: set<EntryId>, e: EntryId, isDigest: nat -> bool,
      faults: Faults)
    returns (labels: seq<Label>, sweep: Sweep)
    requires e in todo
    ensures forall l :: l in labels ==> Smooth(l)
    ensures var (next, ok) := ProcessEntry(d, e, isDigest, faults);
      && Execute(cat, AsSys(d, Collecting(Sweep(todo, Idle))), labels) == Some(AsSys(next, Collecting(sweep)))
      && (ok ==> sweep == Sweep(todo - {e}, Idle))
  {
    var s0 := AsSys(d, Collecting(Sweep(todo, Idle)));
    if faults(e, Looking) || (IsReachable(d, e) && faults(e, Cancelling)) {
      labels, sweep := [], Sweep(todo, Idle);
    } else if IsReachable(d, e) {
      labels, sweep := [Recheck(e)] + [], Sweep(todo - {e}, Idle);
      ExecuteCons(cat, s0, Recheck(e), AsSys(ProcessEntry(d, e, isDigest, faults).0, Collecting(sweep)), []);
    } else {
      var condemned := Sweep(todo - {e}, At(e, Condemned));
      var rest;
      rest, sweep := CondemnedIsARun(cat, d, todo - {e}, e, isDigest, faults);
      labels := [Recheck(e)] + rest;
      ExecuteCons(cat, s0, Recheck(e), AsSys(d, Collecting(condemned)), rest);
    }
  }

  lemma CondemnedIsARun(cat: Contents, d: Data, todo: set<EntryId>, e: EntryId, isDigest: nat -> bool, faults: Faults)
    returns (labels: seq<Label>, sweep: Sweep)
    requires !faults(e, Looking) && !IsReachable(d, e)
    ensures forall l :: l in labels ==> Smooth(l)
    ensures var (next, ok) := ProcessEntry(d, e, isDigest, faults);
      && Execute(cat, AsSys(d, Collecting(Sweep(todo, At(e, Condemned)))), labels)
          == Some(AsSys(next, Collecting(sweep)))
      && (ok ==> sweep == Sweep(todo, Idle))
  {
    var s0 := AsSys(d, Collecting(Sweep(todo, At(e, Condemned))));
    if e.target.kind !in d.places || !isDigest(e.target.sha256) || faults(e, Moving) {
      labels, sweep := [], Sweep(todo, At(e, Condemned));
    } else {
      var moved := d.(places := Move(d.places, e));
      var s1 := AsSys(moved, Collecting(Sweep(todo, At(e, Moved))));
      MovedSets(d.places, e);
      assert Next(cat, s0, MoveFile) == Some(s1);
      var rest;
      rest, sweep := MovedIsARun(cat, d, todo, e, isDigest, faults);
      labels := [MoveFile] + rest;
      ExecuteCons(cat, s0, MoveFile, s1, rest);
    }
  }

  lemma MovedIsARun(cat: Contents, d: Data, todo: set<EntryId>, e: EntryId, isDigest: nat -> bool, faults: Faults)
    returns (labels: seq<Label>, sweep: Sweep)
    requires !faults(e, Looking) && !IsReachable(d, e)
    requires e.target.kind in d.places && isDigest(e.target.sha256) && !faults(e, Moving)
    ensures forall l :: l in labels ==> Smooth(l)
    ensures var (next, ok) := ProcessEntry(d, e, isDigest, faults);
      && Execute(cat, AsSys(d.(places := Move(d.places, e)), Collecting(Sweep(todo, At(e, Moved)))), labels)
         == Some(AsSys(next, Collecting(sweep)))
      && (ok ==> sweep == Sweep(todo, Idle))
  {
    var moved := d.(places := Move(d.places, e));
    if faults(e, Completing) {
      labels, sweep := [], Sweep(todo, At(e, Moved));
    } else {
      var completed := moved.(objects := Metadata.CompleteGcEntry(d.objects, e));
      var deleting := e in d.objects.queue && d.objects.queue[e].deleteAfterQuarantine;
      var rest := [];
      sweep := Sweep(todo, Idle);
      if deleting {
        rest, sweep := PurgeIsARun(cat, completed, todo, e, d.objects.queue[e].byteLength, faults);
      }
      labels := [CompleteEntry] + rest;
      ExecuteCons(cat, AsSys(moved, Collecting(Sweep(todo, At(e, Moved)))), CompleteEntry,
                  AsSys(completed, Collecting(Sweep(todo, if deleting then At(e, Completed) else Idle))), rest);
    }
  }

  lemma RemovalIsAStep(cat: Contents, d: Data, todo: set<EntryId>, e: EntryId, length: nat)
    requires e.target.kind in d.places && Remove(d.places, e, length).Some?
    ensures Next(cat, AsSys(d, Collecting(Sweep(todo, At(e, Completed)))), RemoveFile)
            == Some(AsSys(d.(places := Remove(d.places, e, length).value), Collecting(Sweep(todo, At(e, Removed)))))
  {
    RemovedSets(d.places, e, length);
  }

  lemma MarkingIsAStep(cat: Contents, d: Data, todo: set<EntryId>, e: EntryId)
    ensures Next(cat, AsSys(d, Collecting(Sweep(todo, At(e, Removed)))), MarkDeleted)
            == Some(AsSys(d.(objects := Metadata.MarkGcEntryPurged(d.objects, e)), Collecting(Sweep(todo, Idle))))
  {
  }

  lemma PurgeIsARun(cat: Contents, d: Data, todo: set<EntryId>, e: EntryId, length: nat, faults: Faults)
    returns (labels: seq<Label>, sweep: Sweep)
    ensures forall l :: l in labels ==> Smooth(l)
    ensures var (next, ok) := PurgeEntry(d, e, length, faults);
      && Execute(cat, AsSys(d, Collecting(Sweep(todo, At(e, Completed)))), labels)
          == Some(AsSys(next, Collecting(sweep)))
      && (ok ==> sweep == Sweep(todo, Idle))
  {
    var s0 := AsSys(d, Collecting(Sweep(todo, At(e, Completed))));
    if e.target.kind !in d.places || faults(e, Removing) || Remove(d.places, e, length).None? {
      labels, sweep := [], Sweep(todo, At(e, Completed));
    } else {
      var removed := d.(places := Remove(d.places, e, length).value);
      var s1 := AsSys(removed, Collecting(Sweep(todo, At(e, Removed))));
      RemovalIsAStep(cat, d, todo, e, length);
      if faults(e, Marking) {
        labels, sweep := [RemoveFile] + [], Sweep(todo, At(e, Removed));
        ExecuteCons(cat, s0, RemoveFile, s1, []);
      } else {
        labels, sweep := [RemoveFile] + ([MarkDeleted] + []), Sweep(todo, Idle);
        MarkingIsAStep(cat, removed, todo, e);
        ExecuteCons(cat, s0, RemoveFile, s1, [MarkDeleted] + []);
        ExecuteCons(cat, s1, MarkDeleted, AsSys(PurgeEntry(d, e, length, faults).0, Collecting(sweep)), []);
      }
    }
  }

  /** Where the machine is when the loop is over: in the sweep, or out of it after a failure. */
  function Afterwards(d: Data, ok: bool, todo: set<EntryId>): Sys {
    AsSys(d, if ok then Collecting(Sweep(todo, Idle)) else Serving(map[]))
  }

  /** Processing distinct entries of the sweep is a run of the sweep, which fails if and only if the loop does. */
  lemma {:induction false} ProcessEntriesIsARun(cat: Contents, d: Data, todo: set<EntryId>, entries: seq<EntryId>,
                                                isDigest: nat -> bool, faults: Faults)
    returns (labels: seq<Label>)
    requires Distinct(entries) && forall e :: e in entries ==> e in todo
    ensures var (next, ok) := ProcessEntries(d, entries, isDigest, faults);
      && (forall l :: l in labels ==> Smooth(l) || l.FailSweep?)
      && (ok <==> FailSweep !in labels)
      && Execute(cat, AsSys(d, Collecting(Sweep(todo, Idle))), labels)
          == Some(Afterwards(next, ok, todo - Elements(entries)))
    decreases |entries|
  {
    if entries == [] {
      labels := [];
      assert todo - Elements(entries) == todo;
    } else {
      var e, rest := entries[0], entries[1..];
      var (next, ok) := ProcessEntry(d, e, isDigest, faults);
      var first, sweep := ProcessEntryIsARun(cat, d, todo, e, isDigest, faults);
      assert e !in rest;
      var more := [FailSweep] + [];
      if ok {
        more := ProcessEntriesIsARun(cat, next, todo - {e}, rest, isDigest, faults);
        assert todo - Elements(entries) == todo - {e} - Elements(rest);
      } else {
        ExecuteCons(cat, AsSys(next, Collecting(sweep)), FailSweep, AsSys(next, Serving(map[])), []);
      }
      labels := first + more;
      ExecuteConcat(cat, AsSys(d, Collecting(Sweep(todo, Idle))), first, more);
    }
  }

  /** A run goes on as the machine executes further steps from its last state. */
  lemma {:induction false} ExecuteExtendsRun(cat: Contents, states: seq<Sys>, labels: seq<Label>, more: seq<Label>)
    returns (longer: seq<Sys>)
    requires Run(cat, states, labels) && Execute(cat, states[|labels|], more).Some?
    ensures Run(cat, longer, labels + more) && states <= longer
    ensures longer[|labels| + |more|] == Execute(cat, states[|labels|], more).value
    decreases |more|
  {
    if more == [] {
      longer := states;
      assert labels + more == labels;
    } else {
      var l := more[0];
      var s' := Next(cat, states[|labels|], l).value;
      OneMoreStep(cat, states, labels, l, s');
      longer := ExecuteExtendsRun(cat, states + [s'], labels + [l], more[1..]);
      assert labels + [l] + more[1..] == labels + more;
    }
  }

  lemma OneMoreStep(cat: Contents, states: seq<Sys>, labels: seq<Label>, l: Label, s': Sys)
    requires Run(cat, states, labels) && Next(cat, states[|labels|], l) == Some(s')
    ensures Run(cat, states + [s'], labels + [l])
  {
    forall i: nat | i < |labels + [l]| ensures StepAt(cat, states + [s'], labels + [l], i) {
      assert i < |labels| ==> StepAt(cat, states, labels, i);
    }
  }

  /** The handlers' loop, wherever a run of the server has come to it, continues that run, failures included, and
      what it leaves is safe. */
  lemma ProcessingContinuesARun(cat: Contents, states: seq<Sys>, labels: seq<Label>, d: Data, todo: set<EntryId>,
                                entries: seq<EntryId>, isDigest: nat -> bool, faults: Faults)
    returns (longer: seq<Sys>, more: seq<Label>)
    requires Run(cat, states, labels) && states[|labels|] == AsSys(d, Collecting(Sweep(todo, Idle)))
    requires Distinct(entries) && forall e :: e in entries ==> e in todo
    ensures Run(cat, longer, labels + more) && states <= longer
    ensures var (next, ok) := ProcessEntries(d, entries, isDigest, faults);
            longer[|labels + more|] == Afterwards(next, ok, todo - Elements(entries))
    ensures Safe(cat, longer[|labels + more|])
  {
    more := ProcessEntriesIsARun(cat, d, todo, entries, isDigest, faults);
    longer := ExecuteExtendsRun(cat, states, labels, more);
    GarbageCollectionIsSafe(cat, longer, labels + more, |labels + more|);
  }

  // ----- what the loop answers -----

  /** What processing entries leaves alone. */
  ghost predicate SameButSwept(d: Data, d': Data) {
    && d'.history == d.history && d'.clock == d.clock && d'.places.Keys == d.places.Keys
    && Reachable(d'.history, d'.objects, d'.clock) == Reachable(d.history, d.objects, d.clock)
    && d'.objects.queue.Keys == d.objects.queue.Keys
    && (forall e :: e in d.objects.queue ==>
          && d'.objects.queue[e].byteLength == d.objects.queue[e].byteLength
          && d'.objects.queue[e].deleteAfterQuarantine == d.objects.queue[e].deleteAfterQuarantine)
  }

  lemma CompletionKeepsReachable(d: Data, e: EntryId)
    requires !IsReachable(d, e)
    ensures SameButSwept(d, d.(objects := Metadata.CompleteGcEntry(d.objects, e)))
  {
    SweepKeepsReach(d.objects.edges, ProtectedRoots(d.history, d.clock), e.target);
    assert Metadata.CompleteGcEntry(d.objects, e).edges == WithoutObject(d.objects.edges, e.target);
  }

  lemma SameTwice(a: Data, b: Data, c: Data)
    requires SameButSwept(a, b) && SameButSwept(b, c)
    ensures SameButSwept(a, c)
  {
  }

  lemma PurgeKeepsReachable(d: Data, e: EntryId, length: nat, faults: Faults)
    ensures SameButSwept(d, PurgeEntry(d, e, length, faults).0)
  {
    assert PurgeEntry(d, e, length, faults).0.objects.edges == d.objects.edges;
  }

  lemma ProcessEntryKeepsReachable(d: Data, e: EntryId, isDigest: nat -> bool, faults: Faults)
    ensures SameButSwept(d, ProcessEntry(d, e, isDigest, faults).0)
  {
    if !IsReachable(d, e) && e.target.kind in d.places {
      CompletionKeepsReachable(d, e);
      var completed := Data(d.clock, d.history, Metadata.CompleteGcEntry(d.objects, e), Move(d.places, e));
      assert SameButSwept(d, completed);
      if e in d.objects.queue {
        PurgeKeepsReachable(completed, e, d.objects.queue[e].byteLength, faults);
        SameTwice(d, completed, PurgeEntry(completed, e, d.objects.queue[e].byteLength, faults).0);
      }
    }
  }

  /** Completing unreachable objects leaves the set of reachable objects alone. */
  lemma {:induction false} ProcessingKeepsReachable(d: Data, entries: seq<EntryId>, isDigest: nat -> bool,
      faults: Faults)
    ensures SameButSwept(d, ProcessEntries(d, entries, isDigest, faults).0)
    decreases |entries|
  {
    if entries != [] {
      ProcessEntryKeepsReachable(d, entries[0], isDigest, faults);
      ProcessingKeepsReachable(ProcessEntry(d, entries[0], isDigest, faults).0, entries[1..], isDigest, faults);
    }
  }

  // ----- the length check never fails on its own -----

  /** The files, in the stores and in quarantine, are as long as what was uploaded. */
  ghost predicate AsUploaded(cat: Contents, places: Places) {
    forall k :: k in places ==> StoreAsUploaded(cat, k, places[k])
  }

  ghost predicate StoreAsUploaded(cat: Contents, k: Kind, p: ObjectStores.Places<nat, EntryId>) {
    && (forall x :: x in p.files ==> Obj(k, x) in cat && |p.files[x]| == cat[Obj(k, x)].byteLength)
    && (forall e :: e in p.quarantined && e.target.kind == k ==>
          e.target in cat && |p.quarantined[e]| == cat[e.target].byteLength)
  }

  lemma MoveKeepsBytes(cat: Contents, places: Places, e: EntryId)
    requires AsUploaded(cat, places) && e.target.kind in places
    ensures AsUploaded(cat, Move(places, e))
  {
    assert StoreAsUploaded(cat, e.target.kind, places[e.target.kind]);
    assert e.target == Obj(e.target.kind, e.target.sha256);
    assert StoreAsUploaded(cat, e.target.kind, Move(places, e)[e.target.kind]);
  }

  lemma RemovalFits(cat: Contents, places: Places, e: EntryId)
    requires AsUploaded(cat, places) && e.target.kind in places && e.target in cat
    ensures Remove(places, e, cat[e.target].byteLength).Some?
    ensures AsUploaded(cat, Remove(places, e, cat[e.target].byteLength).value)
  {
    assert StoreAsUploaded(cat, e.target.kind, places[e.target.kind]);
    var rest := Remove(places, e, cat[e.target].byteLength).value;
    assert StoreAsUploaded(cat, e.target.kind, rest[e.target.kind]);
  }

  lemma PurgeSucceeds(cat: Contents, d: Data, e: EntryId, faults: Faults)
    requires AsUploaded(cat, d.places) && e.target.kind in d.places && e.target in cat
    requires !faults(e, Removing) && !faults(e, Marking)
    ensures var (next, ok) := PurgeEntry(d, e, cat[e.target].byteLength, faults);
            && ok && AsUploaded(cat, next.places)
            && next.objects == Metadata.MarkGcEntryPurged(d.objects, e)
  {
    RemovalFits(cat, d.places, e);
  }

  lemma EntrySucceeds(cat: Contents, d: Data, e: EntryId, isDigest: nat -> bool, faults: Faults)
    requires LengthsAgree(cat, d.objects) && AsUploaded(cat, d.places) && e in d.objects.queue
    requires e.target.kind in d.places && isDigest(e.target.sha256) && forall f :: !faults(e, f)
    ensures var (next, ok) := ProcessEntry(d, e, isDigest, faults);
            ok && LengthsAgree(cat, next.objects) && AsUploaded(cat, next.places)
  {
    QueueKeepsLengths(cat, d.objects, e);
    if !IsReachable(d, e) {
      MoveKeepsBytes(cat, d.places, e);
      var completed := Data(d.clock, d.history, Metadata.CompleteGcEntry(d.objects, e), Move(d.places, e));
      QueueKeepsLengths(cat, completed.objects, e);
      PurgeSucceeds(cat, completed, e, faults);
    }
  }

  /** No change of an entry's state touches a length. */
  lemma QueueKeepsLengths(cat: Contents, objects: Objects, e: EntryId)
    requires LengthsAgree(cat, objects)
    ensures LengthsAgree(cat, Metadata.CancelGcEntry(objects, e))
    ensures LengthsAgree(cat, Metadata.CompleteGcEntry(objects, e))
    ensures LengthsAgree(cat, Metadata.MarkGcEntryPurged(objects, e))
  {
  }

  lemma {:induction false} ProcessingSucceeds(cat: Contents, d: Data, entries: seq<EntryId>, isDigest: nat -> bool,
                                              faults: Faults)
    requires LengthsAgree(cat, d.objects) && AsUploaded(cat, d.places)
    requires forall e :: e in entries ==>
      e in d.objects.queue && e.target.kind in d.places && isDigest(e.target.sha256) && forall f :: !faults(e, f)
    ensures ProcessEntries(d, entries, isDigest, faults).1
    decreases |entries|
  {
    if entries != [] {
      EntrySucceeds(cat, d, entries[0], isDigest, faults);
      ProcessEntryKeepsReachable(d, entries[0], isDigest, faults);
      ProcessingSucceeds(cat, ProcessEntry(d, entries[0], isDigest, faults).0, entries[1..], isDigest, faults);
    }
  }

  /** In any run the loop fails only if the database or the file system does: no file ever has another length than the
      queue says. */
  lemma LoopSucceedsInARun(cat: Contents, states: seq<Sys>, labels: seq<Label>, k: nat, d: Data, mode: Mode,
                           entries: seq<EntryId>, isDigest: nat -> bool, faults: Faults)
    requires Run(cat, states, labels) && k < |states| && states[k] == AsSys(d, mode) && AsUploaded(cat, d.places)
    requires forall e :: e in entries ==>
      e in d.objects.queue && e.target.kind in d.places && isDigest(e.target.sha256) && forall f :: !faults(e, f)
    ensures ProcessEntries(d, entries, isDigest, faults).1
  {
    RunKeepsLengths(cat, states, labels, k);
    ProcessingSucceeds(cat, d, entries, isDigest, faults);
  }

  /** The entries whose object is unreachable, in order. */
  function Condemnable(d: Data, entries: seq<EntryId>): seq<EntryId> {
    if entries == [] then []
    else
      var last := entries[|entries| - 1];
      Condemnable(d, entries[..|entries| - 1]) + if IsReachable(d, last) then [] else [last]
  }

  function SaturatingAdd(a: nat, b: nat): nat {
    if a + b > U64_MAX then U64_MAX else a + b
  }

  function EntryBytes(queue: map<EntryId, GcEntry>, entries: seq<EntryId>): nat {
    if entries == [] then 0
    else
      var last := entries[|entries| - 1];
      (if last in queue then queue[last].byteLength else 0) + EntryBytes(queue, entries[..|entries| - 1])
  }

  /** The number and the saturated length of the condemnable entries. */
  function Tally(d: Data, entries: seq<EntryId>): (nat, nat) {
    var condemned := Condemnable(d, entries);
    (|condemned|, SaturatingAdd(EntryBytes(d.objects.queue, condemned), 0))
  }

  lemma TallyOneMore(d: Data, entries: seq<EntryId>, i: nat)
    requires i < |entries| && entries[i] in d.objects.queue
    ensures var (count, bytes) := Tally(d, entries[..i]);
            Tally(d, entries[..i + 1])
            == if IsReachable(d, entries[i]) then (count, bytes)
               else (count + 1, SaturatingAdd(bytes, d.objects.queue[entries[i]].byteLength))
  {
    var before, after := Condemnable(d, entries[..i]), Condemnable(d, entries[..i + 1]);
    assert entries[..i + 1][..i] == entries[..i];
    if !IsReachable(d, entries[i]) {
      assert after == before + [entries[i]];
      assert after[..|after| - 1] == before;
    } else {
      assert after == before;
    }
  }

  lemma OneEntryOn(d: Data, entries: seq<EntryId>, i: nat, isDigest: nat -> bool, faults: Faults)
    requires i < |entries|
    ensures var (next, ok) := ProcessEntry(d, entries[i], isDigest, faults);
            ProcessEntries(d, entries[i..], isDigest, faults)
            == if ok then ProcessEntries(next, entries[i + 1..], isDigest, faults) else (next, false)
  {
    assert entries[i..][0] == entries[i] && entries[i..][1..] == entries[i + 1..];
  }

  // ----- the handlers -----

  type TypedStore = ObjectStores.ObjectStore<nat, EntryId>

  class AppState {
    const metadata: MetadataStore
    const stores: map<Kind, TypedStore>
    const isDigest: nat -> bool

    constructor (metadata: MetadataStore, stores: map<Kind, TypedStore>, isDigest: nat -> bool)
      ensures this.metadata == metadata && this.stores == stores && this.isDigest == isDigest
    {
      this.metadata, this.stores, this.isDigest := metadata, stores, isDigest;
    }

    /** Every kind has a store of its own, and all of them hold what their names say. */
    ghost predicate Valid()
      reads this, stores.Values
    {
      && (forall k, l :: k in stores && l in stores && k != l ==> stores[k] != stores[l])
      && (forall k :: k in stores ==> stores[k].isDigest == isDigest && stores[k].ContentAddressed())
    }

    ghost function Places(): Places
      reads this, stores.Values
    {
      map k | k in stores :: stores[k].View()
    }

    ghost function View(now: Time): Data
      reads this, metadata, stores.Values
    {
      Data(now, metadata.HistoryTables(), metadata.ObjectTables(), Places())
    }

    /** Rechecks, moves, completes and, for permanent deletion, removes each entry in turn, until one fails.  If none
        fails, the entries cancelled are exactly those whose object was reachable when the loop began. */
    method ProcessGcEntries(entries: seq<EntryId>, now: Time, faults: Faults) returns (reply: Option<(nat, nat)>)
      requires Valid() && forall e :: e in entries ==> e in metadata.queue
      modifies metadata, stores.Values
      ensures Valid()
      ensures (View(now), reply.Some?) == ProcessEntries(old(View(now)), entries, isDigest, faults)
      ensures reply.Some? ==> reply.value == Tally(old(View(now)), entries)
    {
      ghost var d := View(now);
      var count, bytes := 0, 0;
      for i := 0 to |entries|
        invariant Valid()
        invariant ProcessEntries(d, entries, isDigest, faults)
                  == ProcessEntries(View(now), entries[i..], isDigest, faults)
        invariant SameButSwept(d, View(now))
        invariant (count, bytes) == Tally(d, entries[..i])
      {
        var length := metadata.queue[entries[i]].byteLength;
        TallyOneMore(d, entries, i);
        OneEntryOn(View(now), entries, i, isDigest, faults);
        ProcessEntryKeepsReachable(View(now), entries[i], isDigest, faults);
        var condemned := ProcessGcEntry(entries[i], now, faults);
        if condemned.None? {
          return None;
        }
        if condemned.value {
          count := count + 1;
          bytes := SaturatingAdd(bytes, length);
        }
      }
      assert entries[..|entries|] == entries;
      return Some((count, bytes));
    }

    method ProcessGcEntry(e: EntryId, now: Time, faults: Faults) returns (condemned: Option<bool>)
      requires Valid() && e in metadata.queue
      modifies metadata, stores.Values
      ensures Valid()
      ensures (View(now), condemned.Some?) == ProcessEntry(old(View(now)), e, isDigest, faults)
      ensures condemned.Some? ==> (condemned.value <==> !IsReachable(old(View(now)), e))
    {
      if faults(e, Looking) {
        return None;
      }
      var reachable := metadata.ReachableObjects(now);
      if e.target in reachable {
        if faults(e, Cancelling) {
          return None;
        }
        metadata.CancelGcEntry(e);
        return Some(false);
      }
      var collected := CollectGcEntry(e, now, faults);
      return if collected then Some(true) else None;
    }

    /** The part of the loop body for an entry that is not reachable. */
    method CollectGcEntry(e: EntryId, ghost now: Time, faults: Faults) returns (ok: bool)
      requires Valid() && e in metadata.queue
      requires !faults(e, Looking) && !IsReachable(View(now), e)
      modifies metadata, stores.Values
      ensures Valid()
      ensures (View(now), ok) == ProcessEntry(old(View(now)), e, isDigest, faults)
    {
      if e.target.kind !in stores || faults(e, Moving) {
        return false;
      }
      var moved := MoveToQuarantine(e);
      if !moved || faults(e, Completing) {
        return false;
      }
      var entry := metadata.queue[e];
      metadata.CompleteGcEntry(e);
      if entry.deleteAfterQuarantine {
        ok := PurgeGcEntry(e, entry.byteLength, faults);
      } else {
        ok := true;
      }
    }

    method MoveToQuarantine(e: EntryId) returns (ok: bool)
      requires Valid() && e.target.kind in stores
      modifies stores.Values
      ensures Valid() && ok == isDigest(e.target.sha256)
      ensures Places() == if ok then Move(old(Places()), e) else old(Places())
    {
      var moved := stores[e.target.kind].Quarantine(e.target.sha256, e);
      ok := moved.Ok?;
    }

    method PurgeGcEntry(e: EntryId, length: nat, faults: Faults) returns (ok: bool)
      requires Valid()
      modifies metadata, stores.Values
      ensures Valid()
      ensures forall now :: (View(now), ok) == PurgeEntry(old(View(now)), e, length, faults)
    {
      if e.target.kind !in stores || faults(e, Removing) {
        return false;
      }
      ok := RemoveFromQuarantine(e, length);
      if !ok || faults(e, Marking) {
        return false;
      }
      metadata.MarkGcEntryPurged(e);
    }

    method RemoveFromQuarantine(e: EntryId, length: nat) returns (ok: bool)
      requires Valid() && e.target.kind in stores
      modifies stores.Values
      ensures Valid() && ok == Remove(old(Places()), e, length).Some?
      ensures Places() == if ok then Remove(old(Places()), e, length).value else old(Places())
    {
      var removed := stores[e.target.kind].PurgeQuarantined(e, length);
      ok := removed.Ok?;
    }
  }
}
