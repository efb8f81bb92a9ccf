/** A run in which a resumed collection takes an object that has just been uploaded. */
module RestartExample {
  import opened Basics
  import opened ObjectGraph
  import opened Metadata
  import opened Catalog
  import opened Server
  import opened GcAges
  import opened AppStates

  /** The server without history and edges. */
  function Bare(clock: Time, storage: map<Obj, Stored>, queue: map<EntryId, GcEntry>, files: set<Obj>,
                quarantine: set<EntryId>, mode: Mode): Sys {
    Sys(clock, History(map[], map[], map[], map[]), Objects(storage, {}, queue), files, quarantine, mode)
  }

  lemma NothingIsReachable(s: Sys)
    requires s.history == History(map[], map[], map[], map[])
    ensures Reachable(s.history, s.objects, s.clock) == {}
  {
    assert ProtectedRoots(s.history, s.clock) == {};
    ReachLeast(s.objects.edges, {}, {});
  }

  const FIRST: OperationId := 1
  const SECOND: OperationId := 2

  function Row(length: nat, at: Time): Stored {
    Stored(length, at)
  }

  function Entry(length: nat, state: EntryState): GcEntry {
    GcEntry(length, state, false)
  }

  /** An upload, and its two steps. */
  function Uploading(o: Obj): seq<Label> {
    [StartUpload(0, o)] + ([FinishUpload(0)] + [])
  }

  lemma Uploads(cat: Contents, o: Obj, clock: Time, queue: map<EntryId, GcEntry>, quarantine: set<EntryId>)
    requires o in cat
    ensures Execute(cat, Bare(clock, map[], queue, {}, quarantine, Serving(map[])), Uploading(o))
            == Some(Bare(clock, map[o := Row(cat[o].byteLength, clock)], queue, {o}, quarantine, Serving(map[])))
  {
    var s0 := Bare(clock, map[], queue, {}, quarantine, Serving(map[]));
    var s1 := Bare(clock, map[], queue, {o}, quarantine, Serving(map[0 := Upload(o)]));
    var s2 := Bare(clock, map[o := Row(cat[o].byteLength, clock)], queue, {o}, quarantine, Serving(map[]));
    assert {} + {o} == {o};
    assert map[][0 := Upload(o)] == map[0 := Upload(o)];
    assert Next(cat, s0, StartUpload(0, o)) == Some(s1);
    ExecuteCons(cat, s0, StartUpload(0, o), s1, [FinishUpload(0)] + []);
    assert s1.mode.tasks - {0} == map[];
    assert Next(cat, s1, FinishUpload(0)) == Some(s2);
    ExecuteCons(cat, s1, FinishUpload(0), s2, []);
  }

  lemma StartsCollection(cat: Contents, o: Obj, length: nat, at: Time, clock: Time, queue: map<EntryId, GcEntry>,
                         operation: OperationId)
    requires at + 3_600_000 <= clock && EntryId(operation, o) !in queue
    ensures var e := EntryId(operation, o);
            Next(cat, Bare(clock, map[o := Row(length, at)], queue, {o}, {}, Serving(map[])),
                 StartGc(map[o := length], operation))
            == Some(Bare(clock, map[o := Row(length, at)], queue[e := Entry(length, Pending)], {o}, {},
                         Collecting(Sweep({e}, Idle))))
  {
    var s := Bare(clock, map[o := Row(length, at)], queue, {o}, {}, Serving(map[]));
    var e := EntryId(operation, o);
    NothingIsReachable(s);
    assert GcPlan(s.history, s.objects, s.clock) == map[o := length];
    var entries := EntriesFor(operation, map[o := length], false);
    assert entries.Keys == {e} by {
      assert e in (set x | x in map[o := length] :: EntryId(operation, x));
    }
    assert entries == map[e := Entry(length, Pending)];
    assert queue + entries == queue[e := Entry(length, Pending)];
  }

  /** A collection that fails before it begins, and one that goes through. */
  function Failing(length: nat, o: Obj): seq<Label> {
    [Tick(3_600_000)] + ([StartGc(map[o := length], FIRST)] + ([FailSweep] + []))
  }

  lemma Fails(cat: Contents, o: Obj, length: nat, clock: Time)
    ensures Execute(cat, Bare(clock, map[o := Row(length, clock)], map[], {o}, {}, Serving(map[])), Failing(length, o))
            == Some(Bare(clock + 3_600_000, map[o := Row(length, clock)],
                         map[EntryId(FIRST, o) := Entry(length, Pending)], {o}, {}, Serving(map[])))
  {
    var storage, later, queue := map[o := Row(length, clock)], clock + 3_600_000,
        map[EntryId(FIRST, o) := Entry(length, Pending)];
    var s0 := Bare(clock, storage, map[], {o}, {}, Serving(map[]));
    var s1 := Bare(later, storage, map[], {o}, {}, Serving(map[]));
    var s2 := Bare(later, storage, queue, {o}, {}, Collecting(Sweep({EntryId(FIRST, o)}, Idle)));
    var s3 := Bare(later, storage, queue, {o}, {}, Serving(map[]));
    Ticks(cat, s0, 3_600_000);
    ExecuteCons(cat, s0, Tick(3_600_000), s1, [StartGc(map[o := length], FIRST)] + ([FailSweep] + []));
    StartsCollection(cat, o, length, clock, later, map[], FIRST);
    ExecuteCons(cat, s1, StartGc(map[o := length], FIRST), s2, [FailSweep] + []);
    BreaksOff(cat, s2);
    ExecuteCons(cat, s2, FailSweep, s3, []);
  }

  lemma Ticks(cat: Contents, s: Sys, delta: nat)
    ensures Next(cat, s, Tick(delta)) == Some(s.(clock := s.clock + delta))
  {
  }

  lemma BreaksOff(cat: Contents, s: Sys)
    requires s.mode.Collecting?
    ensures Next(cat, s, FailSweep) == Some(s.(mode := Serving(map[])))
  {
  }

  function Succeeding(length: nat, o: Obj): seq<Label> {
    [StartGc(map[o := length], SECOND)] + ([Recheck(EntryId(SECOND, o))] + [])
  }

  lemma Succeeds(cat: Contents, o: Obj, length: nat, at: Time, clock: Time, pending: map<EntryId, GcEntry>)
    requires at + 3_600_000 <= clock && EntryId(SECOND, o) !in pending
    ensures var e := EntryId(SECOND, o);
            Execute(cat, Bare(clock, map[o := Row(length, at)], pending, {o}, {}, Serving(map[])),
                    Succeeding(length, o))
            == Some(Bare(clock, map[o := Row(length, at)], pending[e := Entry(length, Pending)], {o}, {},
                         Collecting(Sweep({}, At(e, Condemned)))))
  {
    var storage, e := map[o := Row(length, at)], EntryId(SECOND, o);
    var queue := pending[e := Entry(length, Pending)];
    var s0 := Bare(clock, storage, pending, {o}, {}, Serving(map[]));
    var s1 := Bare(clock, storage, queue, {o}, {}, Collecting(Sweep({e}, Idle)));
    var s2 := Bare(clock, storage, queue, {o}, {}, Collecting(Sweep({}, At(e, Condemned))));
    StartsCollection(cat, o, length, at, clock, pending, SECOND);
    ExecuteCons(cat, s0, StartGc(map[o := length], SECOND), s1, [Recheck(e)] + []);
    NothingIsReachable(s1);
    assert {e} - {e} == {};
    ExecuteCons(cat, s1, Recheck(e), s2, []);
  }

  function Finishing(): seq<Label> {
    [MoveFile] + ([CompleteEntry] + ([FinishSweep] + []))
  }

  lemma Finishes(cat: Contents, o: Obj, length: nat, at: Time, clock: Time, pending: map<EntryId, GcEntry>)
    requires EntryId(SECOND, o) !in pending
    ensures var e := EntryId(SECOND, o);
            Execute(cat, Bare(clock, map[o := Row(length, at)], pending[e := Entry(length, Pending)], {o}, {},
                              Collecting(Sweep({}, At(e, Condemned)))), Finishing())
            == Some(Bare(clock, map[], pending[e := Entry(length, Quarantined)], {}, {e}, Serving(map[])))
  {
    var storage, e := map[o := Row(length, at)], EntryId(SECOND, o);
    var queue, after := pending[e := Entry(length, Pending)], pending[e := Entry(length, Quarantined)];
    var s2 := Bare(clock, storage, queue, {o}, {}, Collecting(Sweep({}, At(e, Condemned))));
    var s3 := Bare(clock, storage, queue, {}, {e}, Collecting(Sweep({}, At(e, Moved))));
    var s4 := Bare(clock, map[], after, {}, {e}, Collecting(Sweep({}, Idle)));
    Moves(cat, s2, s3, o, e);
    ExecuteCons(cat, s2, MoveFile, s3, [CompleteEntry] + ([FinishSweep] + []));
    assert queue[e := queue[e].(state := Quarantined)] == after;
    Completes(cat, s3, s4, o, e);
    ExecuteCons(cat, s3, CompleteEntry, s4, [FinishSweep] + []);
    Ends(cat, s4);
    ExecuteCons(cat, s4, FinishSweep, Bare(clock, map[], after, {}, {e}, Serving(map[])), []);
  }

  lemma Moves(cat: Contents, s: Sys, s': Sys, o: Obj, e: EntryId)
    requires s.mode == Collecting(Sweep({}, At(e, Condemned))) && e.target == o && s.files == {o} && s.quarantine == {}
    requires s' == s.(files := {}, quarantine := {e}, mode := Collecting(Sweep({}, At(e, Moved))))
    ensures Next(cat, s, MoveFile) == Some(s')
  {
    assert {o} - {o} == {} && {} + {e} == {e};
  }

  lemma Ends(cat: Contents, s: Sys)
    requires s.mode == Collecting(Sweep({}, Idle))
    ensures Next(cat, s, FinishSweep) == Some(s.(mode := Serving(map[])))
  {
  }

  lemma Completes(cat: Contents, s: Sys, s': Sys, o: Obj, e: EntryId)
    requires s.mode == Collecting(Sweep({}, At(e, Moved))) && e in s.objects.queue && e.target == o
    requires s.objects.queue[e].state == Pending && !s.objects.queue[e].deleteAfterQuarantine
    requires s.objects.edges == {} && s.objects.storage.Keys == {o}
    requires s' == s.(objects := Objects(map[], {}, s.objects.queue[e := s.objects.queue[e].(state := Quarantined)]),
                      mode := Collecting(Sweep({}, Idle)))
    ensures Next(cat, s, CompleteEntry) == Some(s')
  {
    assert s.objects.storage - {o} == map[];
    assert WithoutObject({}, o) == {};
  }

  function Restarting(o: Obj): seq<Label> {
    [Crash] + ([Boot] + ([Recheck(EntryId(FIRST, o))] + []))
  }

  lemma Restarts(cat: Contents, o: Obj, length: nat, clock: Time)
    ensures var queue := map[EntryId(FIRST, o) := Entry(length, Pending),
                             EntryId(SECOND, o) := Entry(length, Quarantined)];
            Execute(cat, Bare(clock, map[o := Row(length, clock)], queue, {o}, {EntryId(SECOND, o)}, Serving(map[])),
                    Restarting(o))
            == Some(Bare(clock, map[o := Row(length, clock)], queue, {o}, {EntryId(SECOND, o)},
                         Booting(Sweep({}, At(EntryId(FIRST, o), Condemned)))))
  {
    var storage, e, f := map[o := Row(length, clock)], EntryId(FIRST, o), EntryId(SECOND, o);
    var queue := map[e := Entry(length, Pending), f := Entry(length, Quarantined)];
    var s0 := Bare(clock, storage, queue, {o}, {f}, Serving(map[]));
    var s1 := Bare(clock, storage, queue, {o}, {f}, Down);
    var s2 := Bare(clock, storage, queue, {o}, {f}, Booting(Sweep({e}, Idle)));
    var s3 := Bare(clock, storage, queue, {o}, {f}, Booting(Sweep({}, At(e, Condemned))));
    assert e != f;
    ExecuteCons(cat, s0, Crash, s1, [Boot] + ([Recheck(e)] + []));
    assert PendingEntries(s1.objects) == {e};
    ExecuteCons(cat, s1, Boot, s2, [Recheck(e)] + []);
    NothingIsReachable(s2);
    assert {e} - {e} == {};
    ExecuteCons(cat, s2, Recheck(e), s3, []);
  }

  /** Two collections of one object, of which the first fails; then the object is uploaded again and the server
      restarts: the sweep that it resumes moves the file in the very millisecond in which it was recorded. */
  lemma RestartMovesYoungObject(cat: Contents, o: Obj, clock: Time)
    returns (states: seq<Sys>, labels: seq<Label>)
    requires o in cat
    ensures Run(cat, states, labels) && |labels| > 0
    ensures var j := |labels| - 1;
            && Collects(states, labels, j, EntryId(FIRST, o))
            && o in states[j].objects.storage && states[j].objects.storage[o].createdAt == states[j].clock
            && o in states[j].files && o !in states[j + 1].files
  {
    var length, later := cat[o].byteLength, clock + 3_600_000;
    var e, f := EntryId(FIRST, o), EntryId(SECOND, o);
    var pending := map[e := Entry(length, Pending)];
    var queue := pending[f := Entry(length, Quarantined)];
    states, labels := [Bare(clock, map[], map[], {}, {}, Serving(map[]))], [];
    Uploads(cat, o, clock, map[], {});
    states, labels := GoesOn(cat, states, labels, Uploading(o));
    Fails(cat, o, length, clock);
    states, labels := GoesOn(cat, states, labels, Failing(length, o));
    Succeeds(cat, o, length, clock, later, pending);
    states, labels := GoesOn(cat, states, labels, Succeeding(length, o));
    Finishes(cat, o, length, clock, later, pending);
    states, labels := GoesOn(cat, states, labels, Finishing());
    Uploads(cat, o, later, queue, {f});
    states, labels := GoesOn(cat, states, labels, Uploading(o));
    assert queue == map[e := Entry(length, Pending), f := Entry(length, Quarantined)];
    Restarts(cat, o, length, later);
    states, labels := GoesOn(cat, states, labels, Restarting(o));
    var last := states[|labels|];
    var moved := Next(cat, last, MoveFile).value;
    OneMoreStep(cat, states, labels, MoveFile, moved);
    states, labels := states + [moved], labels + [MoveFile];
  }

  lemma GoesOn(cat: Contents, states: seq<Sys>, labels: seq<Label>, more: seq<Label>)
    returns (longer: seq<Sys>, all: seq<Label>)
    requires Run(cat, states, labels) && Execute(cat, states[|labels|], more).Some?
    ensures Run(cat, longer, all)
    ensures longer[|all|] == Execute(cat, states[|labels|], more).value
  {
    longer := ExecuteExtendsRun(cat, states, labels, more);
    all := labels + more;
  }
}
