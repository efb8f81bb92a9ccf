/** The journal directory: when a checkout may begin, and when no two unfinished checkouts share a Codex home. */
module CheckoutJournals {
  import opened Basics
  import opened Checkout
  import opened CheckoutSafety

  datatype Entry = Entry(home: nat, status: Status)

  /** The journal files by operation; None is a file that cannot be read or does not validate. */
  type Journals = map<nat, Option<Entry>>

  predicate Unfinished(journal: Option<Entry>, home: nat) {
    journal.Some? && journal.value.home == home && !Terminal(journal.value.status)
  }

  predicate Blocks(journal: Option<Entry>, home: nat) {
    journal.None? || Unfinished(journal, home)
  }

  /** A file that cannot be read blocks every home, since nobody knows whose it is. */
  predicate Clear(journals: Journals, home: nat) {
    forall op :: op in journals ==> !Blocks(journals[op], home)
  }

  /** `ensure_no_incomplete_checkout_journal`. */
  method EnsureNoIncomplete(journals: Journals, home: nat) returns (ok: bool)
    ensures ok <==> forall op :: op in journals ==>
      && journals[op].Some?
      && (journals[op].value.home == home ==> Terminal(journals[op].value.status))
  {
    var rest := journals.Keys;
    while rest != {}
      invariant rest <= journals.Keys
      invariant forall op :: op in journals && op !in rest ==> !Blocks(journals[op], home)
    {
      var op :| op in rest;
      if journals[op].None? {
        return false;
      }
      if !Terminal(journals[op].value.status) && journals[op].value.home == home {
        return false;
      }
      rest := rest - {op};
    }
    return true;
  }

  // ----- several checkouts -----

  /** The directory, and the home for which a process has passed the scan and not yet written its journal. */
  datatype World = World(journals: Journals, passed: map<nat, nat>)

  /** `process` scans, creates the journal of `op`, or gives up; a journal is written again, or is damaged. */
  datatype Event =
    | Scan(process: nat, home: nat)
    | Create(process: nat, op: nat)
    | GiveUp(process: nat)
    | Write(op: nat, status: Status)
    | Damage(op: nat)

  function After(w: World, e: Event): World {
    match e
    case Scan(process, home) =>
      w.(passed := if Clear(w.journals, home) then w.passed[process := home] else w.passed - {process})
    case Create(process, op) =>
      if process !in w.passed || op in w.journals then w
      else World(w.journals[op := Some(Entry(w.passed[process], Preparing))], w.passed - {process})
    case GiveUp(process) => w.(passed := w.passed - {process})
    case Write(op, status) => w.(journals := Rewritten(w.journals, op, status))
    case Damage(op) => if op in w.journals then w.(journals := w.journals[op := None]) else w
  }

  /** A journal that is terminal is never written again. */
  function Rewritten(journals: Journals, op: nat, status: Status): Journals {
    if op in journals && journals[op].Some? && !Terminal(journals[op].value.status)
    then journals[op := Some(journals[op].value.(status := status))] else journals
  }

  function AfterAll(events: seq<Event>): World {
    if events == [] then World(map[], map[]) else After(AfterAll(events[..|events| - 1]), events[|events| - 1])
  }

  /** Each journal write of a checkout or a recovery is a `Write`, and its first is a `Create`. */
  lemma StepsAreWrites(plan: Plan, s: State, l: Label, journals: Journals, op: nat, home: nat)
    requires StateOk(plan, s) && Next(plan, s, l).Some?
    requires s.disk.journal.Some? ==> op in journals && journals[op] == Some(Entry(home, s.disk.journal.value.status))
    ensures var s' := Next(plan, s, l).value;
      && (s.disk.journal.None? && s'.disk.journal.Some? ==> s'.disk.journal.value.status == Preparing)
      && (s.disk.journal.Some? ==>
            && s'.disk.journal.Some?
            && Rewritten(journals, op, s'.disk.journal.value.status)[op]
                == Some(Entry(home, s'.disk.journal.value.status)))
  {
  }

  ghost predicate OneUnfinished(journals: Journals) {
    forall a, b, home :: a in journals && b in journals && Unfinished(journals[a], home)
        && Unfinished(journals[b], home)
      ==> a == b
  }

  /** A step breaks the rule exactly if it creates a journal for a home that has an unfinished one by now. */
  lemma BrokenExactlyBy(w: World, e: Event)
    requires OneUnfinished(w.journals)
    ensures OneUnfinished(After(w, e).journals) <==>
      !(&& e.Create? && e.process in w.passed && e.op !in w.journals
        && exists a :: a in w.journals && Unfinished(w.journals[a], w.passed[e.process]))
  {
    var journals, journals' := w.journals, After(w, e).journals;
    if e.Create? && e.process in w.passed && e.op !in journals {
      var home := w.passed[e.process];
      assert Unfinished(journals'[e.op], home);
      forall a | a in journals && Unfinished(journals[a], home) ensures !OneUnfinished(journals') {
        assert Unfinished(journals'[a], home);
      }
      assert forall a, h :: a in journals' && a != e.op && Unfinished(journals'[a], h) ==> Unfinished(journals[a], h);
    } else {
      assert forall a, h :: a in journals' && Unfinished(journals'[a], h) ==>
          a in journals && Unfinished(journals[a], h);
    }
  }

  /** Nobody scans while another process has passed the scan and not yet created its journal or given up. */
  ghost predicate OneAtATime(events: seq<Event>) {
    forall k {:trigger events[k]} :: 0 <= k < |events| && events[k].Scan? ==>
      AfterAll(events[..k]).passed.Keys <= {events[k].process}
  }

  lemma OneLess(events: seq<Event>)
    requires OneAtATime(events) && events != []
    ensures OneAtATime(events[..|events| - 1])
  {
    var front := events[..|events| - 1];
    forall k | 0 <= k < |front| && front[k].Scan? ensures AfterAll(front[..k]).passed.Keys <= {front[k].process} {
      assert front[..k] == events[..k] && front[k] == events[k];
    }
  }

  ghost predicate AtMostOnePassed(w: World) {
    forall p, q :: p in w.passed && q in w.passed ==> p == q
  }

  ghost predicate NoNewWork(w: World) {
    forall p, a :: p in w.passed && a in w.journals ==> !Unfinished(w.journals[a], w.passed[p])
  }

  lemma {:induction false} ScanStaysValid(events: seq<Event>)
    requires OneAtATime(events)
    ensures AtMostOnePassed(AfterAll(events)) && NoNewWork(AfterAll(events))
  {
    if events != [] {
      var front, e := events[..|events| - 1], events[|events| - 1];
      OneLess(events);
      ScanStaysValid(front);
      StepStaysValid(AfterAll(front), e);
    }
  }

  lemma StepStaysValid(w: World, e: Event)
    requires AtMostOnePassed(w) && NoNewWork(w)
    requires e.Scan? ==> w.passed.Keys <= {e.process}
    ensures AtMostOnePassed(After(w, e)) && NoNewWork(After(w, e))
  {
    assert e.Write? ==> forall a, h ::
      a in w.journals && Unfinished(After(w, e).journals[a], h) ==> Unfinished(w.journals[a], h);
  }

  /** If scanning and creating the journal are not interleaved with another process doing the same, no home ever has two
      unfinished journals, whatever else happens to the directory. */
  lemma {:induction false} AtMostOneUnfinishedCheckout(events: seq<Event>)
    requires OneAtATime(events)
    ensures OneUnfinished(AfterAll(events).journals)
  {
    if events != [] {
      var front, e := events[..|events| - 1], events[|events| - 1];
      OneLess(events);
      AtMostOneUnfinishedCheckout(front);
      ScanStaysValid(front);
      BrokenExactlyBy(AfterAll(front), e);
    }
  }

  /** Without that exclusion it happens: both scans come before either journal. */
  lemma TwoScansTwoCheckouts()
    ensures !OneUnfinished(AfterAll([Scan(1, 7), Scan(2, 7), Create(1, 11), Create(2, 12)]).journals)
  {
    var w2 := World(map[], map[1 := 7, 2 := 7]);
    var w4 := World(map[11 := Some(Entry(7, Preparing)), 12 := Some(Entry(7, Preparing))], map[]);
    var events := [Scan(1, 7), Scan(2, 7), Create(1, 11), Create(2, 12)];
    assert events[..3] == [Scan(1, 7), Scan(2, 7), Create(1, 11)];
    assert events[..3][..2] == [Scan(1, 7), Scan(2, 7)];
    assert events[..3][..2][..1] == [Scan(1, 7)];
    assert AfterAll([Scan(1, 7)]) == World(map[], map[1 := 7]);
    assert AfterAll(events[..3][..2]) == w2;
    assert AfterAll(events).journals == w4.journals;
    assert Unfinished(w4.journals[11], 7) && Unfinished(w4.journals[12], 7);
  }
}
