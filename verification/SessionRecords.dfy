/** What the provider rewrite does to a rollout, told from what a reader of its lines sees: which rollouts it accepts,
    which lines it leaves alone, and what the others read back as. */
module SessionRecords {
  import opened Basics
  import opened Json
  import opened Order
  import opened CanonicalJson
  import opened JsonReader
  import opened Provider
  import opened JsonRollouts

  /** The line reads as an object whose field `type` is the string `session_meta`. */
  ghost predicate IsSessionLine(printed: Printed, line: string) {
    var record := Read(printed, Body(line));
    && record.Some? && record.value.Object?
    && "type" in record.value.fields && record.value.fields["type"] == String("session_meta")
  }

  ghost predicate HasPayload(record: Value) {
    record.Object? && "payload" in record.fields && record.fields["payload"].Object?
  }

  ghost predicate IsOfThread(record: Value, threadId: string)
    requires HasPayload(record)
  {
    "id" in record.fields["payload"].fields && record.fields["payload"].fields["id"] == String(threadId)
  }

  lemma SessionLineIsMeta(printed: Printed, line: string)
    ensures var record := Read(printed, Body(line));
      && (IsSessionLine(printed, line) <==> record.Some? && IsMeta(record.value))
      && (record.Some? ==> (HasPayload(record.value) <==> Payload(record.value).Some?))
      && (record.Some? && HasPayload(record.value) ==> Payload(record.value).value == record.value.fields["payload"])
  {
  }

  lemma ThreadIdAt(record: Value, threadId: string)
    requires HasPayload(record)
    ensures GetStr(record.fields["payload"], "id") == Some(threadId) <==> IsOfThread(record, threadId)
  {
  }

  // ---------- which rollouts are accepted ----------

  /** The line, if it is a session line, has a payload, and, if it is the first, the payload is of the thread. */
  ghost predicate LineFits(printed: Printed, line: string, threadId: string, first: bool) {
    IsSessionLine(printed, line) ==>
      var record := Read(printed, Body(line)).value;
      HasPayload(record) && (first ==> IsOfThread(record, threadId))
  }

  ghost predicate NoneBefore(printed: Printed, ls: seq<string>, i: nat)
    requires i <= |ls|
  {
    forall j :: 0 <= j < i ==> !IsSessionLine(printed, ls[j])
  }

  ghost predicate FitsAt(printed: Printed, ls: seq<string>, threadId: string, found: bool, i: nat)
    requires i < |ls|
  {
    LineFits(printed, ls[i], threadId, !found && NoneBefore(printed, ls, i))
  }

  ghost predicate AllFit(printed: Printed, ls: seq<string>, threadId: string, found: bool) {
    forall i: nat :: i < |ls| ==> FitsAt(printed, ls, threadId, found, i)
  }

  ghost predicate HasSession(printed: Printed, ls: seq<string>) {
    exists i :: 0 <= i < |ls| && IsSessionLine(printed, ls[i])
  }

  lemma LineIsTaken(printed: Printed, line: string, threadId: string, provider: string, first: bool)
    ensures var now := TransformLine(Reader(printed), line, threadId, provider, first);
      && (now.Ok? <==> LineFits(printed, line, threadId, first))
      && (now.Ok? ==> (now.value.Some? <==> IsSessionLine(printed, line)))
  {
    SessionLineIsMeta(printed, line);
    if IsSessionLine(printed, line) && HasPayload(Read(printed, Body(line)).value) {
      ThreadIdAt(Read(printed, Body(line)).value, threadId);
    }
  }

  lemma OneMoreFits(printed: Printed, line: string, rest: seq<string>, threadId: string, found: bool)
    ensures AllFit(printed, [line] + rest, threadId, found) <==>
      LineFits(printed, line, threadId, !found)
      && AllFit(printed, rest, threadId, found || IsSessionLine(printed, line))
  {
    var ls, later := [line] + rest, found || IsSessionLine(printed, line);
    assert FitsAt(printed, ls, threadId, found, 0) <==> LineFits(printed, line, threadId, !found);
    forall i: nat | i < |rest|
      ensures FitsAt(printed, ls, threadId, found, i + 1) <==> FitsAt(printed, rest, threadId, later, i)
    {
      NextFits(printed, line, rest, threadId, found, i);
    }
    if AllFit(printed, rest, threadId, later) && LineFits(printed, line, threadId, !found) {
      forall i: nat | i < |ls| ensures FitsAt(printed, ls, threadId, found, i) {
        assert i > 0 ==> FitsAt(printed, rest, threadId, later, i - 1);
      }
    }
  }

  lemma NextFits(printed: Printed, line: string, rest: seq<string>, threadId: string, found: bool, i: nat)
    requires i < |rest|
    ensures FitsAt(printed, [line] + rest, threadId, found, i + 1)
            <==> FitsAt(printed, rest, threadId, found || IsSessionLine(printed, line), i)
  {
    if IsSessionLine(printed, line) {
      assert ([line] + rest)[0] == line;
    } else {
      NoneBeforeMoves(printed, line, rest, i);
    }
  }

  lemma NoneBeforeMoves(printed: Printed, line: string, rest: seq<string>, i: nat)
    requires i < |rest| && !IsSessionLine(printed, line)
    ensures NoneBefore(printed, [line] + rest, i + 1) <==> NoneBefore(printed, rest, i)
  {
    var ls := [line] + rest;
    assert ls[0] == line && forall j :: 1 <= j <= |rest| ==> ls[j] == rest[j - 1];
    if NoneBefore(printed, ls, i + 1) {
      forall j | 0 <= j < i ensures !IsSessionLine(printed, rest[j]) {
        assert ls[j + 1] == rest[j];
      }
    }
  }

  lemma OneMoreHasSession(printed: Printed, line: string, rest: seq<string>)
    ensures HasSession(printed, [line] + rest) <==> IsSessionLine(printed, line) || HasSession(printed, rest)
  {
    var ls := [line] + rest;
    assert ls[0] == line && forall j :: 1 <= j <= |rest| ==> ls[j] == rest[j - 1];
    if HasSession(printed, rest) {
      var i :| 0 <= i < |rest| && IsSessionLine(printed, rest[i]);
      assert IsSessionLine(printed, ls[i + 1]);
    }
  }

  lemma {:induction false} LinesAreTaken(printed: Printed, ls: seq<string>, threadId: string, provider: string,
                                         found: bool)
    ensures var all := TransformLines(Reader(printed), ls, threadId, provider, found);
      && (all.Ok? <==> AllFit(printed, ls, threadId, found))
      && (all.Ok? ==> all.value.found == (found || HasSession(printed, ls)))
  {
    if ls != [] {
      var later := found || IsSessionLine(printed, ls[0]);
      LineIsTaken(printed, ls[0], threadId, provider, !found);
      LinesAreTaken(printed, ls[1..], threadId, provider, later);
      OneMoreFits(printed, ls[0], ls[1..], threadId, found);
      OneMoreHasSession(printed, ls[0], ls[1..]);
      assert ls == [ls[0]] + ls[1..];
    }
  }

  /** The line, if it is a session line, reads as a record with a payload. */
  ghost predicate PayloadThere(printed: Printed, line: string) {
    IsSessionLine(printed, line) ==> HasPayload(Read(printed, Body(line)).value)
  }

  /** Line `i` is the first session line, and it is of the thread. */
  ghost predicate OpensThread(printed: Printed, ls: seq<string>, threadId: string, i: nat) {
    && i < |ls| && IsSessionLine(printed, ls[i]) && NoneBefore(printed, ls, i)
    && HasPayload(Read(printed, Body(ls[i])).value)
    && IsOfThread(Read(printed, Body(ls[i])).value, threadId)
  }

  /** A rollout is accepted exactly if it has a session line, every session line has an object as payload, and the
      payload of the first of them has the id of the thread. */
  lemma AcceptedExactly(printed: Printed, source: string, threadId: string, provider: string)
    ensures TransformRollout(Reader(printed), source, threadId, provider).Ok? <==>
      && (forall i :: 0 <= i < |Lines(source)| ==> PayloadThere(printed, Lines(source)[i]))
      && (exists i :: OpensThread(printed, Lines(source), threadId, i))
  {
    var ls := Lines(source);
    LinesAreTaken(printed, ls, threadId, provider, false);
    assert TransformRollout(Reader(printed), source, threadId, provider).Ok? <==>
      AllFit(printed, ls, threadId, false) && HasSession(printed, ls);
    if i :| OpensThread(printed, ls, threadId, i) {
      assert HasSession(printed, ls);
    }
    if HasSession(printed, ls) {
      var k: nat :| k < |ls| && IsSessionLine(printed, ls[k]);
      var i := FirstSession(printed, ls, k);
      FitsMeans(printed, ls, threadId, i);
    }
  }

  lemma FitsMeans(printed: Printed, ls: seq<string>, threadId: string, first: nat)
    requires first < |ls| && IsSessionLine(printed, ls[first]) && NoneBefore(printed, ls, first)
    ensures AllFit(printed, ls, threadId, false) ==>
      && OpensThread(printed, ls, threadId, first)
      && forall i :: 0 <= i < |ls| ==> PayloadThere(printed, ls[i])
    ensures (exists i :: OpensThread(printed, ls, threadId, i))
            && (forall i :: 0 <= i < |ls| ==> PayloadThere(printed, ls[i])) ==>
      AllFit(printed, ls, threadId, false)
  {
    if AllFit(printed, ls, threadId, false) {
      assert FitsAt(printed, ls, threadId, false, first);
      forall i: nat | i < |ls| ensures PayloadThere(printed, ls[i]) {
        assert FitsAt(printed, ls, threadId, false, i);
      }
    }
    if (exists i :: OpensThread(printed, ls, threadId, i))
       && (forall i :: 0 <= i < |ls| ==> PayloadThere(printed, ls[i])) {
      var k :| OpensThread(printed, ls, threadId, k);
      FirstIsUnique(printed, ls, k);
      forall i: nat | i < |ls| ensures FitsAt(printed, ls, threadId, false, i) {
        assert PayloadThere(printed, ls[i]);
      }
    }
  }

  lemma {:induction false} FirstSession(printed: Printed, ls: seq<string>, k: nat) returns (i: nat)
    requires k < |ls| && IsSessionLine(printed, ls[k])
    ensures i < |ls| && IsSessionLine(printed, ls[i]) && NoneBefore(printed, ls, i)
    decreases k
  {
    i := k;
    if j: nat :| j < k && IsSessionLine(printed, ls[j]) {
      i := FirstSession(printed, ls, j);
    }
  }

  lemma FirstIsUnique(printed: Printed, ls: seq<string>, i: nat)
    requires i < |ls| && IsSessionLine(printed, ls[i]) && NoneBefore(printed, ls, i)
    ensures forall j: nat :: j < |ls| && IsSessionLine(printed, ls[j]) && NoneBefore(printed, ls, j) ==> j == i
  {
  }

  /** Line `i` is the first session line, and its payload is of another thread. */
  ghost predicate OpensOtherThread(printed: Printed, ls: seq<string>, threadId: string, i: nat) {
    && i < |ls| && IsSessionLine(printed, ls[i]) && NoneBefore(printed, ls, i)
    && HasPayload(Read(printed, Body(ls[i])).value)
    && !IsOfThread(Read(printed, Body(ls[i])).value, threadId)
  }

  lemma LineIsRefused(printed: Printed, line: string, threadId: string, provider: string, first: bool)
    requires TransformLine(Reader(printed), line, threadId, provider, first).Err?
    ensures IsSessionLine(printed, line)
    ensures TransformLine(Reader(printed), line, threadId, provider, first).error ==
      if HasPayload(Read(printed, Body(line)).value) then OtherThread else PayloadNotObject
    ensures HasPayload(Read(printed, Body(line)).value) ==>
      first && !IsOfThread(Read(printed, Body(line)).value, threadId)
  {
    SessionLineIsMeta(printed, line);
    if HasPayload(Read(printed, Body(line)).value) {
      ThreadIdAt(Read(printed, Body(line)).value, threadId);
    }
  }

  lemma OpeningMoves(printed: Printed, line: string, rest: seq<string>, threadId: string, i: nat)
    requires !IsSessionLine(printed, line)
    ensures OpensOtherThread(printed, [line] + rest, threadId, i + 1) <==> OpensOtherThread(printed, rest, threadId, i)
  {
    if i < |rest| {
      NoneBeforeMoves(printed, line, rest, i);
    }
  }

  lemma {:induction false} LinesAreRefused(printed: Printed, ls: seq<string>, threadId: string, provider: string,
                                           found: bool)
    requires TransformLines(Reader(printed), ls, threadId, provider, found).Err?
    ensures var error := TransformLines(Reader(printed), ls, threadId, provider, found).error;
      && error != NoSessionMeta
      && HasSession(printed, ls)
      && (error == OtherThread <==> !found && exists i :: OpensOtherThread(printed, ls, threadId, i))
  {
    var now := TransformLine(Reader(printed), ls[0], threadId, provider, !found);
    LineIsTaken(printed, ls[0], threadId, provider, !found);
    if now.Err? {
      LineIsRefused(printed, ls[0], threadId, provider, !found);
      assert NoneBefore(printed, ls, 0);
      assert HasPayload(Read(printed, Body(ls[0])).value) ==> OpensOtherThread(printed, ls, threadId, 0);
      assert forall i :: OpensOtherThread(printed, ls, threadId, i) ==> i == 0;
    } else {
      LinesAreRefused(printed, ls[1..], threadId, provider, found || now.value.Some?);
      assert ls == [ls[0]] + ls[1..];
      OneMoreHasSession(printed, ls[0], ls[1..]);
      if IsSessionLine(printed, ls[0]) {
        assert forall i :: OpensOtherThread(printed, ls, threadId, i) ==> i == 0;
      } else {
        LaterOpening(printed, ls[0], ls[1..], threadId);
      }
    }
  }

  lemma LaterOpening(printed: Printed, line: string, rest: seq<string>, threadId: string)
    requires !IsSessionLine(printed, line)
    ensures (exists i :: OpensOtherThread(printed, [line] + rest, threadId, i))
            <==> exists i :: OpensOtherThread(printed, rest, threadId, i)
  {
    if i :| OpensOtherThread(printed, rest, threadId, i) {
      OpeningMoves(printed, line, rest, threadId, i);
    }
    if i: nat :| OpensOtherThread(printed, [line] + rest, threadId, i) {
      assert i > 0;
      OpeningMoves(printed, line, rest, threadId, i - 1);
    }
  }

  /** What a refusal says: that there is no session line, that the first one is of another thread, or else that one
      has no object as payload. */
  lemma RefusedBecause(printed: Printed, source: string, threadId: string, provider: string)
    requires TransformRollout(Reader(printed), source, threadId, provider).Err?
    ensures var error := TransformRollout(Reader(printed), source, threadId, provider).error;
      && (error == NoSessionMeta <==> !HasSession(printed, Lines(source)))
      && (error == OtherThread <==> exists i :: OpensOtherThread(printed, Lines(source), threadId, i))
  {
    var ls := Lines(source);
    LinesAreTaken(printed, ls, threadId, provider, false);
    if TransformLines(Reader(printed), ls, threadId, provider, false).Err? {
      LinesAreRefused(printed, ls, threadId, provider, false);
    }
  }

  // ---------- what becomes of a line ----------

  /** The rewritten file has as many lines, each with its ending. */
  lemma RewrittenLines(printed: Printed, source: string, threadId: string, provider: string)
    requires TransformRollout(Reader(printed), source, threadId, provider).Ok?
    ensures Lines(TransformRollout(Reader(printed), source, threadId, provider).value)
         == TransformLines(Reader(printed), Lines(source), threadId, provider, false).value.lines
    ensures SameShape(Lines(TransformRollout(Reader(printed), source, threadId, provider).value), Lines(source))
  {
    var ls := Lines(source);
    LinesAreLines(source);
    RewriteKeepsShape(Reader(printed), ls, threadId, provider, false);
    var written := TransformLines(Reader(printed), ls, threadId, provider, false).value.lines;
    SameShapeSplitsAlike(written, ls);
    LinesOfConcat(written);
    assert "" + Concat(written) == Concat(written);
  }

  /** A line that is no session record keeps every byte, whatever it holds and wherever it stands. */
  lemma OtherLinesStay(printed: Printed, source: string, threadId: string, provider: string, i: nat)
    requires TransformRollout(Reader(printed), source, threadId, provider).Ok? && i < |Lines(source)|
    requires !IsSessionLine(printed, Lines(source)[i])
    ensures var out := Lines(TransformRollout(Reader(printed), source, threadId, provider).value);
      |out| == |Lines(source)| && out[i] == Lines(source)[i]
  {
    RewrittenLines(printed, source, threadId, provider);
    SessionLineIsMeta(printed, Lines(source)[i]);
    OtherLinesKeepTheirBytes(Reader(printed), Lines(source), threadId, provider, false, i);
  }

  /** The record, but for the provider in its payload, which is the one given. */
  ghost predicate IsWithProvider(record: Value, again: Value, provider: string)
    requires HasPayload(record)
  {
    && HasPayload(again)
    && again.fields.Keys == record.fields.Keys
    && (forall k :: k in record.fields && k != "payload" ==> again.fields[k] == record.fields[k])
    && var payload, payload' := record.fields["payload"].fields, again.fields["payload"].fields;
       && payload'.Keys == payload.Keys + {"model_provider"}
       && payload'["model_provider"] == String(provider)
       && (forall k :: k in payload && k != "model_provider" ==> payload'[k] == payload[k])
  }

  /** The floats of the record hold, wherever they are but in the old provider. */
  ghost predicate FloatsOfRecordHold(printed: Printed, record: Value)
    requires HasPayload(record)
  {
    && (forall k :: k in record.fields && k != "payload" ==> FloatsHold(printed, record.fields[k]))
    && var payload := record.fields["payload"].fields;
       forall k :: k in payload && k != "model_provider" ==> FloatsHold(printed, payload[k])
  }

  lemma IsWithProviderMeans(record: Value, again: Value, provider: string)
    requires HasPayload(record)
    ensures IsWithProvider(record, again, provider) <==> again == WithProvider(record, provider)
  {
    var payload, w := record.fields["payload"].fields, WithProvider(record, provider);
    assert w.fields["payload"] == Object(payload["model_provider" := String(provider)]);
    if IsWithProvider(record, again, provider) {
      assert again.fields["payload"].fields == payload["model_provider" := String(provider)];
      assert again.fields == w.fields;
    }
  }

  lemma FloatsOfRecord(printed: Printed, record: Value, provider: string)
    requires HasPayload(record)
    ensures FloatsHold(printed, WithProvider(record, provider)) <==> FloatsOfRecordHold(printed, record)
  {
    var w := WithProvider(record, provider);
    var payload, payload' := record.fields["payload"].fields, w.fields["payload"].fields;
    assert FloatsHold(printed, w.fields["payload"]) <==>
      forall k :: k in payload' ==> FloatsHold(printed, payload'[k]);
    if FloatsHold(printed, w) {
      assert FloatsHold(printed, w.fields["payload"]);
      forall k | k in record.fields && k != "payload" ensures FloatsHold(printed, record.fields[k]) {
        assert k in w.fields && w.fields[k] == record.fields[k];
      }
      forall k | k in payload && k != "model_provider" ensures FloatsHold(printed, payload[k]) {
        assert k in payload' && payload'[k] == payload[k];
      }
    }
  }

  /** A session line keeps its ending and its record, with the target as the provider: that is what it reads back as,
      exactly if its floats hold. */
  lemma SessionLinesTakeTheProvider(printed: Printed, source: string, threadId: string, provider: string, i: nat)
    requires TransformRollout(Reader(printed), source, threadId, provider).Ok? && i < |Lines(source)|
    requires IsSessionLine(printed, Lines(source)[i]) && ValidUtf8(provider)
    ensures var line := Lines(source)[i];
      var out := Lines(TransformRollout(Reader(printed), source, threadId, provider).value);
      && |out| == |Lines(source)| && Ending(out[i]) == Ending(line)
      && HasPayload(Read(printed, Body(line)).value)
      && (FloatsOfRecordHold(printed, Read(printed, Body(line)).value) <==>
            && Read(printed, Body(out[i])).Some?
            && IsWithProvider(Read(printed, Body(line)).value, Read(printed, Body(out[i])).value, provider))
  {
    var line := Lines(source)[i];
    var record := Read(printed, Body(line)).value;
    RewrittenLines(printed, source, threadId, provider);
    SessionLineIsMeta(printed, line);
    OtherLinesKeepTheirBytes(Reader(printed), Lines(source), threadId, provider, false, i);
    var w := WithProvider(record, provider);
    EndingOfLine(line);
    RewrittenLine(w, Ending(line));
    ReadIsReadable(printed, Body(line), RECURSION_LIMIT);
    WithProviderIsReadable(record, provider, RECURSION_LIMIT);
    ReadsBackExactly(printed, w);
    FloatsOfRecord(printed, record, provider);
    var again := Read(printed, Text(w));
    if again.Some? {
      IsWithProviderMeans(record, again.value, provider);
    }
  }
}
