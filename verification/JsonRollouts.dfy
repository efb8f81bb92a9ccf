/** The provider rewrite on JSON as the program reads it: exactly which rollouts it may be applied to in stages. */
module JsonRollouts {
  import opened Basics
  import opened Json
  import opened Order
  import opened CanonicalJson
  import opened JsonReader
  import opened Provider

  /** `serde_json::from_slice` with the given treatment of floats. */
  function Reader(printed: Printed): string -> Option<Value> {
    text => Read(printed, text)
  }

  predicate IsSession(record: Option<Value>) {
    record.Some? && IsMeta(record.value) && Payload(record.value).Some?
  }

  /** The floats of a session record hold, whatever its provider is. */
  ghost predicate RecordHolds(printed: Printed, line: string) {
    var record := Read(printed, Body(line));
    IsSession(record) ==> FloatsHold(printed, WithProvider(record.value, ""))
  }

  /** Every float in every session record is printed as it would be if it were read once more. */
  ghost predicate SessionFloatsHold(printed: Printed, ls: seq<string>) {
    forall i :: 0 <= i < |ls| ==> RecordHolds(printed, ls[i])
  }

  lemma {:induction false} AsciiIsUtf8(s: string)
    requires forall c :: c in s ==> c as int < 0x80
    ensures ValidUtf8(s)
  {
    if s != [] {
      assert s[0] in s && forall c :: c in s[1..] ==> c in s;
      AsciiIsUtf8(s[1..]);
    }
  }

  lemma WithProviderIsReadable(v: Value, provider: string, depth: nat)
    requires Readable(v, depth) && Payload(v).Some? && ValidUtf8(provider)
    ensures Readable(WithProvider(v, provider), depth)
  {
    AsciiIsUtf8("model_provider");
    var payload := WithProvider(v, provider).fields["payload"];
    assert Readable(v.fields["payload"], depth - 1);
    assert Readable(payload, depth - 1);
  }

  /** Which provider it is does not matter to the floats. */
  lemma FloatsOfAnyProvider(printed: Printed, v: Value, p: string, q: string)
    requires Payload(v).Some? && FloatsHold(printed, WithProvider(v, p))
    ensures FloatsHold(printed, WithProvider(v, q))
  {
    var a, b := WithProvider(v, p).fields["payload"], WithProvider(v, q).fields["payload"];
    assert FloatsHold(printed, a);
    forall k | k in b.fields ensures FloatsHold(printed, b.fields[k]) {
      assert k in a.fields && FloatsHold(printed, a.fields[k]);
    }
    forall k | k in WithProvider(v, q).fields ensures FloatsHold(printed, WithProvider(v, q).fields[k]) {
      assert k in WithProvider(v, p).fields && FloatsHold(printed, WithProvider(v, p).fields[k]);
    }
  }

  /** A rewritten session record reads back exactly if its floats hold. */
  lemma ReadsBackIffHolds(printed: Printed, line: string, provider: string)
    requires ValidUtf8(provider)
    ensures ReadsBackAt(Reader(printed), line, provider) <==> RecordHolds(printed, line)
  {
    var record := Read(printed, Body(line));
    if IsSession(record) {
      ReadIsReadable(printed, Body(line), RECURSION_LIMIT);
      WithProviderIsReadable(record.value, provider, RECURSION_LIMIT);
      ReadsBackExactly(printed, WithProvider(record.value, provider));
      if FloatsHold(printed, WithProvider(record.value, "")) {
        FloatsOfAnyProvider(printed, record.value, "", provider);
      }
      if FloatsHold(printed, WithProvider(record.value, provider)) {
        FloatsOfAnyProvider(printed, record.value, provider, "");
      }
    }
  }

  lemma AllReadBack(printed: Printed, ls: seq<string>, provider: string)
    requires ValidUtf8(provider) && SessionFloatsHold(printed, ls)
    ensures ReadsBack(Reader(printed), ls, provider)
  {
    forall i | 0 <= i < |ls| ensures ReadsBackAt(Reader(printed), ls[i], provider) {
      ReadsBackIffHolds(printed, ls[i], provider);
    }
  }

  // ---------- why the condition is needed ----------

  lemma SameElsewhere(f: map<string, Value>, g: map<string, Value>, key: string, x: Value, y: Value, k: string)
    requires f[key := x] == g[key := y] && k != key && k in f
    ensures k in g && f[k] == g[k]
  {
    assert k in f[key := x] && f[key := x][k] == f[k];
  }

  lemma SamePayloadHolds(printed: Printed, a: Value, b: Value, p: string)
    requires a.Object? && b.Object? && Reread(printed, a) == Some(b)
    requires GetStr(a, "model_provider").Some?
    requires a.fields["model_provider" := String(p)] == b.fields["model_provider" := String(p)]
    ensures FloatsHold(printed, a)
  {
    RereadFieldsAt(printed, a, InOrder(a.fields.Keys));
    forall k | k in a.fields ensures FloatsHold(printed, a.fields[k]) {
      if k != "model_provider" {
        SameElsewhere(a.fields, b.fields, "model_provider", String(p), String(p), k);
        RereadIsSame(printed, a.fields[k]);
      }
    }
  }

  /** If reading a record again changes nothing but possibly its provider, its floats hold. */
  lemma SameRecordHolds(printed: Printed, x: Value, w: Value, p: string)
    requires IsSession(Some(x)) && IsSession(Some(w)) && Reread(printed, x) == Some(w)
    requires GetStr(Payload(x).value, "model_provider").Some?
    requires WithProvider(w, p) == WithProvider(x, p)
    ensures FloatsHold(printed, x)
  {
    var a, b := Payload(x).value, Payload(w).value;
    RereadFieldsAt(printed, x, InOrder(x.fields.Keys));
    assert WithProvider(x, p).fields["payload"] == WithProvider(w, p).fields["payload"];
    SamePayloadHolds(printed, a, b, p);
    forall k | k in x.fields ensures FloatsHold(printed, x.fields[k]) {
      if k != "payload" {
        SameElsewhere(x.fields, w.fields, "payload", WithProvider(x, p).fields["payload"],
                      WithProvider(w, p).fields["payload"], k);
        RereadIsSame(printed, x.fields[k]);
      }
    }
  }

  lemma ProvidersDiffer(v: Value, p1: string, p2: string)
    requires Payload(v).Some? && p1 != p2
    ensures Text(WithProvider(v, p1)) != Text(WithProvider(v, p2))
  {
    var a, b := WithProvider(v, p1), WithProvider(v, p2);
    assert a.fields["payload"].fields["model_provider"] == String(p1);
    assert b.fields["payload"].fields["model_provider"] == String(p2);
    if Text(a) == Text(b) {
      CanonicalJsonIsInjective(a, b);
      assert false;
    }
  }

  function Written(line: string, transformed: Option<string>): string {
    if transformed.Some? then transformed.value else line
  }

  /** What the second rewrite of a rewritten record works on. */
  lemma RewrittenOnce(printed: Printed, v: Value, ending: string, threadId: string, p1: string, p2: string, first: bool)
    requires Readable(v, RECURSION_LIMIT) && IsSession(Some(v)) && ValidUtf8(p1) && IsEnding(ending)
    ensures TransformLine(Reader(printed), Text(WithProvider(v, p1)) + ending, threadId, p2, first)
         == TransformParsed(Reread(printed, WithProvider(v, p1)), ending, threadId, p2, first)
  {
    RewrittenLine(WithProvider(v, p1), ending);
    WithProviderIsReadable(v, p1, RECURSION_LIMIT);
    CanonicalReads(printed, WithProvider(v, p1));
  }

  /** A record read again whose second rewrite is the direct one holds. */
  lemma SameTextHolds(printed: Printed, v: Value, ending: string, threadId: string, p1: string, p2: string, first: bool)
    requires IsSession(Some(v)) && p1 != p2
    requires var x := WithProvider(v, p1);
      var twice := TransformParsed(Reread(printed, x), ending, threadId, p2, first);
      twice.Ok? && Written(Text(x) + ending, twice.value) == Text(WithProvider(v, p2)) + ending
    ensures FloatsHold(printed, WithProvider(v, p1))
    ensures TransformParsed(Reread(printed, WithProvider(v, p1)), ending, threadId, p2, first).value.Some?
  {
    var x := WithProvider(v, p1);
    var again := Reread(printed, x);
    OtherProvider(v, p1, p2);
    ProvidersDiffer(v, p1, p2);
    SameEnding(Text(x), Text(WithProvider(v, p2)), ending);
    assert IsSession(again);
    SameEnding(Text(WithProvider(again.value, p2)), Text(WithProvider(v, p2)), ending);
    CanonicalJsonIsInjective(WithProvider(again.value, p2), WithProvider(v, p2));
    SameRecordHolds(printed, x, again.value, p2);
  }

  /** One line, rewritten to `p1` and then to `p2`, comes out as if rewritten to `p2` only if its floats hold. */
  lemma SameLineHolds(printed: Printed, line: string, threadId: string, p1: string, p2: string, first: bool)
    requires IsLine(line) && ValidUtf8(p1) && p1 != p2
    requires TransformLine(Reader(printed), line, threadId, p1, first).Ok?
    requires TransformLine(Reader(printed), line, threadId, p2, first).Ok?
    requires var once := Written(line, TransformLine(Reader(printed), line, threadId, p1, first).value);
      && TransformLine(Reader(printed), once, threadId, p2, first).Ok?
      && Written(once, TransformLine(Reader(printed), once, threadId, p2, first).value)
         == Written(line, TransformLine(Reader(printed), line, threadId, p2, first).value)
    ensures RecordHolds(printed, line)
    ensures var once := Written(line, TransformLine(Reader(printed), line, threadId, p1, first).value);
      TransformLine(Reader(printed), once, threadId, p2, first).value.Some?
      <==> TransformLine(Reader(printed), line, threadId, p2, first).value.Some?
  {
    var record := Read(printed, Body(line));
    if IsSession(record) {
      EndingOfLine(line);
      ReadIsReadable(printed, Body(line), RECURSION_LIMIT);
      RewrittenOnce(printed, record.value, Ending(line), threadId, p1, p2, first);
      SameTextHolds(printed, record.value, Ending(line), threadId, p1, p2, first);
      FloatsOfAnyProvider(printed, record.value, p1, "");
    }
  }

  lemma SameEnding(a: string, b: string, ending: string)
    ensures a + ending == b + ending ==> a == b
  {
    assert (a + ending)[..|a|] == a;
    assert |a + ending| == |b + ending| ==> (b + ending)[..|b|] == b;
  }

  // ---------- whole files ----------

  /** Rewriting the lines to `p1` and then to `p2` comes to the same as rewriting them to `p2`. */
  ghost predicate SameLines(printed: Printed, ls: seq<string>, threadId: string, p1: string, p2: string, found: bool) {
    var once := TransformLines(Reader(printed), ls, threadId, p1, found);
    var direct := TransformLines(Reader(printed), ls, threadId, p2, found);
    once.Ok? && direct.Ok? && TransformLines(Reader(printed), once.value.lines, threadId, p2, found) == direct
  }

  lemma AndThenEqual(x: string, r: Result<Progress, Provider.Error>, y: string, q: Result<Progress, Provider.Error>)
    requires AndThen(x, r) == AndThen(y, q) && AndThen(y, q).Ok?
    ensures x == y && r == q
  {
    assert ([x] + r.value.lines)[0] == x && ([x] + r.value.lines)[1..] == r.value.lines;
    assert ([y] + q.value.lines)[0] == y && ([y] + q.value.lines)[1..] == q.value.lines;
  }

  lemma SameFirstLine(printed: Printed, line: string, rest: seq<string>, threadId: string, p1: string, p2: string,
                      found: bool)
    requires IsLine(line) && ValidUtf8(p1) && p1 != p2
    requires SameLines(printed, [line] + rest, threadId, p1, p2, found)
    ensures RecordHolds(printed, line)
    ensures var now := TransformLine(Reader(printed), line, threadId, p1, !found);
      now.Ok? && SameLines(printed, rest, threadId, p1, p2, found || now.value.Some?)
  {
    var parse := Reader(printed);
    Unfold(parse, line, rest, threadId, p1, found);
    Unfold(parse, line, rest, threadId, p2, found);
    var a, b := TransformLine(parse, line, threadId, p1, !found).value,
        TransformLine(parse, line, threadId, p2, !found).value;
    var first := Written(line, a);
    var once := TransformLines(parse, rest, threadId, p1, found || a.Some?).value.lines;
    assert TransformLines(parse, [line] + rest, threadId, p1, found).value.lines == [first] + once;
    Unfold(parse, first, once, threadId, p2, found);
    var t := TransformLine(parse, first, threadId, p2, !found).value;
    AndThenEqual(Written(first, t), TransformLines(parse, once, threadId, p2, found || t.Some?),
                 Written(line, b), TransformLines(parse, rest, threadId, p2, found || b.Some?));
    SameLineHolds(printed, line, threadId, p1, p2, !found);
  }

  lemma OneMoreHolds(printed: Printed, line: string, rest: seq<string>)
    requires RecordHolds(printed, line) && SessionFloatsHold(printed, rest)
    ensures SessionFloatsHold(printed, [line] + rest)
  {
  }

  lemma {:induction false} SameLinesHold(printed: Printed, ls: seq<string>, threadId: string, p1: string, p2: string,
                                         found: bool)
    requires (forall i :: 0 <= i < |ls| ==> IsLine(ls[i])) && ValidUtf8(p1) && p1 != p2
    requires SameLines(printed, ls, threadId, p1, p2, found)
    ensures SessionFloatsHold(printed, ls)
  {
    if ls != [] {
      assert ls == [ls[0]] + ls[1..];
      SameFirstLine(printed, ls[0], ls[1..], threadId, p1, p2, found);
      var now := TransformLine(Reader(printed), ls[0], threadId, p1, !found).value;
      SameLinesHold(printed, ls[1..], threadId, p1, p2, found || now.Some?);
      OneMoreHolds(printed, ls[0], ls[1..]);
    }
  }

  /** Rewriting to one provider and then to another is rewriting to the second, provided the floats hold. */
  lemma RewriteFuses(printed: Printed, source: string, threadId: string, p1: string, p2: string)
    requires ValidUtf8(p1) && SessionFloatsHold(printed, Lines(source))
    ensures var parse := Reader(printed);
      var once, direct := TransformRollout(parse, source, threadId, p1), TransformRollout(parse, source, threadId, p2);
      && (once.Ok? ==> TransformRollout(parse, once.value, threadId, p2) == direct)
      && (once.Err? <==> direct.Err?)
      && (once.Err? ==> once.error == direct.error)
  {
    AllReadBack(printed, Lines(source), p1);
    Provider.RewriteFuses(Reader(printed), source, threadId, p1, p2);
  }

  /** Equal texts put together from lines of one shape are equal lines. */
  lemma SameTextSameLines(ms: seq<string>, ns: seq<string>, ls: seq<string>)
    requires AreLines(ls) && SameShape(ms, ls) && SameShape(ns, ls) && Concat(ms) == Concat(ns)
    ensures ms == ns
  {
    SameShapeSplitsAlike(ms, ls);
    SameShapeSplitsAlike(ns, ls);
    LinesOfConcat(ms);
    LinesOfConcat(ns);
  }

  lemma SameShapeAgain(ks: seq<string>, ms: seq<string>, ls: seq<string>)
    requires SameShape(ks, ms) && SameShape(ms, ls)
    ensures SameShape(ks, ls)
  {
  }

  /** Two stages that give what one stage gives do so line by line. */
  lemma SameFileSameLines(printed: Printed, source: string, threadId: string, p1: string, p2: string)
    requires TransformRollout(Reader(printed), source, threadId, p1).Ok?
    requires TransformRollout(Reader(printed), source, threadId, p2).Ok?
    requires TransformRollout(Reader(printed), TransformRollout(Reader(printed), source, threadId, p1).value,
             threadId, p2)
          == TransformRollout(Reader(printed), source, threadId, p2)
    ensures SameLines(printed, Lines(source), threadId, p1, p2, false)
  {
    var parse, ls := Reader(printed), Lines(source);
    LinesAreLines(source);
    RewriteKeepsShape(parse, ls, threadId, p1, false);
    RewriteKeepsShape(parse, ls, threadId, p2, false);
    var once, direct := TransformLines(parse, ls, threadId, p1, false).value,
        TransformLines(parse, ls, threadId, p2, false).value;
    assert "" + Concat(once.lines) == Concat(once.lines) && "" + Concat(direct.lines) == Concat(direct.lines);
    SameShapeSplitsAlike(once.lines, ls);
    LinesOfConcat(once.lines);
    RewriteKeepsShape(parse, once.lines, threadId, p2, false);
    var twice := TransformLines(parse, once.lines, threadId, p2, false).value;
    assert "" + Concat(twice.lines) == Concat(twice.lines);
    SameShapeAgain(twice.lines, once.lines, ls);
    SameTextSameLines(twice.lines, direct.lines, ls);
  }

  /** Going through another provider gives what going there directly gives exactly if the floats of all session records
      hold. */
  lemma RewriteFusesExactly(printed: Printed, source: string, threadId: string, p1: string, p2: string)
    requires ValidUtf8(p1) && p1 != p2 && TransformRollout(Reader(printed), source, threadId, p1).Ok?
    ensures TransformRollout(Reader(printed), TransformRollout(Reader(printed), source, threadId, p1).value, threadId,
            p2)
              == TransformRollout(Reader(printed), source, threadId, p2)
            <==> SessionFloatsHold(printed, Lines(source))
  {
    RefusedAlike(Reader(printed), Lines(source), threadId, p1, p2, false);
    if SessionFloatsHold(printed, Lines(source)) {
      RewriteFuses(printed, source, threadId, p1, p2);
    } else if TransformRollout(Reader(printed), TransformRollout(Reader(printed), source, threadId, p1).value,
        threadId, p2)
                == TransformRollout(Reader(printed), source, threadId, p2) {
      LinesAreLines(source);
      SameFileSameLines(printed, source, threadId, p1, p2);
      SameLinesHold(printed, Lines(source), threadId, p1, p2, false);
      assert false;
    }
  }

  /** A rewritten file whose floats hold is a fixed point of the rewrite. */
  lemma RewriteIsIdempotent(printed: Printed, source: string, threadId: string, provider: string)
    requires ValidUtf8(provider) && SessionFloatsHold(printed, Lines(source))
    ensures var once := TransformRollout(Reader(printed), source, threadId, provider);
      once.Ok? ==> TransformRollout(Reader(printed), once.value, threadId, provider) == once
  {
    RewriteFuses(printed, source, threadId, provider, provider);
  }

  /** Two machines that materialised the same rollout for their own providers canonicalise it to the same bytes. */
  lemma ProvidersCanonicaliseAlike(printed: Printed, source: string, threadId: string,
                                   mine: string, theirs: string, neutral: string)
    requires ValidUtf8(mine) && ValidUtf8(theirs) && SessionFloatsHold(printed, Lines(source))
    ensures var parse := Reader(printed);
      var a, b := TransformRollout(parse, source, threadId, mine), TransformRollout(parse, source, threadId, theirs);
      && (a.Ok? <==> b.Ok?)
      && (a.Ok? ==>
            TransformRollout(parse, a.value, threadId, neutral) == TransformRollout(parse, b.value, threadId, neutral))
  {
    RewriteFuses(printed, source, threadId, mine, neutral);
    RewriteFuses(printed, source, threadId, theirs, neutral);
  }

  // ---------- a float that does not hold ----------

  function Pair(k: string, v: Value, l: string, w: Value): Value {
    Object(map[k := v, l := w])
  }

  function PayloadWith(threadId: string, float: FloatText): Value {
    Pair("id", String(threadId), "since", Number(Float(float)))
  }

  function SessionWith(threadId: string, float: FloatText): Value {
    Pair("type", String("session_meta"), "payload", PayloadWith(threadId, float))
  }

  lemma PairIsReadable(k: string, v: Value, l: string, w: Value, depth: nat)
    requires depth > 1 && ValidUtf8(k) && ValidUtf8(l) && Readable(v, depth - 1) && Readable(w, depth - 1)
    ensures Readable(Pair(k, v, l, w), depth)
  {
  }

  lemma RereadPair(printed: Printed, k: string, v: Value, l: string, w: Value, v': Value, w': Value)
    requires k != l && Reread(printed, v) == Some(v') && Reread(printed, w) == Some(w')
    ensures Reread(printed, Pair(k, v, l, w)) == Some(Pair(k, v', l, w'))
  {
    RereadObject(printed, map[k := v, l := w], map[k := v', l := w']);
  }

  lemma KeysDiffer()
    ensures "id" != "since" && "type" != "payload" && "since" != "model_provider" && "id" != "model_provider"
  {
    assert |"id"| == 2 && |"since"| == 5 && |"type"| == 4 && |"payload"| == 7 && |"model_provider"| == 14;
  }

  lemma NamesAreUtf8()
    ensures ValidUtf8("id") && ValidUtf8("since") && ValidUtf8("type") && ValidUtf8("payload")
            && ValidUtf8("session_meta")
  {
    AsciiIsUtf8("id");
    AsciiIsUtf8("since");
    AsciiIsUtf8("type");
    AsciiIsUtf8("payload");
    AsciiIsUtf8("session_meta");
  }

  lemma PairInPairIsReadable(k: string, v: Value, l: string, m: string, w: Value, n: string, x: Value)
    requires ValidUtf8(k) && ValidUtf8(l) && ValidUtf8(m) && ValidUtf8(n)
    requires Readable(v, RECURSION_LIMIT - 1) && Readable(w, RECURSION_LIMIT - 2) && Readable(x, RECURSION_LIMIT - 2)
    ensures Readable(Pair(k, v, l, Pair(m, w, n, x)), RECURSION_LIMIT)
  {
    PairIsReadable(m, w, n, x, RECURSION_LIMIT - 1);
    PairIsReadable(k, v, l, Pair(m, w, n, x), RECURSION_LIMIT);
  }

  lemma SessionIsReadable(threadId: string, t: FloatText)
    requires ValidUtf8(threadId)
    ensures Readable(SessionWith(threadId, t), RECURSION_LIMIT)
  {
    NamesAreUtf8();
    PairInPairIsReadable("type", String("session_meta"), "payload", "id", String(threadId), "since", Number(Float(t)));
  }

  lemma SessionReads(printed: Printed, threadId: string, t: FloatText, u: FloatText)
    requires printed(t) == Some(u) && ValidUtf8(threadId)
    ensures Read(printed, Text(SessionWith(threadId, t))) == Some(SessionWith(threadId, u))
  {
    KeysDiffer();
    SessionIsReadable(threadId, t);
    CanonicalReads(printed, SessionWith(threadId, t));
    RereadPair(printed, "id", String(threadId), "since", Number(Float(t)), String(threadId), Number(Float(u)));
    RereadPair(printed, "type", String("session_meta"), "payload", PayloadWith(threadId, t),
               String("session_meta"), PayloadWith(threadId, u));
  }

  lemma SessionIsSession(threadId: string, u: FloatText)
    ensures var w := SessionWith(threadId, u);
      IsSession(Some(w)) && Payload(w) == Some(PayloadWith(threadId, u))
          && GetStr(Payload(w).value, "id") == Some(threadId)
  {
    KeysDiffer();
  }

  lemma SessionDoesNotHold(printed: Printed, threadId: string, u: FloatText)
    requires printed(u) != Some(u) && Payload(SessionWith(threadId, u)) == Some(PayloadWith(threadId, u))
    ensures !FloatsHold(printed, WithProvider(SessionWith(threadId, u), ""))
  {
    KeysDiffer();
    var w := WithProvider(SessionWith(threadId, u), "");
    var payload := w.fields["payload"];
    assert "since" in payload.fields && payload.fields["since"] == Number(Float(u));
    assert !FloatsHold(printed, payload.fields["since"]);
    assert !FloatsHold(printed, payload);
  }

  /** With a float whose printed form is read as another float the two ways differ: `float_roundtrip` is not enabled. */
  lemma UnstableFloatBreaksFusion(printed: Printed, t: FloatText, u: FloatText, threadId: string, p1: string,
                                  p2: string)
    requires printed(t) == Some(u) && printed(u) != Some(u)
    requires ValidUtf8(threadId) && ValidUtf8(p1) && p1 != p2
    ensures var source := Text(SessionWith(threadId, t));
      var once := TransformRollout(Reader(printed), source, threadId, p1);
      && once.Ok?
      && TransformRollout(Reader(printed), once.value, threadId, p2)
          != TransformRollout(Reader(printed), source, threadId, p2)
  {
    var source := Text(SessionWith(threadId, t));
    SessionReads(printed, threadId, t, u);
    SessionIsSession(threadId, u);
    SessionDoesNotHold(printed, threadId, u);
    TextIsOneLine(SessionWith(threadId, t));
    OneLineFile(source);
    OneSession(printed, source, SessionWith(threadId, u), threadId, p1);
    RewriteFusesExactly(printed, source, threadId, p1, p2);
  }

  lemma OneSession(printed: Printed, source: string, record: Value, threadId: string, provider: string)
    requires Lines(source) == [source] && Body(source) == source && Read(printed, source) == Some(record)
    requires IsSession(Some(record)) && GetStr(Payload(record).value, "id") == Some(threadId)
    requires !FloatsHold(printed, WithProvider(record, ""))
    ensures TransformRollout(Reader(printed), source, threadId, provider).Ok?
            && !SessionFloatsHold(printed, Lines(source))
  {
    OnlyLine(Reader(printed), source, threadId, provider);
    assert !RecordHolds(printed, Lines(source)[0]);
  }
}
