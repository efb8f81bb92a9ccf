/** The provider rewrite of a rollout file, line by line, and why rewriting twice is rewriting once. */
module Provider {
  import opened Basics
  import opened Json
  import opened CanonicalJson

  datatype Error = PayloadNotObject | OtherThread | NoSessionMeta

  // ---------- one line ----------

  function Ending(line: string): (ending: string)
    ensures |ending| <= |line|
  {
    var n := |line|;
    if n >= 2 && line[n - 2] == '\r' && line[n - 1] == '\n' then "\r\n"
    else if n >= 1 && line[n - 1] == '\n' then "\n"
    else ""
  }

  function Body(line: string): string {
    line[..|line| - |Ending(line)|]
  }

  /** `value.get(key).and_then(Value::as_str)`. */
  function GetStr(v: Value, key: string): Option<string> {
    if v.Object? && key in v.fields && v.fields[key].String? then Some(v.fields[key].text) else None
  }

  function Payload(v: Value): Option<Value> {
    if v.Object? && "payload" in v.fields && v.fields["payload"].Object? then Some(v.fields["payload"]) else None
  }

  predicate IsMeta(v: Value) {
    GetStr(v, "type") == Some("session_meta")
  }

  function WithProvider(v: Value, provider: string): Value
    requires Payload(v).Some?
  {
    var payload := Object(Payload(v).value.fields["model_provider" := String(provider)]);
    Object(v.fields["payload" := payload])
  }

  /** `transform_jsonl_line`, on text that was already parsed (`None`: it is no JSON): the new line if the line is
      session metadata, `None` if the line stays as it is. */
  ghost function TransformParsed(parsed: Option<Value>, ending: string, threadId: string, provider: string, first: bool)
      : Result<Option<string>, Error>
  {
    if parsed.None? || !IsMeta(parsed.value) then Ok(None)
    else if Payload(parsed.value).None? then Err(PayloadNotObject)
    else if first && GetStr(Payload(parsed.value).value, "id") != Some(threadId) then Err(OtherThread)
    else Ok(Some(Text(WithProvider(parsed.value, provider)) + ending))
  }

  ghost function TransformLine(parse: string -> Option<Value>, line: string, threadId: string, provider: string,
                               first: bool)
      : Result<Option<string>, Error>
  {
    TransformParsed(parse(Body(line)), Ending(line), threadId, provider, first)
  }

  // ---------- lines ----------

  /** The length of the first line of a non-empty text, with its line feed if it has one. */
  function LineLength(s: string): (n: nat)
    requires s != []
    ensures 0 < n <= |s|
  {
    if s[0] == '\n' || |s| == 1 then 1 else 1 + LineLength(s[1..])
  }

  /** What repeated `read_until(b'\n')` yields. */
  function Lines(s: string): seq<string> {
    if s == [] then [] else [s[..LineLength(s)]] + Lines(s[LineLength(s)..])
  }

  function Concat(ls: seq<string>): string {
    if ls == [] then [] else ls[0] + Concat(ls[1..])
  }

  predicate Terminated(line: string) {
    line != [] && line[|line| - 1] == '\n'
  }

  /** Not empty, and no line feed but a last one. */
  predicate IsLine(line: string) {
    line != [] && forall i :: 0 <= i < |line| - 1 ==> line[i] != '\n'
  }

  /** Lines of which only the last may lack its line feed. */
  predicate AreLines(ls: seq<string>) {
    && (forall i :: 0 <= i < |ls| ==> IsLine(ls[i]))
    && (forall i :: 0 <= i < |ls| - 1 ==> Terminated(ls[i]))
  }

  lemma {:induction false} FirstLineIsLine(s: string)
    requires s != []
    ensures IsLine(s[..LineLength(s)])
    ensures LineLength(s) < |s| ==> Terminated(s[..LineLength(s)])
  {
    if s[0] != '\n' && |s| > 1 {
      var n := LineLength(s[1..]);
      FirstLineIsLine(s[1..]);
      assert s[..1 + n] == [s[0]] + s[1..][..n];
    }
  }

  lemma {:induction false} LinesAreLines(s: string)
    ensures AreLines(Lines(s))
    ensures Lines(s) == [] <==> s == []
  {
    if s != [] {
      var n := LineLength(s);
      FirstLineIsLine(s);
      LinesAreLines(s[n..]);
    }
  }

  lemma {:induction false} ConcatOfLines(s: string)
    ensures Concat(Lines(s)) == s
  {
    if s != [] {
      var n := LineLength(s);
      ConcatOfLines(s[n..]);
      assert s == s[..n] + s[n..];
      assert Lines(s)[1..] == Lines(s[n..]);
    }
  }

  lemma {:induction false} LengthOfFirstLine(line: string, rest: string)
    requires IsLine(line) && (rest == [] || Terminated(line))
    ensures LineLength(line + rest) == |line|
  {
    if |line| == 1 {
      assert (line + rest)[0] == line[0];
    } else {
      assert line[0] != '\n' && (line + rest)[0] == line[0];
      assert (line + rest)[1..] == line[1..] + rest;
      LengthOfFirstLine(line[1..], rest);
    }
  }

  /** Splitting what was put together from lines gives those lines. */
  lemma {:induction false} LinesOfConcat(ls: seq<string>)
    requires AreLines(ls)
    ensures Lines(Concat(ls)) == ls
  {
    if ls != [] {
      var rest := Concat(ls[1..]);
      assert AreLines(ls[1..]) by {
        assert forall i :: 0 <= i < |ls[1..]| ==> ls[1..][i] == ls[i + 1];
      }
      LinesOfConcat(ls[1..]);
      LengthOfFirstLine(ls[0], rest);
      assert (ls[0] + rest)[..|ls[0]|] == ls[0] && (ls[0] + rest)[|ls[0]|..] == rest;
    }
  }

  // ---------- a whole file ----------

  datatype Progress = Progress(lines: seq<string>, found: bool)

  /** What the loop writes for the given lines, and whether it has met session metadata by their end. */
  ghost function TransformLines(parse: string -> Option<Value>, ls: seq<string>, threadId: string, provider: string,
                                found: bool)
      : Result<Progress, Error>
  {
    if ls == [] then Ok(Progress([], found))
    else
      var now := TransformLine(parse, ls[0], threadId, provider, !found);
      if now.Err? then Err(now.error)
      else
        AndThen(if now.value.Some? then now.value.value else ls[0],
                TransformLines(parse, ls[1..], threadId, provider, found || now.value.Some?))
  }

  function AndThen(line: string, rest: Result<Progress, Error>): Result<Progress, Error> {
    if rest.Err? then rest else Ok(Progress([line] + rest.value.lines, rest.value.found))
  }

  /** What comes out when `written` is already there. */
  ghost function Finish(written: string, rest: Result<Progress, Error>): Result<string, Error> {
    if rest.Err? then Err(rest.error)
    else if !rest.value.found then Err(NoSessionMeta)
    else Ok(written + Concat(rest.value.lines))
  }

  ghost function TransformRollout(parse: string -> Option<Value>, source: string, threadId: string, provider: string)
      : Result<string, Error>
  {
    Finish("", TransformLines(parse, Lines(source), threadId, provider, false))
  }

  // ---------- the rewrite as the program runs it ----------

  /** The digest of the bytes written stands for the bytes. */
  datatype Descriptor = Descriptor(bytes: string, byteLength: nat)

  method TransformJsonlLine(parse: string -> Option<Value>, line: string, threadId: string, provider: string,
                            first: bool)
      returns (result: Result<Option<string>, Error>)
    ensures result == TransformLine(parse, line, threadId, provider, first)
  {
    var value := parse(Body(line));
    if value.None? || !IsMeta(value.value) {
      return Ok(None);
    }
    var payload := Payload(value.value);
    if payload.None? {
      return Err(PayloadNotObject);
    }
    if first && GetStr(payload.value, "id") != Some(threadId) {
      return Err(OtherThread);
    }
    var output := new Output();
    WriteCanonicalJson(WithProvider(value.value, provider), output);
    output.Push(Ending(line));
    assert "" + Text(WithProvider(value.value, provider)) == Text(WithProvider(value.value, provider));
    return Ok(Some(output.text));
  }

  /** `transform_rollout_file`: reads line by line, writes, and keeps the length and the found flag. */
  method TransformRolloutFile(parse: string -> Option<Value>, source: string, threadId: string, provider: string)
      returns (result: Result<Descriptor, Error>)
    ensures TransformRollout(parse, source, threadId, provider) ==
      if result.Ok? then Ok(result.value.bytes) else Err(result.error)
    ensures result.Ok? ==> result.value.byteLength == |result.value.bytes|
  {
    var unread, written, length, found := source, "", 0, false;
    while unread != []
      invariant TransformRollout(parse, source, threadId, provider)
             == Finish(written, TransformLines(parse, Lines(unread), threadId, provider, found))
      invariant length == |written|
      decreases |unread|
    {
      var line, rest := ReadUntil(unread);
      var transformed := TransformJsonlLine(parse, line, threadId, provider, !found);
      if transformed.Err? {
        return Err(transformed.error);
      }
      var bytes := if transformed.value.Some? then transformed.value.value else line;
      found := found || transformed.value.Some?;
      FinishMoves(written, bytes, TransformLines(parse, Lines(rest), threadId, provider, found));
      written := written + bytes;
      length := length + |bytes|;
      unread := rest;
    }
    if !found {
      return Err(NoSessionMeta);
    }
    assert written + Concat([]) == written;
    return Ok(Descriptor(written, length));
  }

  method ReadUntil(unread: string) returns (line: string, rest: string)
    requires unread != []
    ensures Lines(unread) == [line] + Lines(rest) && |rest| < |unread|
  {
    var n := LineLength(unread);
    return unread[..n], unread[n..];
  }

  lemma FinishMoves(written: string, line: string, rest: Result<Progress, Error>)
    ensures Finish(written, AndThen(line, rest)) == Finish(written + line, rest)
  {
    if rest.Ok? {
      assert ([line] + rest.value.lines)[1..] == rest.value.lines;
      assert written + (line + Concat(rest.value.lines)) == written + line + Concat(rest.value.lines);
    }
  }

  // ---------- rewriting twice ----------

  /** The parser reads back what the writer writes for this line's rewritten record. */
  ghost predicate ReadsBackAt(parse: string -> Option<Value>, line: string, provider: string) {
    var record := parse(Body(line));
    record.Some? && IsMeta(record.value) && Payload(record.value).Some? ==>
      parse(Text(WithProvider(record.value, provider))) == Some(WithProvider(record.value, provider))
  }

  ghost predicate ReadsBack(parse: string -> Option<Value>, ls: seq<string>, provider: string) {
    forall i :: 0 <= i < |ls| ==> ReadsBackAt(parse, ls[i], provider)
  }

  lemma OtherProvider(v: Value, first: string, second: string)
    requires IsMeta(v) && Payload(v).Some?
    ensures var w := WithProvider(v, first);
      && IsMeta(w) && Payload(w).Some?
      && GetStr(Payload(w).value, "id") == GetStr(Payload(v).value, "id")
      && WithProvider(w, second) == WithProvider(v, second)
  {
    var w := WithProvider(v, first);
    assert Payload(w).value.fields["model_provider" := String(second)]
        == Payload(v).value.fields["model_provider" := String(second)];
    assert WithProvider(w, second).fields == WithProvider(v, second).fields;
  }

  predicate IsEnding(s: string) {
    s == "\r\n" || s == "\n" || s == ""
  }

  lemma RewrittenLine(v: Value, ending: string)
    requires IsEnding(ending)
    ensures IsLine(Text(v) + ending) && Ending(Text(v) + ending) == ending && Body(Text(v) + ending) == Text(v)
  {
    TextIsOneLine(v);
    LineWithEnding(Text(v), ending);
  }

  lemma LineWithEnding(text: string, ending: string)
    requires OneLine(text) && text != [] && IsEnding(ending)
    ensures IsLine(text + ending) && Ending(text + ending) == ending && Body(text + ending) == text
  {
    var line := text + ending;
    assert line[|text| - 1] == text[|text| - 1] && text[|text| - 1] in text;
    forall i | 0 <= i < |line| - 1 ensures line[i] != '\n' {
      assert i < |text| ==> line[i] == text[i] && text[i] in text;
    }
    assert line[..|text|] == text;
  }

  lemma EndingOfLine(line: string)
    ensures IsEnding(Ending(line))
    ensures Terminated(line) <==> Ending(line) != ""
  {
  }

  lemma LineFuses(parse: string -> Option<Value>, line: string, threadId: string, p1: string, p2: string, first: bool)
    requires IsLine(line) && ReadsBackAt(parse, line, p1)
    ensures var once, direct := TransformLine(parse, line, threadId, p1, first),
            TransformLine(parse, line, threadId, p2, first);
      && (once.Err? <==> direct.Err?)
      && (once.Err? ==> once.error == direct.error)
      && (once.Ok? ==> (once.value.Some? <==> direct.value.Some?))
      && (once.Ok? && once.value.Some? ==>
            && IsLine(once.value.value)
            && Ending(once.value.value) == Ending(line)
            && TransformLine(parse, once.value.value, threadId, p2, first) == direct)
  {
    var record := parse(Body(line));
    EndingOfLine(line);
    if record.Some? && IsMeta(record.value) && Payload(record.value).Some? {
      RecordFuses(record.value, Ending(line), threadId, p1, p2, first);
      RewrittenLine(WithProvider(record.value, p1), Ending(line));
    }
  }

  lemma RecordFuses(v: Value, ending: string, threadId: string, p1: string, p2: string, first: bool)
    requires IsMeta(v) && Payload(v).Some?
    ensures var once, direct := TransformParsed(Some(v), ending, threadId, p1, first),
            TransformParsed(Some(v), ending, threadId, p2, first);
      && (once.Err? <==> direct.Err?)
      && (once.Err? ==> once.error == direct.error)
      && (once.Ok? ==> once.value == Some(Text(WithProvider(v, p1)) + ending) && direct.value.Some?)
    ensures TransformParsed(Some(WithProvider(v, p1)), ending, threadId, p2, first)
         == TransformParsed(Some(v), ending, threadId, p2, first)
  {
    OtherProvider(v, p1, p2);
  }

  ghost predicate SameShape(ms: seq<string>, ls: seq<string>) {
    && |ms| == |ls|
    && forall i :: 0 <= i < |ls| ==> IsLine(ms[i]) && Ending(ms[i]) == Ending(ls[i])
  }

  /** What rewriting to `p1` gives, what rewriting to `p2` gives, and what going on from the one to `p2` gives. */
  ghost predicate Fused(once: Result<Progress, Error>, direct: Result<Progress, Error>, twice: Result<Progress, Error>,
                        ls: seq<string>) {
    match (once, direct)
    case (Err(e), Err(f)) => e == f
    case (Ok(p), Ok(q)) => p.found == q.found && SameShape(p.lines, ls) && twice == direct
    case _ => false
  }

  ghost predicate FusedLines(parse: string -> Option<Value>, ls: seq<string>, threadId: string, p1: string,
                             p2: string, found: bool) {
    var once := TransformLines(parse, ls, threadId, p1, found);
    Fused(once, TransformLines(parse, ls, threadId, p2, found),
          if once.Err? then once else TransformLines(parse, once.value.lines, threadId, p2, found), ls)
  }

  /** After rewriting to `p1`, each line is a line with the ending it had, and rewriting on to `p2` does what
      rewriting the original to `p2` does, failures included. */
  lemma {:induction false} LinesFuse(parse: string -> Option<Value>, ls: seq<string>, threadId: string, p1: string,
                                     p2: string, found: bool)
    requires (forall i :: 0 <= i < |ls| ==> IsLine(ls[i])) && ReadsBack(parse, ls, p1)
    ensures FusedLines(parse, ls, threadId, p1, p2, found)
  {
    if ls != [] {
      assert ReadsBackAt(parse, ls[0], p1) && IsLine(ls[0]);
      LineFuses(parse, ls[0], threadId, p1, p2, !found);
      var now := TransformLine(parse, ls[0], threadId, p1, !found);
      if now.Ok? {
        var later := found || now.value.Some?;
        TailReadsBack(parse, ls, p1);
        LinesFuse(parse, ls[1..], threadId, p1, p2, later);
        LineBeforeLinesFuses(parse, ls[0], ls[1..], threadId, p1, p2, found);
        assert ls == [ls[0]] + ls[1..];
      }
    }
  }

  lemma TailReadsBack(parse: string -> Option<Value>, ls: seq<string>, provider: string)
    requires ls != [] && (forall i :: 0 <= i < |ls| ==> IsLine(ls[i])) && ReadsBack(parse, ls, provider)
    ensures (forall i :: 0 <= i < |ls[1..]| ==> IsLine(ls[1..][i])) && ReadsBack(parse, ls[1..], provider)
  {
  }

  lemma LineBeforeLinesFuses(parse: string -> Option<Value>, line: string, rest: seq<string>, threadId: string,
                             p1: string, p2: string, found: bool)
    requires IsLine(line) && ReadsBackAt(parse, line, p1)
    requires TransformLine(parse, line, threadId, p1, !found).Ok?
    requires FusedLines(parse, rest, threadId, p1, p2, found
             || TransformLine(parse, line, threadId, p1, !found).value.Some?)
    ensures FusedLines(parse, [line] + rest, threadId, p1, p2, found)
  {
    LineFuses(parse, line, threadId, p1, p2, !found);
    var now := TransformLine(parse, line, threadId, p1, !found).value;
    var written, later := if now.Some? then now.value else line, found || now.Some?;
    Unfold(parse, line, rest, threadId, p1, found);
    Unfold(parse, line, rest, threadId, p2, found);
    var once := TransformLines(parse, rest, threadId, p1, later);
    if once.Ok? {
      Unfold(parse, written, once.value.lines, threadId, p2, found);
      Extends(once.value.lines, rest, written, line);
    }
  }

  lemma Unfold(parse: string -> Option<Value>, line: string, rest: seq<string>, threadId: string, provider: string,
               found: bool)
    ensures var now := TransformLine(parse, line, threadId, provider, !found);
      TransformLines(parse, [line] + rest, threadId, provider, found) ==
        if now.Err? then Err(now.error)
        else
          AndThen(if now.value.Some? then now.value.value else line,
                  TransformLines(parse, rest, threadId, provider, found || now.value.Some?))
  {
  }

  lemma Extends(ms: seq<string>, ls: seq<string>, m: string, l: string)
    requires SameShape(ms, ls) && IsLine(m) && Ending(m) == Ending(l)
    ensures SameShape([m] + ms, [l] + ls)
  {
  }

  /** Rewriting to one provider and then to another is rewriting to the second directly: the same bytes, and the same
      inputs refused for the same reason. */
  lemma RewriteFuses(parse: string -> Option<Value>, source: string, threadId: string, p1: string, p2: string)
    requires ReadsBack(parse, Lines(source), p1)
    ensures var once, direct := TransformRollout(parse, source, threadId, p1),
            TransformRollout(parse, source, threadId, p2);
      && (once.Ok? ==> TransformRollout(parse, once.value, threadId, p2) == direct)
      && (once.Err? <==> direct.Err?)
      && (once.Err? ==> once.error == direct.error)
  {
    var ls := Lines(source);
    LinesAreLines(source);
    LinesFuse(parse, ls, threadId, p1, p2, false);
    var once := TransformLines(parse, ls, threadId, p1, false);
    if once.Ok? {
      SameShapeSplitsAlike(once.value.lines, ls);
      LinesOfConcat(once.value.lines);
      assert "" + Concat(once.value.lines) == Concat(once.value.lines);
    }
  }

  lemma SameShapeSplitsAlike(ms: seq<string>, ls: seq<string>)
    requires SameShape(ms, ls) && AreLines(ls)
    ensures AreLines(ms)
  {
  }

  /** Whether a rewrite succeeds does not depend on the provider. */
  lemma {:induction false} RefusedAlike(parse: string -> Option<Value>, ls: seq<string>, threadId: string, p1: string,
                                        p2: string, found: bool)
    ensures var a, b := TransformLines(parse, ls, threadId, p1, found), TransformLines(parse, ls, threadId, p2, found);
      (a.Ok? <==> b.Ok?) && (a.Ok? ==> a.value.found == b.value.found)
  {
    if ls != [] {
      var now := TransformLine(parse, ls[0], threadId, p1, !found);
      if now.Ok? {
        RefusedAlike(parse, ls[1..], threadId, p1, p2, found || now.value.Some?);
      }
    }
  }

  /** The lines of a rewritten file are lines with the endings they had. */
  lemma {:induction false} RewriteKeepsShape(parse: string -> Option<Value>, ls: seq<string>, threadId: string,
                                             provider: string, found: bool)
    requires forall i :: 0 <= i < |ls| ==> IsLine(ls[i])
    requires TransformLines(parse, ls, threadId, provider, found).Ok?
    ensures SameShape(TransformLines(parse, ls, threadId, provider, found).value.lines, ls)
  {
    if ls != [] {
      var now := TransformLine(parse, ls[0], threadId, provider, !found).value;
      RewriteKeepsShape(parse, ls[1..], threadId, provider, found || now.Some?);
      EndingOfLine(ls[0]);
      var record := parse(Body(ls[0]));
      if now.Some? {
        RewrittenLine(WithProvider(record.value, provider), Ending(ls[0]));
      }
    }
  }

  /** The rewrite keeps the number of lines, every byte of a line that is not session metadata, and the ending of a
      line that is. */
  lemma {:induction false} OtherLinesKeepTheirBytes(parse: string -> Option<Value>, ls: seq<string>, threadId: string,
                                                    provider: string,
                                                    found: bool, i: nat)
    requires i < |ls| && TransformLines(parse, ls, threadId, provider, found).Ok?
    ensures var ms, record := TransformLines(parse, ls, threadId, provider, found).value.lines, parse(Body(ls[i]));
      && |ms| == |ls|
      && if record.Some? && IsMeta(record.value) then
           Payload(record.value).Some? && ms[i] == Text(WithProvider(record.value, provider)) + Ending(ls[i])
         else ms[i] == ls[i]
  {
    LineCount(parse, ls, threadId, provider, found);
    if i > 0 {
      var now := TransformLine(parse, ls[0], threadId, provider, !found);
      OtherLinesKeepTheirBytes(parse, ls[1..], threadId, provider, found || now.value.Some?, i - 1);
    }
  }

  lemma {:induction false} LineCount(parse: string -> Option<Value>, ls: seq<string>, threadId: string,
                                     provider: string, found: bool)
    requires TransformLines(parse, ls, threadId, provider, found).Ok?
    ensures |TransformLines(parse, ls, threadId, provider, found).value.lines| == |ls|
  {
    if ls != [] {
      var now := TransformLine(parse, ls[0], threadId, provider, !found);
      LineCount(parse, ls[1..], threadId, provider, found || now.value.Some?);
    }
  }

  lemma OnlyLine(parse: string -> Option<Value>, line: string, threadId: string, provider: string)
    requires TransformLine(parse, line, threadId, provider, true).Ok?
    ensures var now := TransformLine(parse, line, threadId, provider, true).value;
      TransformLines(parse, [line], threadId, provider, false) ==
        Ok(Progress([if now.Some? then now.value else line], now.Some?))
  {
    var now := TransformLine(parse, line, threadId, provider, true).value;
    var written := if now.Some? then now.value else line;
    assert [line] + [] == [line] && [written] + [] == [written];
    Unfold(parse, line, [], threadId, provider, false);
  }

  lemma OneLineFile(text: string)
    requires OneLine(text) && text != []
    ensures Lines(text) == [text] && Ending(text) == "" && Body(text) == text
  {
    assert forall i :: 0 <= i < |text| ==> text[i] in text;
    LengthOfFirstLine(text, "");
    assert text + "" == text && text[..|text|] == text && text[|text|..] == [];
  }
}
