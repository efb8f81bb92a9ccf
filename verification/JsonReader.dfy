/**
 Reading JSON text as `serde_json::from_slice` reads it into a value, and what it makes of canonical text.
 How a float is read and printed again is a parameter; everything else is here.
 */
module JsonReader {
  import opened Basics
  import opened Json
  import opened Order
  import opened CanonicalJson

  /** The text that prints the float that a number is read as; None if it is out of range. */
  type Printed = string -> Option<FloatText>

  /** Arrays and objects may be nested one level less deep. */
  const RECURSION_LIMIT: nat := 128

  // ---------- strings ----------

  predicate Between(c: char, low: int, high: int) {
    low <= c as int <= high
  }

  predicate Tail(c: char) {
    Between(c, 0x80, 0xBF)
  }

  /** The byte sequences of section 4 of RFC 3629. */
  predicate ValidUtf8(s: string)
    decreases |s|
  {
    || s == []
    || (Between(s[0], 0, 0x7F) && ValidUtf8(s[1..]))
    || (|s| >= 2 && Between(s[0], 0xC2, 0xDF) && Tail(s[1]) && ValidUtf8(s[2..]))
    || (|s| >= 3 && Leads3(s[0], s[1]) && Tail(s[2]) && ValidUtf8(s[3..]))
    || (|s| >= 4 && Leads4(s[0], s[1]) && Tail(s[2]) && Tail(s[3]) && ValidUtf8(s[4..]))
  }

  predicate Leads3(c: char, d: char) {
    || (c as int == 0xE0 && Between(d, 0xA0, 0xBF))
    || ((Between(c, 0xE1, 0xEC) || Between(c, 0xEE, 0xEF)) && Tail(d))
    || (c as int == 0xED && Between(d, 0x80, 0x9F))
  }

  predicate Leads4(c: char, d: char) {
    || (c as int == 0xF0 && Between(d, 0x90, 0xBF))
    || (Between(c, 0xF1, 0xF3) && Tail(d))
    || (c as int == 0xF4 && Between(d, 0x80, 0x8F))
  }

  /** The bytes of a code point. */
  function Utf8(point: nat): string
    requires point < 0x11_0000
  {
    if point < 0x80 then [point as char]
    else if point < 0x800 then [(0xC0 + point / 64) as char, (0x80 + point % 64) as char]
    else if point < 0x1_0000 then
      [(0xE0 + point / 4096) as char, (0x80 + point / 64 % 64) as char, (0x80 + point % 64) as char]
    else
      [(0xF0 + point / 26_2144) as char, (0x80 + point / 4096 % 64) as char, (0x80 + point / 64 % 64) as char,
       (0x80 + point % 64) as char]
  }

  function HexDigit(c: char): (d: Option<nat>)
    ensures d.Some? ==> d.value < 16
  {
    if '0' <= c <= '9' then Some(c as int - '0' as int)
    else if 'a' <= c <= 'f' then Some(c as int - 'a' as int + 10)
    else if 'A' <= c <= 'F' then Some(c as int - 'A' as int + 10)
    else None
  }

  function Hex4(text: string): (n: Option<nat>)
    ensures n.Some? ==> n.value < 0x1_0000 && |text| >= 4
  {
    if |text| < 4 then None
    else
      var a, b, c, d := HexDigit(text[0]), HexDigit(text[1]), HexDigit(text[2]), HexDigit(text[3]);
      if a.None? || b.None? || c.None? || d.None? then None
      else Some(((a.value * 16 + b.value) * 16 + c.value) * 16 + d.value)
  }

  /** The bytes that an escape after `\u` stands for, and how much text the whole escape takes: code points beyond four
      digits are a pair, and half a pair is an error. */
  function ReadUnicode(text: string): (r: Option<(string, nat)>)
    requires |text| >= 2
    ensures r.Some? ==> 2 < r.value.1 <= |text|
  {
    var n := Hex4(text[2..]);
    if n.None? || 0xDC00 <= n.value < 0xE000 then None
    else if n.value < 0xD800 || n.value >= 0xE000 then Some((Utf8(n.value), 6))
    else if |text| < 12 || text[6..8] != "\\u" then None
    else
      var low := Hex4(text[8..]);
      if low.None? || low.value < 0xDC00 || low.value >= 0xE000 then None
      else Some((Utf8(0x1_0000 + (n.value - 0xD800) * 1024 + (low.value - 0xDC00)), 12))
  }

  /** The bytes that the next character or escape of a quoted string stands for, and how much text it takes. */
  function ReadChar(text: string): (r: Option<(string, nat)>)
    ensures r.Some? ==> 0 < r.value.1 <= |text|
  {
    if text == [] || text[0] == '"' || text[0] < ' ' then None
    else if text[0] != '\\' then Some(([text[0]], 1))
    else if |text| < 2 then None
    else
      match text[1]
      case '"' => Some(("\"", 2))
      case '\\' => Some(("\\", 2))
      case '/' => Some(("/", 2))
      case 'b' => Some((['\U{8}'], 2))
      case 'f' => Some((['\U{C}'], 2))
      case 'n' => Some(("\n", 2))
      case 'r' => Some(("\r", 2))
      case 't' => Some(("\t", 2))
      case 'u' => ReadUnicode(text)
      case _ => None
  }

  /** What the characters up to the closing quote spell, and what follows the quote. */
  function ReadString(text: string): (r: Option<(string, string)>)
    ensures r.Some? ==> |r.value.1| < |text|
    decreases |text|
  {
    if text == [] then None
    else if text[0] == '"' then Some(([], text[1..]))
    else
      var next := ReadChar(text);
      if next.None? then None
      else
        var rest := ReadString(text[next.value.1..]);
        if rest.None? then None else Some((next.value.0 + rest.value.0, rest.value.1))
  }

  function ReadQuoted(text: string): (r: Option<(string, string)>)
    ensures r.Some? ==> |r.value.1| < |text| && ValidUtf8(r.value.0)
  {
    var read := ReadString(text);
    if read.Some? && ValidUtf8(read.value.0) then read else None
  }

  // ---------- numbers ----------

  /** The number that decimal digits spell. */
  function ReadDecimal(text: string): nat
    requires forall c :: c in text ==> c in DIGITS
  {
    if text == [] then 0
    else
      assert text[|text| - 1] in text;
      10 * ReadDecimal(text[..|text| - 1]) + (text[|text| - 1] as int - '0' as int)
  }

  lemma {:induction false} DigitsOfRun(t: string)
    ensures forall c :: c in t[..DigitRun(t)] ==> c in DIGITS
  {
    if t != [] && t[0] in DIGITS {
      DigitsOfRun(t[1..]);
      assert t[..DigitRun(t)] == [t[0]] + t[1..][..DigitRun(t[1..])];
    }
  }

  /** An integer stays one if it fits 64 bits, unsigned or, if it is negative, signed; `-0` does not. */
  function ReadInt(text: string): Option<int>
    requires WholeLength(text).Some?
  {
    var sign := if text[0] == '-' then 1 else 0;
    DigitsOfRun(text[sign..]);
    var n: int := ReadDecimal(text[sign..][..DigitRun(text[sign..])]);
    if sign == 0 then (if n <= U64_MAX then Some(n) else None)
    else if n > 0 && -n >= I64_MIN then Some(-n)
    else None
  }

  function ReadNumber(printed: Printed, text: string): (r: Option<(Number, string)>)
    ensures r.Some? ==> |r.value.1| < |text|
  {
    var scanned := ScanNumber(text);
    if scanned.None? then None
    else
      var (whole, end) := scanned.value;
      var exact := if whole == end then ReadInt(text) else None;
      if exact.Some? then Some((Int(exact.value), text[end..]))
      else
        var float := printed(text[..end]);
        if float.Some? then Some((Float(float.value), text[end..])) else None
  }

  // ---------- values ----------

  function SkipSpace(text: string): (rest: string)
    ensures |rest| <= |text|
    decreases |text|
  {
    if text != [] && text[0] in {' ', '\t', '\n', '\r'} then SkipSpace(text[1..]) else text
  }

  function ReadWord(text: string, word: string, v: Value): (r: Option<(Value, string)>)
    requires word != []
    ensures r.Some? ==> |r.value.1| < |text|
  {
    if word <= text then Some((v, text[|word|..])) else None
  }

  function ReadScalar(printed: Printed, text: string): (r: Option<(Value, string)>)
    requires text != []
    ensures r.Some? ==> |r.value.1| < |text|
  {
    match text[0]
    case 'n' => ReadWord(text, "null", Null)
    case 't' => ReadWord(text, "true", Bool(true))
    case 'f' => ReadWord(text, "false", Bool(false))
    case '"' =>
      var s := ReadQuoted(text[1..]);
      if s.None? then None else Some((String(s.value.0), s.value.1))
    case _ =>
      var n := ReadNumber(printed, text);
      if n.None? then None else Some((Number(n.value.0), n.value.1))
  }

  /** The value that `text` starts with, and what follows it; `depth` is how deep it may still be nested. */
  function ReadValue(printed: Printed, text: string, depth: nat): (r: Option<(Value, string)>)
    ensures r.Some? ==> |r.value.1| < |text|
    decreases |text|, 1
  {
    var t := SkipSpace(text);
    if t == [] then None
    else if t[0] == '[' then
      if depth <= 1 then None
      else
        var items := ReadItems(printed, t[1..], depth - 1, true);
        if items.None? then None else Some((Array(items.value.0), items.value.1))
    else if t[0] == '{' then
      if depth <= 1 then None
      else
        var fields := ReadFields(printed, t[1..], depth - 1, true);
        if fields.None? then None else Some((Object(fields.value.0), fields.value.1))
    else ReadScalar(printed, t)
  }

  /** The items up to the closing bracket. */
  function ReadItems(printed: Printed, text: string, depth: nat, first: bool): (r: Option<(seq<Value>, string)>)
    ensures r.Some? ==> |r.value.1| < |text|
    decreases |text|, 2
  {
    var t := SkipSpace(text);
    if t == [] then None
    else if t[0] == ']' then Some(([], t[1..]))
    else if !first && t[0] != ',' then None
    else
      var item := ReadValue(printed, if first then t else t[1..], depth);
      if item.None? then None
      else
        var rest := ReadItems(printed, item.value.1, depth, false);
        if rest.None? then None else Some(([item.value.0] + rest.value.0, rest.value.1))
  }

  function ReadKey(text: string): (r: Option<(string, string)>)
    ensures r.Some? ==> |r.value.1| < |text| && ValidUtf8(r.value.0)
  {
    var t := SkipSpace(text);
    if t == [] || t[0] != '"' then None
    else
      var key := ReadQuoted(t[1..]);
      if key.None? then None
      else
        var colon := SkipSpace(key.value.1);
        if colon == [] || colon[0] != ':' then None else Some((key.value.0, colon[1..]))
  }

  /** The fields up to the closing brace; of equal keys the last one counts. */
  function ReadFields(printed: Printed, text: string, depth: nat, first: bool): (r: Option<(map<string, Value>,
                      string)>)
    ensures r.Some? ==> |r.value.1| < |text|
    decreases |text|, 2
  {
    var t := SkipSpace(text);
    if t == [] then None
    else if t[0] == '}' then Some((map[], t[1..]))
    else if !first && t[0] != ',' then None
    else
      var key := ReadKey(if first then t else t[1..]);
      if key.None? then None
      else
        var v := ReadValue(printed, key.value.1, depth);
        if v.None? then None
        else
          var rest := ReadFields(printed, v.value.1, depth, false);
          if rest.None? then None else Some((map[key.value.0 := v.value.0] + rest.value.0, rest.value.1))
  }

  /** `serde_json::from_slice`: one value, and nothing but space after it. */
  function Read(printed: Printed, text: string): Option<Value> {
    var r := ReadValue(printed, text, RECURSION_LIMIT);
    if r.Some? && SkipSpace(r.value.1) == [] then Some(r.value.0) else None
  }

  // ---------- what can be read ----------

  /** Integers fit 64 bits, strings are UTF-8, and the nesting stays below the limit. */
  ghost predicate Readable(v: Value, depth: nat)
    decreases v
  {
    match v
    case Number(Int(i)) => I64_MIN <= i <= U64_MAX
    case String(s) => ValidUtf8(s)
    case Array(items) => depth > 1 && forall item :: item in items ==> Readable(item, depth - 1)
    case Object(fields) => depth > 1 && forall k :: k in fields ==> ValidUtf8(k) && Readable(fields[k], depth - 1)
    case _ => true
  }

  /** Every value that is read is like that. */
  lemma {:induction false} ReadIsReadable(printed: Printed, text: string, depth: nat)
    ensures var r := ReadValue(printed, text, depth); r.Some? ==> Readable(r.value.0, depth)
    decreases |text|, 1
  {
    var t := SkipSpace(text);
    if t != [] && t[0] == '[' && depth > 1 {
      ItemsAreReadable(printed, t[1..], depth - 1, true);
    } else if t != [] && t[0] == '{' && depth > 1 {
      FieldsAreReadable(printed, t[1..], depth - 1, true);
    }
  }

  lemma {:induction false} ItemsAreReadable(printed: Printed, text: string, depth: nat, first: bool)
    ensures var r := ReadItems(printed, text, depth, first);
      r.Some? ==> forall item :: item in r.value.0 ==> Readable(item, depth)
    decreases |text|, 2
  {
    var t := SkipSpace(text);
    if t != [] && t[0] != ']' && (first || t[0] == ',') {
      var start := if first then t else t[1..];
      ReadIsReadable(printed, start, depth);
      var item := ReadValue(printed, start, depth);
      if item.Some? {
        ItemsAreReadable(printed, item.value.1, depth, false);
      }
    }
  }

  lemma {:induction false} FieldsAreReadable(printed: Printed, text: string, depth: nat, first: bool)
    ensures var r := ReadFields(printed, text, depth, first);
      r.Some? ==> forall k :: k in r.value.0 ==> ValidUtf8(k) && Readable(r.value.0[k], depth)
    decreases |text|, 2
  {
    var t := SkipSpace(text);
    if t != [] && t[0] != '}' && (first || t[0] == ',') {
      var key := ReadKey(if first then t else t[1..]);
      if key.Some? {
        ReadIsReadable(printed, key.value.1, depth);
        var v := ReadValue(printed, key.value.1, depth);
        if v.Some? {
          FieldsAreReadable(printed, v.value.1, depth, false);
        }
      }
    }
  }

  // ---------- reading canonical text ----------

  /** What becomes of a value whose canonical text is read: each float is read and printed once more. */
  ghost function Reread(printed: Printed, v: Value): Option<Value>
    decreases v
  {
    match v
    case Number(Float(text)) =>
      var float := printed(text);
      if float.None? then None else Some(Number(Float(float.value)))
    case Array(items) =>
      var again := RereadItems(printed, items);
      if again.None? then None else Some(Array(again.value))
    case Object(fields) =>
      var again := RereadFields(printed, v, InOrder(fields.Keys));
      if again.None? then None else Some(Object(again.value))
    case _ => Some(v)
  }

  ghost function RereadItems(printed: Printed, items: seq<Value>): Option<seq<Value>>
    decreases items
  {
    if items == [] then Some([])
    else
      var again, rest := Reread(printed, items[0]), RereadItems(printed, items[1..]);
      if again.None? || rest.None? then None else Some([again.value] + rest.value)
  }

  ghost function RereadFields(printed: Printed, v: Value, keys: seq<string>): Option<map<string, Value>>
    requires v.Object? && forall k :: k in keys ==> k in v.fields
    decreases v, |keys|
  {
    if keys == [] then Some(map[])
    else
      var again, rest := Reread(printed, v.fields[keys[0]]), RereadFields(printed, v, keys[1..]);
      if again.None? || rest.None? then None else Some(map[keys[0] := again.value] + rest.value)
  }

  function Followed<T>(v: Option<T>, rest: string): Option<(T, string)> {
    if v.None? then None else Some((v.value, rest))
  }

  lemma EscapeReadsBack(c: char, rest: string)
    ensures ReadChar(EscapeChar(c) + rest) == Some(([c], |EscapeChar(c)|))
    ensures (EscapeChar(c) + rest)[|EscapeChar(c)|..] == rest
    ensures EscapeChar(c)[0] != '"'
  {
    var text := EscapeChar(c) + rest;
    if |EscapeChar(c)| == 6 {
      var hex := text[2..];
      assert hex[0] == '0' && hex[1] == '0';
      assert hex[2] == Digit(c as int / 16) && hex[3] == Digit(c as int % 16);
      assert Hex4(hex) == Some(c as int);
    }
  }

  /** No shorter text is read as the character, and none as short but with capital hexadecimal digits. */
  lemma EscapeIsShortest(c: char, text: string, n: nat)
    requires ReadChar(text) == Some(([c], n))
    ensures |EscapeChar(c)| <= n
    ensures |EscapeChar(c)| == n && n < 6 ==> text[..n] == EscapeChar(c)
    ensures |EscapeChar(c)| == 6 ==> EscapeChar(c)[..4] == "\\u00" && forall d :: d in EscapeChar(c)[4..] ==>
      d in DIGITS || 'a' <= d <= 'f'
  {
    if text[0] != '\\' {
      assert text[..1] == [c];
    } else if text[1] != 'u' {
      assert text[..2] == ['\\', text[1]];
    }
  }

  /** Reading an escaped string gives the string and what follows it. */
  lemma {:induction false} QuoteReadsBack(s: string, rest: string)
    ensures ReadString(Escape(s) + "\"" + rest) == Some((s, rest))
  {
    EscapeHead(s, rest);
    if s == [] {
      assert Escape(s) + "\"" + rest == "\"" + rest;
    } else {
      var tail := Escape(s[1..]) + "\"" + rest;
      EscapeReadsBack(s[0], tail);
      QuoteReadsBack(s[1..], rest);
      assert s == [s[0]] + s[1..];
    }
  }

  lemma QuotedReadsBack(s: string, rest: string)
    requires ValidUtf8(s)
    ensures Quote(s) + rest == "\"" + (Escape(s) + "\"" + rest)
    ensures ReadQuoted(Escape(s) + "\"" + rest) == Some((s, rest))
  {
    QuoteReadsBack(s, rest);
  }

  lemma {:induction false} DecimalReadsBack(n: nat)
    ensures ReadDecimal(Decimal(n)) == n
  {
    if n >= 10 {
      DecimalReadsBack(n / 10);
      assert Decimal(n)[..|Decimal(n)| - 1] == Decimal(n / 10);
    } else {
      assert Decimal(n)[..0] == [];
    }
  }

  lemma DigitsRead(n: nat, s: string)
    requires Delimited(s)
    ensures DigitRun(Decimal(n) + s) == |Decimal(n)|
    ensures (Decimal(n) + s)[..|Decimal(n)|] == Decimal(n) && ReadDecimal(Decimal(n)) == n
  {
    WholeScans(n);
    RunExtends(Decimal(n), s);
    DecimalReadsBack(n);
  }

  lemma NaturalReads(n: nat, s: string)
    requires n <= U64_MAX && Delimited(s) && WholeLength(Decimal(n) + s).Some?
    ensures ReadInt(Decimal(n) + s) == Some(n)
  {
    WholeScans(n);
    DigitsRead(n, s);
    assert (Decimal(n) + s)[0] == Decimal(n)[0];
    assert (Decimal(n) + s)[0..] == Decimal(n) + s;
  }

  lemma NegativeReads(i: int, s: string)
    requires I64_MIN <= i < 0 && Delimited(s) && WholeLength("-" + (Decimal(-i) + s)).Some?
    ensures ReadInt("-" + (Decimal(-i) + s)) == Some(i)
  {
    DigitsRead(-i, s);
    assert ("-" + (Decimal(-i) + s))[1..] == Decimal(-i) + s;
  }

  lemma IntReads(i: int, s: string)
    requires I64_MIN <= i <= U64_MAX && Delimited(s)
    ensures WholeLength(NumberText(Int(i)) + s).Some? && ReadInt(NumberText(Int(i)) + s) == Some(i)
  {
    IntScans(i);
    WholeExtends(NumberText(Int(i)), s);
    if i < 0 {
      assert NumberText(Int(i)) + s == "-" + (Decimal(-i) + s);
      NegativeReads(i, s);
    } else {
      NaturalReads(i, s);
    }
  }

  lemma NumberReads(printed: Printed, n: Number, s: string)
    requires Delimited(s) && (n.Int? ==> I64_MIN <= n.value <= U64_MAX)
    ensures ReadNumber(printed, NumberText(n) + s) ==
      match n
      case Int(_) => Some((n, s))
      case Float(text) => if printed(text).None? then None else Some((Float(printed(text).value), s))
  {
    var text := NumberText(n);
    assert (text + s)[..|text|] == text && (text + s)[|text|..] == s;
    if n.Int? {
      IntScans(n.value);
      IntReads(n.value, s);
    }
    ScanExtends(text, s);
  }

  lemma NumberStarts(n: Number)
    ensures NumberText(n)[0] in DIGITS || NumberText(n)[0] == '-'
  {
    match n
    case Int(i) => WholeScans(if i < 0 then -i else i);
    case Float(text) =>
      assert text[0] == '-' || text[0..] == text;
  }

  predicate IsScalar(v: Value) {
    !v.Array? && !v.Object?
  }

  lemma WordReads(word: string, v: Value, s: string)
    requires word != []
    ensures ReadWord(word + s, word, v) == Some((v, s))
  {
    assert (word + s)[..|word|] == word && (word + s)[|word|..] == s;
  }

  lemma NumberValueReads(printed: Printed, n: Number, depth: nat, s: string)
    requires Readable(Number(n), depth) && Delimited(s)
    ensures ReadScalar(printed, NumberText(n) + s) == Followed(Reread(printed, Number(n)), s)
  {
    NumberReads(printed, n, s);
    NumberStarts(n);
    assert (NumberText(n) + s)[0] == NumberText(n)[0];
    NumberIsScalar(printed, NumberText(n) + s);
  }

  lemma NumberIsScalar(printed: Printed, text: string)
    requires text != [] && (text[0] in DIGITS || text[0] == '-')
    ensures ReadScalar(printed, text) ==
      if ReadNumber(printed, text).None? then None
      else Some((Number(ReadNumber(printed, text).value.0), ReadNumber(printed, text).value.1))
  {
    assert text[0] !in {'n', 't', 'f', '"'};
  }

  lemma StringReads(printed: Printed, str: string, s: string)
    requires ValidUtf8(str)
    ensures ReadScalar(printed, Quote(str) + s) == Some((String(str), s))
  {
    QuotedReadsBack(str, s);
    assert (Quote(str) + s)[1..] == Escape(str) + "\"" + s;
  }

  lemma ScalarReads(printed: Printed, v: Value, depth: nat, s: string)
    requires IsScalar(v) && Readable(v, depth) && Delimited(s)
    ensures Text(v) != [] && ReadScalar(printed, Text(v) + s) == Followed(Reread(printed, v), s)
  {
    match v {
      case Number(n) => NumberValueReads(printed, n, depth, s);
      case String(str) => StringReads(printed, str, s);
      case Null => WordReads("null", Null, s);
      case Bool(b) => WordReads(if b then "true" else "false", v, s);
    }
  }

  lemma NoSpaceFirst(v: Value, s: string)
    ensures Text(v) != [] && SkipSpace(Text(v) + s) == Text(v) + s
    ensures (Text(v) + s)[0] == '[' <==> v.Array?
    ensures (Text(v) + s)[0] == '{' <==> v.Object?
    ensures Text(v)[0] !in {']', ',', '}'}
  {
    FirstChar(v);
    if v.Number? {
      NumberStarts(v.number);
    }
  }

  lemma After(open: string, text: string, s: string)
    ensures open + text + s == open + (text + s)
  {
  }

  lemma ReadBracket(printed: Printed, text: string, depth: nat)
    requires depth > 1
    ensures ReadValue(printed, "[" + text, depth) ==
      var items := ReadItems(printed, text, depth - 1, true);
      if items.None? then None else Some((Array(items.value.0), items.value.1))
  {
    assert ("[" + text)[1..] == text;
  }

  lemma ReadBrace(printed: Printed, text: string, depth: nat)
    requires depth > 1
    ensures ReadValue(printed, "{" + text, depth) ==
      var fields := ReadFields(printed, text, depth - 1, true);
      if fields.None? then None else Some((Object(fields.value.0), fields.value.1))
  {
    assert ("{" + text)[1..] == text;
  }

  /** Reading the canonical text of a value gives the value, with each float read and printed once more. */
  lemma {:induction false} TextReads(printed: Printed, v: Value, depth: nat, s: string)
    requires Readable(v, depth) && Delimited(s)
    ensures ReadValue(printed, Text(v) + s, depth) == Followed(Reread(printed, v), s)
    decreases v
  {
    match v {
      case Array(items) =>
        After("[", ItemsText(items, true), s);
        ReadBracket(printed, ItemsText(items, true) + s, depth);
        ItemsRead(printed, items, depth - 1, true, s);
      case Object(fields) =>
        var text := FieldsText(v, InOrder(fields.Keys), true);
        After("{", text, s);
        ReadBrace(printed, text + s, depth);
        FieldsRead(printed, v, InOrder(fields.Keys), depth - 1, true, s);
      case _ =>
        NoSpaceFirst(v, s);
        ScalarReads(printed, v, depth, s);
    }
  }

  /** One turn of the item loop, on a text that goes on with `start` after the separator. */
  lemma ReadOneItem(printed: Printed, start: string, depth: nat, first: bool)
    requires start != [] && SkipSpace(start) == start && start[0] !in {']', ','}
    ensures ReadItems(printed, Separator(first) + start, depth, first) ==
      var item := ReadValue(printed, start, depth);
      if item.None? then None
      else
        var rest := ReadItems(printed, item.value.1, depth, false);
        if rest.None? then None else Some(([item.value.0] + rest.value.0, rest.value.1))
  {
    var text := Separator(first) + start;
    assert text[|Separator(first)|..] == start;
    assert first ==> text == start;
  }

  lemma ReadLastBracket(printed: Printed, s: string, depth: nat, first: bool)
    ensures ReadItems(printed, "]" + s, depth, first) == Some(([], s))
  {
    assert ("]" + s)[1..] == s;
  }

  lemma ItemsEnd(items: seq<Value>, s: string)
    ensures Delimited(ItemsText(items, false) + s)
  {
  }

  lemma {:induction false} ItemsRead(printed: Printed, items: seq<Value>, depth: nat, first: bool, s: string)
    requires forall item :: item in items ==> Readable(item, depth)
    ensures ReadItems(printed, ItemsText(items, first) + s, depth, first) == Followed(RereadItems(printed, items), s)
    decreases items
  {
    ItemsHead(items, first, s);
    if items == [] {
      ReadLastBracket(printed, s, depth, first);
    } else {
      var rest := ItemsText(items[1..], false) + s;
      ItemsEnd(items[1..], s);
      NoSpaceFirst(items[0], rest);
      ReadOneItem(printed, Text(items[0]) + rest, depth, first);
      TextReads(printed, items[0], depth, rest);
      ItemsRead(printed, items[1..], depth, false, s);
    }
  }

  /** One turn of the field loop. */
  lemma ReadOneField(printed: Printed, key: string, text: string, depth: nat, first: bool)
    requires ValidUtf8(key)
    ensures ReadFields(printed, Separator(first) + (Quote(key) + (":" + text)), depth, first) ==
      var v := ReadValue(printed, text, depth);
      if v.None? then None
      else
        var rest := ReadFields(printed, v.value.1, depth, false);
        if rest.None? then None else Some((map[key := v.value.0] + rest.value.0, rest.value.1))
  {
    var start := Quote(key) + (":" + text);
    var all := Separator(first) + start;
    KeyReads(key, text);
    assert start[0] == '"';
    assert all[|Separator(first)|..] == start;
    assert first ==> all == start;
  }

  lemma {:induction false} FieldsRead(printed: Printed, v: Value, keys: seq<string>, depth: nat, first: bool, s: string)
    requires v.Object? && forall k :: k in keys ==> k in v.fields && ValidUtf8(k) && Readable(v.fields[k], depth)
    ensures ReadFields(printed, FieldsText(v, keys, first) + s, depth, first)
            == Followed(RereadFields(printed, v, keys), s)
    decreases v, |keys|
  {
    FieldsHead(v, keys, first, s);
    if keys == [] {
      assert ("}" + s)[1..] == s;
    } else {
      var x := v.fields[keys[0]];
      var rest := FieldsText(v, keys[1..], false) + s;
      FieldsEnd(v, keys[1..], s);
      ReadOneField(printed, keys[0], Text(x) + rest, depth, first);
      TextReads(printed, x, depth, rest);
      FieldsRead(printed, v, keys[1..], depth, false, s);
    }
  }

  lemma KeyReads(key: string, rest: string)
    requires ValidUtf8(key)
    ensures ReadKey(Quote(key) + (":" + rest)) == Some((key, rest))
  {
    var text := Quote(key) + (":" + rest);
    QuotedReadsBack(key, ":" + rest);
    assert text[0] == '"' && text[1..] == Escape(key) + "\"" + (":" + rest);
    assert (":" + rest)[1..] == rest;
  }

  /** The same for a whole text. */
  lemma CanonicalReads(printed: Printed, v: Value)
    requires Readable(v, RECURSION_LIMIT)
    ensures Read(printed, Text(v)) == Reread(printed, v)
  {
    TextReads(printed, v, RECURSION_LIMIT, "");
    assert Text(v) + "" == Text(v);
  }

  // ---------- when a value reads back as itself ----------

  /** Every float in the value is the one that its text is read as. */
  ghost predicate FloatsHold(printed: Printed, v: Value)
    decreases v
  {
    match v
    case Number(Float(text)) => printed(text) == Some(text)
    case Array(items) => forall i :: 0 <= i < |items| ==> FloatsHold(printed, items[i])
    case Object(fields) => forall k :: k in fields ==> FloatsHold(printed, fields[k])
    case _ => true
  }

  lemma {:induction false} RereadIsSame(printed: Printed, v: Value)
    ensures Reread(printed, v) == Some(v) <==> FloatsHold(printed, v)
    decreases v
  {
    match v {
      case Array(items) => RereadItemsAreSame(printed, items);
      case Object(fields) =>
        var keys := InOrder(fields.Keys);
        RereadFieldsAreSame(printed, v, keys);
        RereadKeys(printed, v, keys);
        if RereadFields(printed, v, keys).Some? {
          SameMap(RereadFields(printed, v, keys).value, fields, keys);
        }
      case _ =>
    }
  }

  lemma SameMap(m: map<string, Value>, f: map<string, Value>, keys: seq<string>)
    requires forall k :: (k in m <==> k in keys) && (k in f <==> k in keys)
    ensures m == f <==> forall k :: k in keys ==> k in m && m[k] == f[k]
  {
  }

  lemma {:induction false} RereadItemsAreSame(printed: Printed, items: seq<Value>)
    ensures RereadItems(printed, items) == Some(items)
            <==> forall i :: 0 <= i < |items| ==> FloatsHold(printed, items[i])
    decreases items
  {
    if items != [] {
      RereadIsSame(printed, items[0]);
      RereadItemsAreSame(printed, items[1..]);
      assert items == [items[0]] + items[1..];
      assert (forall i :: 0 <= i < |items[1..]| ==> FloatsHold(printed, items[1..][i]))
        <==> (forall i :: 1 <= i < |items| ==> FloatsHold(printed, items[i])) by {
        assert forall i :: 1 <= i < |items| ==> items[i] == items[1..][i - 1];
      }
    }
  }

  lemma {:induction false} RereadFieldsAreSame(printed: Printed, v: Value, keys: seq<string>)
    requires v.Object? && forall k :: k in keys ==> k in v.fields
    requires Sorted(keys)
    ensures (RereadFields(printed, v, keys).Some? && forall k :: k in keys ==>
               k in RereadFields(printed, v, keys).value && RereadFields(printed, v, keys).value[k] == v.fields[k])
            <==> forall k :: k in keys ==> FloatsHold(printed, v.fields[k])
    decreases v, |keys|
  {
    if keys != [] {
      RereadIsSame(printed, v.fields[keys[0]]);
      TailElements(keys);
      RereadFieldsAreSame(printed, v, keys[1..]);
      RereadKeys(printed, v, keys[1..]);
      LessIrreflexive(keys[0]);
    }
  }

  lemma {:induction false} RereadKeys(printed: Printed, v: Value, keys: seq<string>)
    requires v.Object? && forall k :: k in keys ==> k in v.fields
    ensures var again := RereadFields(printed, v, keys); again.Some? ==> forall k :: k in again.value <==> k in keys
  {
    if keys != [] {
      RereadKeys(printed, v, keys[1..]);
    }
  }

  /** Reading again goes field by field. */
  lemma {:induction false} RereadFieldsAt(printed: Printed, v: Value, keys: seq<string>)
    requires v.Object? && forall k :: k in keys ==> k in v.fields
    ensures var again := RereadFields(printed, v, keys);
      && (again.Some? <==> forall k :: k in keys ==> Reread(printed, v.fields[k]).Some?)
      && (again.Some? ==> forall k :: k in keys ==>
          k in again.value && Reread(printed, v.fields[k]) == Some(again.value[k]))
  {
    if keys != [] {
      RereadFieldsAt(printed, v, keys[1..]);
      RereadKeys(printed, v, keys[1..]);
      assert forall k :: k in keys <==> k == keys[0] || k in keys[1..];
    }
  }

  lemma RereadObject(printed: Printed, f: map<string, Value>, g: map<string, Value>)
    requires f.Keys == g.Keys && forall k :: k in f ==> Reread(printed, f[k]) == Some(g[k])
    ensures Reread(printed, Object(f)) == Some(Object(g))
  {
    var keys := InOrder(f.Keys);
    RereadFieldsAt(printed, Object(f), keys);
    RereadKeys(printed, Object(f), keys);
    SameMap(RereadFields(printed, Object(f), keys).value, g, keys);
  }

  /** Canonical text reads back as the value exactly if the floats in it hold. */
  lemma ReadsBackExactly(printed: Printed, v: Value)
    requires Readable(v, RECURSION_LIMIT)
    ensures Read(printed, Text(v)) == Some(v) <==> FloatsHold(printed, v)
  {
    CanonicalReads(printed, v);
    RereadIsSame(printed, v);
  }
}
