/** The canonical JSON text behind revision ids, and why two different values never share it. */
module CanonicalJson {
  import opened Basics
  import opened Json
  import opened Order

  // ---------- the text of a value ----------

  function Digit(d: nat): (c: char)
    requires d < 16
    ensures c !in {'"', '\\'} && c >= ' '
    ensures d < 10 ==> c in DIGITS
  {
    if d < 10 then '0' + d as char else 'a' + (d - 10) as char
  }

  function Decimal(n: nat): (text: string)
    ensures text != [] && forall c :: c in text ==> c in DIGITS
  {
    if n < 10 then [Digit(n)] else Decimal(n / 10) + [Digit(n % 10)]
  }

  function NumberText(n: Number): (text: string)
    ensures text != [] && forall c :: c in text ==> IsNumberChar(c)
  {
    match n
    case Int(i) => if i < 0 then "-" + Decimal(-i) else Decimal(i)
    case Float(text) => text
  }

  /** The escapes of section 7 of RFC 8259 that the serializer uses. */
  function EscapeChar(c: char): string {
    if c == '"' then "\\\""
    else if c == '\\' then "\\\\"
    else if c == '\U{8}' then "\\b"
    else if c == '\t' then "\\t"
    else if c == '\n' then "\\n"
    else if c == '\U{C}' then "\\f"
    else if c == '\r' then "\\r"
    else if c < ' ' then ['\\', 'u', '0', '0', Digit(c as int / 16), Digit(c as int % 16)]
    else [c]
  }

  function Escape(s: string): string {
    if s == [] then [] else EscapeChar(s[0]) + Escape(s[1..])
  }

  function Quote(s: string): string {
    "\"" + Escape(s) + "\""
  }

  ghost function Text(v: Value): string
    decreases v
  {
    match v
    case Null => "null"
    case Bool(b) => if b then "true" else "false"
    case Number(n) => NumberText(n)
    case String(s) => Quote(s)
    case Array(items) => "[" + ItemsText(items, true)
    case Object(fields) => "{" + FieldsText(v, InOrder(fields.Keys), true)
  }

  function Separator(first: bool): string {
    if first then "" else ","
  }

  ghost function ItemsText(items: seq<Value>, first: bool): string
    decreases items
  {
    if items == [] then "]" else Separator(first) + Text(items[0]) + ItemsText(items[1..], false)
  }

  ghost function FieldsText(v: Value, keys: seq<string>, first: bool): string
    requires v.Object? && forall k :: k in keys ==> k in v.fields
    decreases v, |keys|
  {
    if keys == [] then "}"
    else Separator(first) + Quote(keys[0]) + ":" + Text(v.fields[keys[0]]) + FieldsText(v, keys[1..], false)
  }

  /** The fields of an object come in strictly increasing order of their keys, each once. */
  lemma FieldsAreSorted(v: Value)
    requires v.Object?
    ensures exists keys: seq<string> :: Sorted(keys) && (forall k :: k in keys <==> k in v.fields)
                                        && Text(v) == "{" + FieldsText(v, keys, true)
  {
    assert Text(v) == "{" + FieldsText(v, InOrder(v.fields.Keys), true);
  }

  // ---------- no two values share a text ----------

  lemma {:induction false} DecimalInjective(a: nat, b: nat)
    requires Decimal(a) == Decimal(b)
    ensures a == b
  {
    var x, y := Decimal(a), Decimal(b);
    assert a % 10 == b % 10 by {
      assert x[|x| - 1] == Digit(a % 10) && y[|y| - 1] == Digit(b % 10);
    }
    if a >= 10 && b >= 10 {
      assert x[..|x| - 1] == Decimal(a / 10) && y[..|y| - 1] == Decimal(b / 10);
      DecimalInjective(a / 10, b / 10);
    }
  }

  lemma NumberInjective(m: Number, n: Number)
    requires NumberText(m) == NumberText(n)
    ensures m == n
  {
    if m.Int? && n.Int? {
      var x := NumberText(m);
      assert (m.value < 0 <==> x[0] == '-') && (n.value < 0 <==> x[0] == '-') by {
        assert m.value >= 0 ==> Decimal(m.value)[0] in Decimal(m.value);
        assert n.value >= 0 ==> Decimal(n.value)[0] in Decimal(n.value);
      }
      if x[0] == '-' {
        assert x[1..] == Decimal(-m.value) && x[1..] == Decimal(-n.value);
        DecimalInjective(-m.value, -n.value);
      } else {
        DecimalInjective(m.value, n.value);
      }
    } else if m.Int? {
      IntScans(m.value);
    } else if n.Int? {
      IntScans(n.value);
    }
  }

  // ---------- where numbers end ----------

  lemma {:induction false} RunOfDigits(x: string)
    requires forall c :: c in x ==> c in DIGITS
    ensures DigitRun(x) == |x|
  {
    if x != [] {
      assert x[0] in x;
      RunOfDigits(x[1..]);
    }
  }

  lemma {:induction false} NoNeedlessZero(n: nat)
    ensures n > 0 ==> Decimal(n)[0] != '0'
  {
    if n >= 10 {
      NoNeedlessZero(n / 10);
      assert Decimal(n)[0] == Decimal(n / 10)[0];
    }
  }

  lemma WholeScans(n: nat)
    ensures DigitRun(Decimal(n)) == |Decimal(n)| && (|Decimal(n)| > 1 ==> Decimal(n)[0] != '0')
    ensures Decimal(n)[0] in DIGITS
  {
    RunOfDigits(Decimal(n));
    NoNeedlessZero(n);
    assert Decimal(n)[0] in Decimal(n);
  }

  /** The text of an integer is a number without fraction and exponent. */
  lemma IntScans(i: int)
    ensures var n := |NumberText(Int(i))|; ScanNumber(NumberText(Int(i))) == Some((n, n))
  {
    var text := NumberText(Int(i));
    WholeScans(if i < 0 then -i else i);
    if i < 0 {
      assert text[1..] == Decimal(-i);
    } else {
      assert text[0..] == Decimal(i);
    }
    assert WholeLength(text) == Some(|text|);
    assert text[|text|..] == [];
  }

  /** What may follow a value: nothing that could continue a number. */
  predicate Delimited(rest: string) {
    rest == [] || !IsNumberChar(rest[0])
  }

  lemma {:induction false} RunExtends(t: string, s: string)
    requires s == [] || s[0] !in DIGITS
    ensures DigitRun(t + s) == DigitRun(t)
  {
    if t == [] {
      assert t + s == s;
    } else {
      assert (t + s)[0] == t[0] && (t + s)[1..] == t[1..] + s;
      RunExtends(t[1..], s);
    }
  }

  lemma PartExtends(t: string, lead: nat, s: string)
    requires lead <= |t| && Delimited(s)
    ensures PartLength(t + s, lead) == PartLength(t, lead)
  {
    assert (t + s)[lead..] == t[lead..] + s;
    RunExtends(t[lead..], s);
  }

  lemma WholeExtends(t: string, s: string)
    requires WholeLength(t).Some? && Delimited(s)
    ensures WholeLength(t + s) == WholeLength(t)
  {
    var sign := if t[0] == '-' then 1 else 0;
    assert (t + s)[sign..] == t[sign..] + s;
    RunExtends(t[sign..], s);
  }

  lemma FractionExtends(t: string, s: string)
    requires FractionLength(t).Some? && Delimited(s)
    ensures FractionLength(t + s) == FractionLength(t)
  {
    if t == [] {
      assert t + s == s;
    } else if t[0] == '.' {
      PartExtends(t, 1, s);
    }
  }

  lemma ExponentExtends(t: string, s: string)
    requires ExponentLength(t).Some? && Delimited(s)
    ensures ExponentLength(t + s) == ExponentLength(t)
  {
    if t == [] {
      assert t + s == s;
    } else if t[0] in {'e', 'E'} {
      PartExtends(t, if |t| > 1 && t[1] in {'+', '-'} then 2 else 1, s);
    }
  }

  lemma TailExtends(t: string, s: string)
    requires TailLength(t).Some? && TailLength(t).value == |t| && Delimited(s)
    ensures TailLength(t + s) == TailLength(t)
  {
    FractionExtends(t, s);
    TailOf(t, s, FractionLength(t).value);
    ExponentExtends(t[FractionLength(t).value..], s);
  }

  /** A number ends in the same place whatever delimiter follows. */
  lemma ScanExtends(t: string, s: string)
    requires ScanNumber(t).Some? && ScanNumber(t).value.1 == |t| && Delimited(s)
    ensures ScanNumber(t + s) == ScanNumber(t)
  {
    var whole := WholeLength(t).value;
    WholeExtends(t, s);
    TailOf(t, s, whole);
    TailExtends(t[whole..], s);
  }

  lemma TailOf(t: string, s: string, k: nat)
    requires k <= |t|
    ensures (t + s)[k..] == t[k..] + s
  {
  }

  lemma NumberPrefix(x: string, y: string, s: string, t: string)
    requires (forall c :: c in x ==> IsNumberChar(c)) && (forall c :: c in y ==> IsNumberChar(c))
    requires Delimited(s) && Delimited(t) && x + s == y + t
    ensures x == y && s == t
  {
    SpanOfNumber(x, s);
    SpanOfNumber(y, t);
    SplitEqual(x, y, s, t);
  }

  /** How many number characters `u` starts with. */
  function Span(u: string): nat {
    if u == [] || !IsNumberChar(u[0]) then 0 else 1 + Span(u[1..])
  }

  lemma {:induction false} SpanOfNumber(x: string, s: string)
    requires (forall c :: c in x ==> IsNumberChar(c)) && Delimited(s)
    ensures Span(x + s) == |x|
  {
    if x == [] {
      assert x + s == s;
    } else {
      assert (x + s)[0] in x && (x + s)[1..] == x[1..] + s;
      SpanOfNumber(x[1..], s);
    }
  }

  lemma SplitEqual(x: string, y: string, s: string, t: string)
    requires x + s == y + t && |x| == |y|
    ensures x == y && s == t
  {
    assert x == (x + s)[..|x|] && y == (y + t)[..|y|];
    assert s == (x + s)[|x|..] && t == (y + t)[|y|..];
  }

  lemma EscapePrefix(c: char, d: char, s: string, t: string)
    requires EscapeChar(c) + s == EscapeChar(d) + t
    ensures c == d && s == t
  {
    var x, y := EscapeChar(c), EscapeChar(d);
    assert (x + s)[0] == x[0] && (y + t)[0] == y[0];
    assert |x| > 1 && |y| > 1 ==> x[1] == (x + s)[1] && y[1] == (y + t)[1];
    assert |x| == |y|;
    SplitEqual(x, y, s, t);
    if |x| == 6 {
      assert x[4] == y[4] && x[5] == y[5];
    }
  }

  lemma EscapeHead(a: string, s: string)
    ensures a != [] ==> Escape(a) + "\"" + s == EscapeChar(a[0]) + (Escape(a[1..]) + "\"" + s)
    ensures (Escape(a) + "\"" + s)[0] == '"' <==> a == []
  {
    if a != [] {
      assert EscapeChar(a[0])[0] != '"';
    }
  }

  lemma {:induction false} StringPrefix(a: string, b: string, s: string, t: string)
    requires Escape(a) + "\"" + s == Escape(b) + "\"" + t
    ensures a == b && s == t
  {
    EscapeHead(a, s);
    EscapeHead(b, t);
    if a == [] {
      assert s == ("\"" + s)[1..] && t == ("\"" + t)[1..];
      assert Escape(a) + "\"" + s == "\"" + s && Escape(b) + "\"" + t == "\"" + t;
    } else {
      EscapePrefix(a[0], b[0], Escape(a[1..]) + "\"" + s, Escape(b[1..]) + "\"" + t);
      StringPrefix(a[1..], b[1..], s, t);
      assert a == [a[0]] + a[1..] && b == [b[0]] + b[1..];
    }
  }

  lemma QuotePrefix(a: string, b: string, s: string, t: string)
    requires Quote(a) + s == Quote(b) + t
    ensures a == b && s == t
  {
    assert (Quote(a) + s)[1..] == Escape(a) + "\"" + s;
    assert (Quote(b) + t)[1..] == Escape(b) + "\"" + t;
    StringPrefix(a, b, s, t);
  }

  /** The first character tells the kind of a value. */
  lemma FirstChar(v: Value)
    ensures Text(v) != []
    ensures Text(v)[0] ==
      match v
      case Null => 'n'
      case Bool(b) => if b then 't' else 'f'
      case Number(n) => NumberText(n)[0]
      case String(_) => '"'
      case Array(_) => '['
      case Object(_) => '{'
    ensures v.Number? ==> IsNumberChar(Text(v)[0])
  {
  }

  lemma SameKind(v: Value, w: Value, s: string, t: string)
    requires Text(v) + s == Text(w) + t
    ensures v.Null? == w.Null? && v.Bool? == w.Bool? && v.Number? == w.Number?
    ensures v.String? == w.String? && v.Array? == w.Array? && v.Object? == w.Object?
    ensures v.Null? || v.Bool? ==> v == w
  {
    FirstChar(v);
    FirstChar(w);
    assert (Text(v) + s)[0] == Text(v)[0] && (Text(w) + t)[0] == Text(w)[0];
  }

  /** Texts are prefix-free: where two texts with something after them agree, the values and the rests agree. */
  lemma {:induction false} TextPrefix(v: Value, w: Value, s: string, t: string)
    requires Text(v) + s == Text(w) + t && Delimited(s) && Delimited(t)
    ensures v == w && s == t
    decreases v
  {
    SameKind(v, w, s, t);
    match v {
      case Null => SplitEqual(Text(v), Text(w), s, t);
      case Bool(_) => SplitEqual(Text(v), Text(w), s, t);
      case Number(n) =>
        NumberPrefix(Text(v), Text(w), s, t);
        NumberInjective(n, w.number);
      case String(a) => QuotePrefix(a, w.text, s, t);
      case Array(items) =>
        Opened("[", ItemsText(items, true), ItemsText(w.items, true), s, t);
        ItemsPrefix(items, w.items, true, s, t);
      case Object(fields) =>
        var ks, ls := InOrder(fields.Keys), InOrder(w.fields.Keys);
        Opened("{", FieldsText(v, ks, true), FieldsText(w, ls, true), s, t);
        FieldsPrefix(v, w, ks, ls, true, s, t);
        SameFields(fields, w.fields);
    }
  }

  lemma Opened(open: string, x: string, y: string, s: string, t: string)
    requires (open + x) + s == (open + y) + t
    ensures x + s == y + t
  {
    assert (open + x) + s == open + (x + s) && (open + y) + t == open + (y + t);
    SplitEqual(open, open, x + s, y + t);
  }

  lemma SameFields(f: map<string, Value>, g: map<string, Value>)
    requires InOrder(f.Keys) == InOrder(g.Keys)
    requires forall k :: k in InOrder(f.Keys) ==> k in f && k in g && f[k] == g[k]
    ensures f == g
  {
  }

  lemma ItemsHead(vs: seq<Value>, first: bool, s: string)
    ensures ItemsText(vs, first) != [] && (ItemsText(vs, first)[0] == ']' <==> vs == [])
    ensures vs != [] ==>
      ItemsText(vs, first) + s == Separator(first) + (Text(vs[0]) + (ItemsText(vs[1..], false) + s))
  {
    if vs != [] {
      FirstChar(vs[0]);
      Regroup(Separator(first), Text(vs[0]), ItemsText(vs[1..], false), s);
    }
  }

  lemma Regroup(a: string, b: string, c: string, s: string)
    ensures (a + b + c) + s == a + (b + (c + s))
  {
  }

  lemma RegroupField(a: string, q: string, x: string, r: string, s: string)
    ensures (a + q + ":" + x + r) + s == a + (q + (":" + (x + (r + s))))
  {
  }

  lemma {:induction false} ItemsPrefix(vs: seq<Value>, ws: seq<Value>, first: bool, s: string, t: string)
    requires ItemsText(vs, first) + s == ItemsText(ws, first) + t
    ensures vs == ws && s == t
    decreases vs
  {
    ItemsHead(vs, first, s);
    ItemsHead(ws, first, t);
    SameFirst(ItemsText(vs, first), ItemsText(ws, first), s, t);
    if vs == [] {
      SplitEqual("]", "]", s, t);
    } else {
      var p, q := ItemsText(vs[1..], false) + s, ItemsText(ws[1..], false) + t;
      SplitEqual(Separator(first), Separator(first), Text(vs[0]) + p, Text(ws[0]) + q);
      TextPrefix(vs[0], ws[0], p, q);
      ItemsPrefix(vs[1..], ws[1..], false, s, t);
      assert vs == [vs[0]] + vs[1..] && ws == [ws[0]] + ws[1..];
    }
  }

  lemma FieldsHead(v: Value, ks: seq<string>, first: bool, s: string)
    requires v.Object? && forall k :: k in ks ==> k in v.fields
    ensures FieldsText(v, ks, first) != [] && (FieldsText(v, ks, first)[0] == '}' <==> ks == [])
    ensures ks != [] ==>
      FieldsText(v, ks, first) + s ==
        Separator(first) + (Quote(ks[0]) + (":" + (Text(v.fields[ks[0]]) + (FieldsText(v, ks[1..], false) + s))))
  {
    if ks != [] {
      RegroupField(Separator(first), Quote(ks[0]), Text(v.fields[ks[0]]), FieldsText(v, ks[1..], false), s);
    }
  }

  lemma {:induction false} FieldsPrefix(v: Value, w: Value, ks: seq<string>, ls: seq<string>, first: bool, s: string,
                                        t: string)
    requires v.Object? && forall k :: k in ks ==> k in v.fields
    requires w.Object? && forall k :: k in ls ==> k in w.fields
    requires FieldsText(v, ks, first) + s == FieldsText(w, ls, first) + t
    ensures ks == ls && s == t
    ensures forall k :: k in ks ==> v.fields[k] == w.fields[k]
    decreases v, |ks|
  {
    FieldsHead(v, ks, first, s);
    FieldsHead(w, ls, first, t);
    SameFirst(FieldsText(v, ks, first), FieldsText(w, ls, first), s, t);
    if ks == [] {
      SplitEqual("}", "}", s, t);
    } else {
      FirstField(v, w, ks, ls, first, s, t);
      TextPrefix(v.fields[ks[0]], w.fields[ls[0]], FieldsText(v, ks[1..], false) + s,
          FieldsText(w, ls[1..], false) + t);
      FieldsPrefix(v, w, ks[1..], ls[1..], false, s, t);
      assert ks == [ks[0]] + ks[1..] && ls == [ls[0]] + ls[1..];
    }
  }

  lemma SameFirst(x: string, y: string, s: string, t: string)
    requires x + s == y + t && x != [] && y != []
    ensures x[0] == y[0]
  {
    assert (x + s)[0] == x[0] && (y + t)[0] == y[0];
  }

  lemma FirstField(v: Value, w: Value, ks: seq<string>, ls: seq<string>, first: bool, s: string, t: string)
    requires v.Object? && ks != [] && forall k :: k in ks ==> k in v.fields
    requires w.Object? && ls != [] && forall k :: k in ls ==> k in w.fields
    requires FieldsText(v, ks, first) + s == FieldsText(w, ls, first) + t
    ensures ks[0] == ls[0]
    ensures Text(v.fields[ks[0]]) + (FieldsText(v, ks[1..], false) + s)
         == Text(w.fields[ls[0]]) + (FieldsText(w, ls[1..], false) + t)
    ensures Delimited(FieldsText(v, ks[1..], false) + s) && Delimited(FieldsText(w, ls[1..], false) + t)
  {
    FieldsHead(v, ks, first, s);
    FieldsHead(w, ls, first, t);
    KeyThenValue(Separator(first), ks[0], ls[0],
                 Text(v.fields[ks[0]]) + (FieldsText(v, ks[1..], false) + s),
                 Text(w.fields[ls[0]]) + (FieldsText(w, ls[1..], false) + t));
    FieldsEnd(v, ks[1..], s);
    FieldsEnd(w, ls[1..], t);
  }

  lemma KeyThenValue(separator: string, k: string, l: string, x: string, y: string)
    requires separator + (Quote(k) + (":" + x)) == separator + (Quote(l) + (":" + y))
    ensures k == l && x == y
  {
    SplitEqual(separator, separator, Quote(k) + (":" + x), Quote(l) + (":" + y));
    QuotePrefix(k, l, ":" + x, ":" + y);
    SplitEqual(":", ":", x, y);
  }

  lemma FieldsEnd(v: Value, ks: seq<string>, s: string)
    requires v.Object? && forall k :: k in ks ==> k in v.fields
    ensures Delimited(FieldsText(v, ks, false) + s)
  {
  }

  /** Equal canonical text means equal values, up to the order of object keys. */
  lemma CanonicalJsonIsInjective(v: Value, w: Value)
    requires Text(v) == Text(w)
    ensures v == w
  {
    assert Text(v) + "" == Text(v) && Text(w) + "" == Text(w);
    TextPrefix(v, w, "", "");
  }

  // ---------- one line ----------

  predicate OneLine(text: string) {
    forall c :: c in text ==> c >= ' '
  }

  lemma {:induction false} QuoteIsOneLine(s: string)
    ensures OneLine(Escape(s)) && OneLine(Quote(s))
  {
    if s != [] {
      QuoteIsOneLine(s[1..]);
      assert OneLine(EscapeChar(s[0])) by {
        if s[0] < ' ' {
          assert s[0] as int / 16 < 2;
        }
      }
    }
  }

  /** Canonical text has no control character and so no line feed: a value takes exactly one line. */
  lemma {:induction false} TextIsOneLine(v: Value)
    ensures OneLine(Text(v)) && Text(v) != []
    decreases v
  {
    FirstChar(v);
    match v {
      case Null =>
      case Bool(_) =>
      case Number(n) =>
        assert forall c :: IsNumberChar(c) ==> c >= ' ';
      case String(s) => QuoteIsOneLine(s);
      case Array(items) => ItemsAreOneLine(items, true);
      case Object(fields) => FieldsAreOneLine(v, InOrder(fields.Keys), true);
    }
  }

  lemma {:induction false} ItemsAreOneLine(items: seq<Value>, first: bool)
    ensures OneLine(ItemsText(items, first))
    decreases items
  {
    if items != [] {
      TextIsOneLine(items[0]);
      ItemsAreOneLine(items[1..], false);
    }
  }

  lemma {:induction false} FieldsAreOneLine(v: Value, keys: seq<string>, first: bool)
    requires v.Object? && forall k :: k in keys ==> k in v.fields
    ensures OneLine(FieldsText(v, keys, first))
    decreases v, |keys|
  {
    if keys != [] {
      QuoteIsOneLine(keys[0]);
      TextIsOneLine(v.fields[keys[0]]);
      FieldsAreOneLine(v, keys[1..], false);
    }
  }

  // ---------- the writer ----------

  class Output {
    var text: string

    constructor ()
      ensures text == ""
    {
      text := "";
    }

    method Push(more: string)
      modifies this
      ensures text == old(text) + more
    {
      text := text + more;
    }
  }

  /** `write_canonical_json`: appends the text of a value to the output. */
  method WriteCanonicalJson(v: Value, output: Output)
    modifies output
    ensures output.text == old(output.text) + Text(v)
    decreases v, 2
  {
    match v {
      case Null => output.Push("null");
      case Bool(b) => output.Push(if b then "true" else "false");
      case Number(n) => output.Push(NumberText(n));
      case String(s) => output.Push(Quote(s));
      case Array(items) =>
        Assoc(output.text, "[", ItemsText(items, true));
        output.Push("[");
        WriteItems(v, output);
      case Object(fields) =>
        Assoc(output.text, "{", FieldsText(v, InOrder(fields.Keys), true));
        output.Push("{");
        WriteFields(v, output);
    }
  }

  lemma Assoc(a: string, b: string, c: string)
    ensures a + b + c == a + (b + c)
  {
  }

  method WriteItems(v: Value, output: Output)
    requires v.Array?
    modifies output
    ensures output.text == old(output.text) + ItemsText(v.items, true)
    decreases v, 1
  {
    var i := 0;
    while i < |v.items|
      invariant 0 <= i <= |v.items|
      invariant output.text + ItemsText(v.items[i..], i == 0) == old(output.text) + ItemsText(v.items, true)
    {
      assert v.items[i..][1..] == v.items[i + 1..];
      Regroup4(output.text, Separator(i == 0), Text(v.items[i]), ItemsText(v.items[i + 1..], false));
      WriteItem(v, i, output);
      i := i + 1;
    }
    output.Push("]");
  }

  method WriteItem(v: Value, i: nat, output: Output)
    requires v.Array? && i < |v.items|
    modifies output
    ensures output.text == old(output.text) + Separator(i == 0) + Text(v.items[i])
    decreases v, 0
  {
    if i > 0 {
      output.Push(",");
    }
    WriteCanonicalJson(v.items[i], output);
  }

  /** The keys are written in order. */
  method WriteFields(v: Value, output: Output)
    requires v.Object?
    modifies output
    ensures output.text == old(output.text) + FieldsText(v, InOrder(v.fields.Keys), true)
    decreases v, 1
  {
    var keys := InOrder(v.fields.Keys);
    var i := 0;
    while i < |keys|
      invariant 0 <= i <= |keys|
      invariant output.text + FieldsText(v, keys[i..], i == 0) == old(output.text) + FieldsText(v, keys, true)
    {
      var key := keys[i];
      assert key in keys && keys[i..][1..] == keys[i + 1..];
      Regroup6(output.text, Separator(i == 0), Quote(key), Text(v.fields[key]), FieldsText(v, keys[i + 1..], false));
      WriteField(v, key, i == 0, output);
      i := i + 1;
    }
    output.Push("}");
  }

  method WriteField(v: Value, key: string, first: bool, output: Output)
    requires v.Object? && key in v.fields
    modifies output
    ensures output.text == old(output.text) + Separator(first) + Quote(key) + ":" + Text(v.fields[key])
    decreases v, 0
  {
    if !first {
      output.Push(",");
    }
    output.Push(Quote(key));
    output.Push(":");
    WriteCanonicalJson(v.fields[key], output);
  }

  lemma Regroup4(before: string, a: string, b: string, c: string)
    ensures before + (a + b + c) == before + a + b + c
  {
  }

  lemma Regroup6(before: string, a: string, q: string, x: string, r: string)
    ensures before + (a + q + ":" + x + r) == before + a + q + ":" + x + r
  {
  }
}
