/**
 * JSON values, their text as the agent serialises it (sorted keys, no spaces, only the escapes that
 * section 7 of RFC 8259 requires) and the number of UTF-8 bytes of that text.
 */
module Json {
  import opened TextOrder
  import Utf8

  predicate IsDigit(c: char) {
    '0' <= c <= '9'
  }

  /** No text of an integer has one of these. */
  predicate FloatMark(c: char) {
    c == '.' || c == 'e' || c == 'N' || c == 'I'
  }

  predicate NumberChar(c: char) {
    IsDigit(c) || FloatMark(c) || c == '-' || c == '+' || c == 'a' || c == 'f' || c == 'i' || c == 'n' || c == 't' || c == 'y'
  }

  predicate NumberText(s: string) {
    && s != "" && (IsDigit(s[0]) || s[0] == '-' || s[0] == 'N' || s[0] == 'I')
    && forall i :: 0 <= i < |s| ==> NumberChar(s[i])
  }

  /** The text of a float. */
  predicate IsFloat(s: string) {
    NumberText(s) && exists i :: 0 <= i < |s| && FloatMark(s[i])
  }

  type FloatText = s: string | IsFloat(s) witness "NaN"

  datatype Json =
    | Null
    | Bool(flag: bool)
    | Int(n: int)
    | Float(text: FloatText)
    | Str(s: string)
    | Arr(items: seq<Json>)
    | Obj(fields: map<string, Json>)

  // ---- The order of keys ---------------------------------------------------------------

  predicate IsLeast(k: string, keys: set<string>) {
    k in keys && forall other :: other in keys ==> other == k || Before(k, other)
  }

  lemma {:induction false} LeastExists(keys: set<string>)
    requires keys != {}
    ensures exists k :: IsLeast(k, keys)
    decreases |keys|
  {
    var x :| x in keys;
    if keys == {x} {
      assert IsLeast(x, keys);
    } else {
      LeastExists(keys - {x});
      var k :| IsLeast(k, keys - {x});
      BeforeIsTotal(x, k);
      if Before(x, k) {
        forall other | other in keys && other != x ensures Before(x, other) {
          if other != k { BeforeIsTransitive(x, k, other); }
        }
        assert IsLeast(x, keys);
      } else {
        assert IsLeast(k, keys);
      }
    }
  }

  lemma LeastIsUnique(keys: set<string>, a: string, b: string)
    requires IsLeast(a, keys) && IsLeast(b, keys)
    ensures a == b
  {
    BeforeIsTotal(a, b);
  }

  function Least(keys: set<string>): (k: string)
    requires keys != {}
    ensures IsLeast(k, keys)
  {
    LeastExists(keys);
    assert forall a, b :: IsLeast(a, keys) && IsLeast(b, keys) ==> a == b by {
      forall a, b | IsLeast(a, keys) && IsLeast(b, keys) ensures a == b {
        LeastIsUnique(keys, a, b);
      }
    }
    var k :| k in keys && IsLeast(k, keys);
    k
  }

  // ---- Text ----------------------------------------------------------------------------

  function Digit(d: nat): char
    requires d < 16
  {
    "0123456789abcdef"[d]
  }

  function Decimal(n: nat): string {
    if n < 10 then [Digit(n)] else Decimal(n / 10) + [Digit(n % 10)]
  }

  function IntText(n: int): string {
    if n < 0 then "-" + Decimal(-n) else Decimal(n)
  }

  function EscapeChar(c: char): string {
    if c == '\"' || c == '\\' then ['\\', c]
    else if c == '\n' then "\\n"
    else if c == '\r' then "\\r"
    else if c == '\t' then "\\t"
    else if c == '\U{08}' then "\\b"
    else if c == '\U{0C}' then "\\f"
    else if c < ' ' then "\\u00" + [Digit(c as int / 16), Digit(c as int % 16)]
    else [c]
  }

  function Escape(s: string): string {
    if s == "" then "" else EscapeChar(s[0]) + Escape(s[1..])
  }

  function Quote(s: string): string {
    "\"" + Escape(s) + "\""
  }

  function Dumps(j: Json): string
    decreases j, 1
  {
    match j
    case Null => "null"
    case Bool(flag) => if flag then "true" else "false"
    case Int(n) => IntText(n)
    case Float(text) => text
    case Str(s) => Quote(s)
    case Arr(items) => "[" + DumpItems(items) + "]"
    case Obj(fields) => "{" + DumpFields(j, fields.Keys) + "}"
  }

  function DumpItems(items: seq<Json>): string
    decreases items, 0
  {
    if items == [] then ""
    else if |items| == 1 then Dumps(items[0])
    else Dumps(items[0]) + "," + DumpItems(items[1..])
  }

  /** The fields under these keys, in key order. */
  function DumpFields(j: Json, keys: set<string>): string
    requires j.Obj? && keys <= j.fields.Keys
    decreases j, 0, keys
  {
    if keys == {} then ""
    else
      var k := Least(keys);
      var field := Quote(k) + ":" + Dumps(j.fields[k]);
      if keys == {k} then field else field + "," + DumpFields(j, keys - {k})
  }

  // ---- Size ----------------------------------------------------------------------------

  function DecimalSize(n: nat): nat {
    if n < 10 then 1 else 1 + DecimalSize(n / 10)
  }

  function CharSize(c: char): (r: nat)
    ensures 1 <= r <= 6
  {
    if c == '\"' || c == '\\' || c == '\n' || c == '\r' || c == '\t' || c == '\U{08}' || c == '\U{0C}' then 2
    else if c < ' ' then 6
    else Utf8.CharBytes(c)
  }

  function EscapedSize(s: string): nat {
    if s == "" then 0 else CharSize(s[0]) + EscapedSize(s[1..])
  }

  function StringSize(s: string): nat {
    2 + EscapedSize(s)
  }

  /** The bytes of the serialised value, counted without building it. */
  function Size(j: Json): nat
    decreases j, 1
  {
    match j
    case Null => 4
    case Bool(flag) => if flag then 4 else 5
    case Int(n) => if n < 0 then 1 + DecimalSize(-n) else DecimalSize(n)
    case Float(text) => |text|
    case Str(s) => StringSize(s)
    case Arr(items) => if items == [] then 2 else 1 + ItemsSize(items)
    case Obj(fields) => if fields == map[] then 2 else 1 + FieldsSize(j, fields.Keys)
  }

  /** Every item with the comma or bracket after it. */
  function ItemsSize(items: seq<Json>): nat
    decreases items, 0
  {
    if items == [] then 0 else Size(items[0]) + 1 + ItemsSize(items[1..])
  }

  /** Every field with the comma or brace after it. */
  function FieldsSize(j: Json, keys: set<string>): nat
    requires j.Obj? && keys <= j.fields.Keys
    decreases j, 0, keys
  {
    if keys == {} then 0
    else
      var k := Least(keys);
      StringSize(k) + 1 + Size(j.fields[k]) + 1 + FieldsSize(j, keys - {k})
  }

  // ---- The size is the number of bytes of the text --------------------------------------

  lemma AsciiPair(a: char, b: char)
    requires a < 128 as char && b < 128 as char
    ensures Utf8.Size([a, b]) == 2 && Utf8.Size([a]) == 1
  {
    Utf8.AsciiSize([a, b]);
    Utf8.AsciiSize([a]);
  }

  lemma {:induction false} DecimalText(n: nat)
    ensures |Decimal(n)| == DecimalSize(n)
    ensures forall i :: 0 <= i < |Decimal(n)| ==> IsDigit(Decimal(n)[i])
  {
    if n >= 10 {
      DecimalText(n / 10);
    }
  }

  lemma EscapeCharSize(c: char)
    ensures Utf8.Size(EscapeChar(c)) == CharSize(c)
  {
    var e := EscapeChar(c);
    if e == [c] {
      assert Utf8.Size([c]) == Utf8.CharBytes(c);
    } else {
      Utf8.AsciiSize(e);
    }
  }

  lemma {:induction false} EscapeSize(s: string)
    ensures Utf8.Size(Escape(s)) == EscapedSize(s)
  {
    if s != "" {
      EscapeSize(s[1..]);
      EscapeCharSize(s[0]);
      Utf8.SizeAppend(EscapeChar(s[0]), Escape(s[1..]));
    }
  }

  /** Text between two ASCII characters. */
  lemma Enclosed(a: char, s: string, b: char)
    requires a < 128 as char && b < 128 as char
    ensures Utf8.Size([a] + s + [b]) == Utf8.Size(s) + 2
  {
    AsciiPair(a, b);
    AsciiPair(b, a);
    Utf8.SizeAppend([a] + s, [b]);
    Utf8.SizeAppend([a], s);
  }

  lemma QuoteSize(s: string)
    ensures Utf8.Size(Quote(s)) == StringSize(s)
  {
    EscapeSize(s);
    Enclosed('\"', Escape(s), '\"');
  }

  lemma Joined(a: string, c: char, b: string)
    requires c < 128 as char
    ensures Utf8.Size(a + [c] + b) == Utf8.Size(a) + 1 + Utf8.Size(b)
  {
    AsciiPair(c, c);
    Utf8.SizeAppend(a + [c], b);
    Utf8.SizeAppend(a, [c]);
  }

  /** `Size` counts the bytes of the serialised value. */
  lemma LeafSizeCountsBytes(j: Json)
    requires !j.Arr? && !j.Obj?
    ensures Utf8.Size(Dumps(j)) == Size(j)
  {
    hide Utf8.Size;
    match j
    case Int(n) =>
      DecimalText(if n < 0 then -n else n);
      Utf8.AsciiSize(Dumps(j));
    case Str(s) => QuoteSize(s);
    case _ => Utf8.AsciiSize(Dumps(j));
  }

  lemma {:induction false} SizeCountsBytes(j: Json)
    ensures Utf8.Size(Dumps(j)) == Size(j)
    decreases j, 1
  {
    match j
    case Arr(items) =>
      hide Utf8.Size, ItemsSize, DumpItems;
      ItemsSizeCountsBytes(items);
      Enclosed('[', DumpItems(items), ']');
    case Obj(fields) =>
      hide Utf8.Size, FieldsSize, DumpFields;
      FieldsSizeCountsBytes(j, fields.Keys);
      Enclosed('{', DumpFields(j, fields.Keys), '}');
    case _ => LeafSizeCountsBytes(j);
  }

  lemma {:induction false} ItemsSizeCountsBytes(items: seq<Json>)
    ensures Utf8.Size(DumpItems(items)) == if items == [] then 0 else ItemsSize(items) - 1
    decreases items, 0
  {
    if items != [] {
      SizeCountsBytes(items[0]);
      if |items| > 1 {
        ItemsSizeCountsBytes(items[1..]);
        Joined(Dumps(items[0]), ',', DumpItems(items[1..]));
      }
    }
  }

  lemma {:induction false} FieldsSizeCountsBytes(j: Json, keys: set<string>)
    requires j.Obj? && keys <= j.fields.Keys
    ensures Utf8.Size(DumpFields(j, keys)) == if keys == {} then 0 else FieldsSize(j, keys) - 1
    decreases j, 0, keys
  {
    if keys != {} {
      var k := Least(keys);
      SizeCountsBytes(j.fields[k]);
      QuoteSize(k);
      Joined(Quote(k), ':', Dumps(j.fields[k]));
      if keys != {k} {
        FieldsSizeCountsBytes(j, keys - {k});
        Joined(Quote(k) + ":" + Dumps(j.fields[k]), ',', DumpFields(j, keys - {k}));
      }
    }
  }

  // ---- How a change of an object or array changes its size ------------------------------

  lemma {:induction false} FieldsSizeTakeOut(j: Json, keys: set<string>, k: string)
    requires j.Obj? && keys <= j.fields.Keys && k in keys
    ensures FieldsSize(j, keys) == StringSize(k) + 1 + Size(j.fields[k]) + 1 + FieldsSize(j, keys - {k})
    decreases keys
  {
    var first := Least(keys);
    if k != first {
      FieldsSizeTakeOut(j, keys - {first}, k);
      assert IsLeast(first, keys - {k});
      LeastIsUnique(keys - {k}, Least(keys - {k}), first);
      assert keys - {first} - {k} == keys - {k} - {first};
    }
  }

  lemma {:induction false} FieldsSizeAgrees(a: Json, b: Json, keys: set<string>)
    requires a.Obj? && b.Obj? && keys <= a.fields.Keys && keys <= b.fields.Keys
    requires forall k :: k in keys ==> a.fields[k] == b.fields[k]
    ensures FieldsSize(a, keys) == FieldsSize(b, keys)
    decreases keys
  {
    if keys != {} {
      FieldsSizeAgrees(a, b, keys - {Least(keys)});
    }
  }

  /** Printable ASCII without quotes and backslashes. */
  predicate Plain(s: string) {
    forall i :: 0 <= i < |s| ==> ' ' <= s[i] <= '~' && s[i] != '\"' && s[i] != '\\'
  }

  lemma {:induction false} PlainSize(s: string)
    requires Plain(s)
    ensures StringSize(s) == |s| + 2
  {
    if s != "" {
      PlainSize(s[1..]);
    }
  }

  /** A text of so many plain characters. */
  function Xs(n: nat): string {
    seq(n, _ => 'x')
  }

  lemma XsSize(n: nat)
    ensures Size(Str(Xs(n))) == StringSize(Xs(n)) == n + 2 && Utf8.Size(Xs(n)) == n
  {
    PlainSize(Xs(n));
    Utf8.AsciiSize(Xs(n));
  }

  /** A new field costs its key, its value, a colon and, unless it is the only one, a comma. */
  lemma NewFieldSize(j: Json, k: string, v: Json)
    requires j.Obj? && k !in j.fields
    ensures Size(Obj(j.fields[k := v])) == Size(j) + StringSize(k) + 1 + Size(v) + if j.fields == map[] then 0 else 1
  {
    var r := Obj(j.fields[k := v]);
    FieldsSizeTakeOut(r, r.fields.Keys, k);
    assert r.fields.Keys - {k} == j.fields.Keys;
    FieldsSizeAgrees(r, j, j.fields.Keys);
  }

  /** Replacing a field changes the size by the difference of the values. */
  lemma ReplacedFieldSize(j: Json, k: string, v: Json)
    requires j.Obj? && k in j.fields
    ensures Size(Obj(j.fields[k := v])) == Size(j) - Size(j.fields[k]) + Size(v)
  {
    var r := Obj(j.fields[k := v]);
    FieldsSizeTakeOut(r, r.fields.Keys, k);
    FieldsSizeTakeOut(j, j.fields.Keys, k);
    assert r.fields.Keys == j.fields.Keys;
    FieldsSizeAgrees(r, j, j.fields.Keys - {k});
  }

  lemma {:induction false} ItemsSizeAppend(items: seq<Json>, v: Json)
    ensures ItemsSize(items + [v]) == ItemsSize(items) + Size(v) + 1
  {
    if items == [] {
      assert [v][1..] == [];
    } else {
      assert (items + [v])[1..] == items[1..] + [v];
      ItemsSizeAppend(items[1..], v);
    }
  }

  lemma AppendedItemSize(items: seq<Json>, v: Json)
    ensures Size(Arr(items + [v])) == Size(Arr(items)) + Size(v) + if items == [] then 0 else 1
  {
    ItemsSizeAppend(items, v);
  }
}
