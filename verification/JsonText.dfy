/**
 * The serialised text determines the value: no two values have the same text, even when more text
 * follows that a serialised value could not continue with.
 */
module JsonText {
  import opened Json

  /** What may follow a value. */
  predicate Delimited(rest: string) {
    rest == "" || rest[0] == ',' || rest[0] == ']' || rest[0] == '}' || rest[0] == '\n'
  }

  // ---- Strings -------------------------------------------------------------------------

  lemma SameLength(a: string, x: string, b: string, y: string)
    requires a + x == b + y && |a| == |b|
    ensures a == b && x == y
  {
    assert (a + x)[..|a|] == a && (b + y)[..|b|] == b;
    assert (a + x)[|a|..] == x && (b + y)[|b|..] == y;
  }

  lemma Associates(a: string, b: string, c: string)
    ensures a + b + c == a + (b + c)
  {
  }

  function HexValue(c: char): nat {
    if IsDigit(c) then c as int - '0' as int else if c >= 'a' then c as int - 'a' as int + 10 else 0
  }

  /** Which character an escape stands for. */
  function Unescape(e: string): int
    requires |e| == 1 || |e| == 2 || |e| == 6
  {
    if |e| == 1 then e[0] as int
    else if |e| == 6 then 16 * HexValue(e[4]) + HexValue(e[5])
    else match e[1] case 'n' => 10 case 'r' => 13 case 't' => 9 case 'b' => 8 case 'f' => 12 case other => other as int
  }

  lemma EscapeShape(c: char)
    ensures var e := EscapeChar(c);
            && (|e| == 1 || |e| == 2 || |e| == 6)
            && (|e| == 1 <==> e[0] != '\\') && e[0] != '\"'
            && (|e| == 6 <==> |e| > 1 && e[1] == 'u')
  {
  }

  lemma UnescapeEscape(c: char)
    requires var e := EscapeChar(c); |e| == 1 || |e| == 2 || |e| == 6
    ensures Unescape(EscapeChar(c)) == c as int
  {
  }

  lemma EscapeCharIsPrefixFree(c: char, x: string, d: char, y: string)
    requires EscapeChar(c) + x == EscapeChar(d) + y
    ensures c == d && x == y
  {
    EscapeShape(c);
    EscapeShape(d);
    var e, f := EscapeChar(c), EscapeChar(d);
    assert e[0] == (e + x)[0] && f[0] == (f + y)[0];
    assert |e| > 1 ==> e[1] == (e + x)[1] && f[1] == (f + y)[1];
    SameLength(e, x, f, y);
    UnescapeEscape(c);
    UnescapeEscape(d);
  }

  lemma {:induction false} EscapeIsUnique(s: string, x: string, t: string, y: string)
    requires Escape(s) + ("\"" + x) == Escape(t) + ("\"" + y)
    ensures s == t && x == y
  {
    if s != "" { EscapeFirst(s, "\"" + x); }
    if t != "" { EscapeFirst(t, "\"" + y); }
    if s == "" || t == "" {
      assert s == "" ==> Escape(s) + ("\"" + x) == "\"" + x;
      assert t == "" ==> Escape(t) + ("\"" + y) == "\"" + y;
      SameLength("\"", x, "\"", y);
    } else {
      EscapeCharIsPrefixFree(s[0], Escape(s[1..]) + ("\"" + x), t[0], Escape(t[1..]) + ("\"" + y));
      EscapeIsUnique(s[1..], x, t[1..], y);
      assert s == [s[0]] + s[1..] && t == [t[0]] + t[1..];
    }
  }

  lemma EscapeFirst(s: string, rest: string)
    requires s != ""
    ensures Escape(s) + rest == EscapeChar(s[0]) + (Escape(s[1..]) + rest)
    ensures (Escape(s) + rest)[0] != '\"'
  {
    EscapeShape(s[0]);
    Associates(EscapeChar(s[0]), Escape(s[1..]), rest);
    assert (EscapeChar(s[0]) + (Escape(s[1..]) + rest))[0] == EscapeChar(s[0])[0];
  }

  lemma QuoteIsUnique(s: string, x: string, t: string, y: string)
    requires Quote(s) + x == Quote(t) + y
    ensures s == t && x == y
  {
    Associates("\"" + Escape(s), "\"", x);
    Associates("\"", Escape(s), "\"" + x);
    Associates("\"" + Escape(t), "\"", y);
    Associates("\"", Escape(t), "\"" + y);
    SameLength("\"", Escape(s) + ("\"" + x), "\"", Escape(t) + ("\"" + y));
    EscapeIsUnique(s, x, t, y);
  }

  // ---- Numbers -------------------------------------------------------------------------

  lemma NumberTextIsUnique(s: string, x: string, t: string, y: string)
    requires NumberText(s) && NumberText(t) && Delimited(x) && Delimited(y)
    requires s + x == t + y
    ensures s == t && x == y
  {
    assert forall i :: 0 <= i < |s| ==> (s + x)[i] == s[i];
    assert forall i :: 0 <= i < |t| ==> (t + y)[i] == t[i];
    assert x != "" ==> (s + x)[|s|] == x[0];
    assert y != "" ==> (t + y)[|t|] == y[0];
    SameLength(s, x, t, y);
  }

  function Value(s: string): int
    requires forall i :: 0 <= i < |s| ==> IsDigit(s[i])
  {
    if s == "" then 0 else 10 * Value(s[..|s| - 1]) + (s[|s| - 1] as int - '0' as int)
  }

  lemma {:induction false} DecimalValue(n: nat)
    ensures forall i :: 0 <= i < |Decimal(n)| ==> IsDigit(Decimal(n)[i])
    ensures Value(Decimal(n)) == n && Decimal(n) != ""
  {
    DecimalText(n);
    if n >= 10 {
      DecimalValue(n / 10);
      assert Decimal(n)[..|Decimal(n)| - 1] == Decimal(n / 10);
    } else {
      assert Decimal(n)[..0] == "";
    }
  }

  lemma IntTextIsUnique(m: int, n: int)
    requires IntText(m) == IntText(n)
    ensures m == n
  {
    var a, b := if m < 0 then -m else m, if n < 0 then -n else n;
    DecimalValue(a);
    DecimalValue(b);
    assert IntText(m)[0] == '-' <==> m < 0;
    assert IntText(n)[0] == '-' <==> n < 0;
    if m < 0 {
      assert IntText(m)[1..] == Decimal(a) && IntText(n)[1..] == Decimal(b);
    }
  }

  lemma IntTextIsNoFloat(n: int)
    ensures NumberText(IntText(n)) && !IsFloat(IntText(n))
  {
    DecimalValue(if n < 0 then -n else n);
    assert forall i :: 0 <= i < |IntText(n)| ==> IsDigit(IntText(n)[i]) || IntText(n)[i] == '-';
  }

  // ---- Values --------------------------------------------------------------------------

  predicate Number(j: Json) {
    j.Int? || j.Float?
  }

  lemma FirstChar(j: Json)
    ensures Dumps(j) != ""
    ensures Number(j) ==> NumberText(Dumps(j))
    ensures j.Null? ==> Dumps(j)[0] == 'n'
    ensures j.Bool? ==> Dumps(j)[0] == if j.flag then 't' else 'f'
    ensures j.Str? ==> Dumps(j)[0] == '\"'
    ensures j.Arr? ==> Dumps(j)[0] == '['
    ensures j.Obj? ==> Dumps(j)[0] == '{'
  {
    if j.Int? { IntTextIsNoFloat(j.n); }
  }

  /** What kind of value a text begins with shows in its first character. */
  lemma SameKind(a: Json, x: string, b: Json, y: string)
    requires Dumps(a) + x == Dumps(b) + y
    ensures (a.Null? <==> b.Null?) && (a.Bool? <==> b.Bool?) && (Number(a) <==> Number(b))
    ensures (a.Str? <==> b.Str?) && (a.Arr? <==> b.Arr?) && (a.Obj? <==> b.Obj?)
    ensures a.Bool? ==> a.flag == b.flag
  {
    FirstChar(a);
    FirstChar(b);
    assert (Dumps(a) + x)[0] == Dumps(a)[0] && (Dumps(b) + y)[0] == Dumps(b)[0];
  }

  lemma NumberIsUnique(a: Json, x: string, b: Json, y: string)
    requires Number(a) && Number(b) && Delimited(x) && Delimited(y) && Dumps(a) + x == Dumps(b) + y
    ensures a == b && x == y
  {
    FirstChar(a);
    FirstChar(b);
    NumberTextIsUnique(Dumps(a), x, Dumps(b), y);
    if a.Int? { IntTextIsNoFloat(a.n); }
    if b.Int? { IntTextIsNoFloat(b.n); }
    if a.Int? && b.Int? { IntTextIsUnique(a.n, b.n); }
  }

  lemma {:induction false} DumpsIsUnique(a: Json, x: string, b: Json, y: string)
    requires Delimited(x) && Delimited(y) && Dumps(a) + x == Dumps(b) + y
    ensures a == b && x == y
    decreases a, 1
  {
    SameKind(a, x, b, y);
    match a
    case Null => SameLength(Dumps(a), x, Dumps(b), y);
    case Bool(_) => SameLength(Dumps(a), x, Dumps(b), y);
    case Int(_) => NumberIsUnique(a, x, b, y);
    case Float(_) => NumberIsUnique(a, x, b, y);
    case Str(_) => QuoteIsUnique(a.s, x, b.s, y);
    case Arr(_) =>
      Inner("[", DumpItems(a.items), "]", x);
      Inner("[", DumpItems(b.items), "]", y);
      SameLength("[", DumpItems(a.items) + "]" + x, "[", DumpItems(b.items) + "]" + y);
      ItemsAreUnique(a.items, x, b.items, y);
    case Obj(_) =>
      Inner("{", DumpFields(a, a.fields.Keys), "}", x);
      Inner("{", DumpFields(b, b.fields.Keys), "}", y);
      SameLength("{", DumpFields(a, a.fields.Keys) + "}" + x, "{", DumpFields(b, b.fields.Keys) + "}" + y);
      FieldsAreUnique(a, a.fields.Keys, x, b, b.fields.Keys, y);
      assert a.fields == b.fields;
  }

  lemma Inner(open: string, text: string, close: string, rest: string)
    ensures open + text + close + rest == open + (text + close + rest)
  {
  }

  /** The items after the first, with the comma or bracket before them. */
  function ItemsTail(items: seq<Json>, rest: string): string
    requires items != []
  {
    if |items| == 1 then "]" + rest else "," + (DumpItems(items[1..]) + "]" + rest)
  }

  lemma ItemsSplit(items: seq<Json>, rest: string)
    requires items != []
    ensures DumpItems(items) + "]" + rest == Dumps(items[0]) + ItemsTail(items, rest)
    ensures Delimited(ItemsTail(items, rest))
    ensures (DumpItems(items) + "]" + rest)[0] != ']'
  {
    FirstChar(items[0]);
    var value := Dumps(items[0]);
    if |items| == 1 {
      Associates(value, "]", rest);
    } else {
      var more := DumpItems(items[1..]);
      Associates(value, ",", more);
      Associates(value, "," + more, "]");
      Associates(value, "," + more + "]", rest);
      Associates(",", more, "]");
      Associates(",", more + "]", rest);
    }
  }

  lemma NoItems(p: seq<Json>, x: string, q: seq<Json>, y: string)
    requires DumpItems(p) + "]" + x == DumpItems(q) + "]" + y && (p == [] || q == [])
    ensures p == q && x == y
  {
    if p != [] { ItemsSplit(p, x); }
    if q != [] { ItemsSplit(q, y); }
    assert p == [] ==> DumpItems(p) + "]" + x == "]" + x;
    assert q == [] ==> DumpItems(q) + "]" + y == "]" + y;
    SameLength("]", x, "]", y);
  }

  lemma {:induction false} ItemsAreUnique(p: seq<Json>, x: string, q: seq<Json>, y: string)
    requires DumpItems(p) + "]" + x == DumpItems(q) + "]" + y
    ensures p == q && x == y
    decreases p, 0
  {
    hide Dumps, DumpItems;
    if p == [] || q == [] {
      NoItems(p, x, q, y);
    } else {
      ItemsSplit(p, x);
      ItemsSplit(q, y);
      DumpsIsUnique(p[0], ItemsTail(p, x), q[0], ItemsTail(q, y));
      var u, v := ItemsTail(p, x), ItemsTail(q, y);
      assert u[0] == v[0];
      assert |p| == 1 <==> |q| == 1;
      if |p| == 1 {
        SameLength("]", x, "]", y);
      } else {
        SameLength(",", DumpItems(p[1..]) + "]" + x, ",", DumpItems(q[1..]) + "]" + y);
        ItemsAreUnique(p[1..], x, q[1..], y);
        assert p == [p[0]] + p[1..] && q == [q[0]] + q[1..];
      }
    }
  }

  /** The fields after the first, with the comma or brace before them. */
  function FieldsTail(j: Json, keys: set<string>, rest: string): string
    requires j.Obj? && keys <= j.fields.Keys && keys != {}
  {
    if keys == {Least(keys)} then "}" + rest else "," + (DumpFields(j, keys - {Least(keys)}) + "}" + rest)
  }

  lemma FieldsSplit(j: Json, keys: set<string>, rest: string)
    requires j.Obj? && keys <= j.fields.Keys && keys != {}
    ensures var k := Least(keys);
            DumpFields(j, keys) + "}" + rest == Quote(k) + (":" + (Dumps(j.fields[k]) + FieldsTail(j, keys, rest)))
    ensures Delimited(FieldsTail(j, keys, rest))
    ensures (DumpFields(j, keys) + "}" + rest)[0] != '}'
  {
    var k := Least(keys);
    var key, value := Quote(k), Dumps(j.fields[k]);
    if keys == {k} {
      Regroup(key, value, "", "}" + rest);
      assert value + "" + ("}" + rest) == value + ("}" + rest);
      assert key + ":" + value + "" == key + ":" + value;
      Associates(key + ":" + value, "}", rest);
    } else {
      var more := DumpFields(j, keys - {k});
      Associates(key + ":" + value, ",", more);
      Associates(key + ":" + value, "," + more, "}" + rest);
      Associates(key + ":" + value + ("," + more), "}", rest);
      Regroup(key, value, "," + more, "}" + rest);
      Associates(",", more, "}" + rest);
      Associates(more, "}", rest);
    }
  }

  lemma Regroup(key: string, value: string, more: string, rest: string)
    ensures key + ":" + value + more + rest == key + (":" + (value + (more + rest)))
    ensures value + more + rest == value + (more + rest)
  {
  }

  lemma {:induction false} FieldsAreUnique(a: Json, ka: set<string>, x: string, b: Json, kb: set<string>, y: string)
    requires a.Obj? && ka <= a.fields.Keys && b.Obj? && kb <= b.fields.Keys
    requires DumpFields(a, ka) + "}" + x == DumpFields(b, kb) + "}" + y
    ensures ka == kb && x == y && forall k :: k in ka ==> a.fields[k] == b.fields[k]
    decreases a, 0, ka
  {
    var s, t := DumpFields(a, ka) + "}" + x, DumpFields(b, kb) + "}" + y;
    if ka == {} || kb == {} {
      if ka != {} { FieldsSplit(a, ka, x); }
      if kb != {} { FieldsSplit(b, kb, y); }
      assert ka == {} ==> DumpFields(a, ka) + "}" + x == "}" + x;
      assert kb == {} ==> DumpFields(b, kb) + "}" + y == "}" + y;
      SameLength("}", x, "}", y);
    } else {
      FieldsSplit(a, ka, x);
      FieldsSplit(b, kb, y);
      var k, l := Least(ka), Least(kb);
      var u, v := Dumps(a.fields[k]) + FieldsTail(a, ka, x), Dumps(b.fields[l]) + FieldsTail(b, kb, y);
      QuoteIsUnique(k, ":" + u, l, ":" + v);
      assert (":" + u)[1..] == u && (":" + v)[1..] == v;
      DumpsIsUnique(a.fields[k], FieldsTail(a, ka, x), b.fields[k], FieldsTail(b, kb, y));
      FieldsTailsAreUnique(a, ka, x, b, kb, y);
    }
  }

  lemma {:induction false} FieldsTailsAreUnique(a: Json, ka: set<string>, x: string, b: Json, kb: set<string>, y: string)
    requires a.Obj? && ka <= a.fields.Keys && ka != {} && b.Obj? && kb <= b.fields.Keys && kb != {}
    requires Least(ka) == Least(kb) && a.fields[Least(ka)] == b.fields[Least(ka)]
    requires FieldsTail(a, ka, x) == FieldsTail(b, kb, y)
    ensures ka == kb && x == y && forall k :: k in ka ==> a.fields[k] == b.fields[k]
    decreases a, 0, ka, 0
  {
    var k := Least(ka);
    var u, v := FieldsTail(a, ka, x), FieldsTail(b, kb, y);
    assert u[0] == v[0];
    assert ka == {k} <==> kb == {k};
    if ka == {k} {
      assert u[1..] == x && v[1..] == y;
    } else {
      assert u[1..] == DumpFields(a, ka - {k}) + "}" + x && v[1..] == DumpFields(b, kb - {k}) + "}" + y;
      FieldsAreUnique(a, ka - {k}, x, b, kb - {k}, y);
      assert ka == ka - {k} + {k} && kb == kb - {k} + {k};
    }
  }

  /** Two values with the same text are the same value. */
  lemma {:induction false} DumpsIsInjective(a: Json, b: Json)
    ensures Dumps(a) == Dumps(b) ==> a == b
  {
    if Dumps(a) == Dumps(b) {
      DumpsIsUnique(a, "", b, "");
    }
  }
}
