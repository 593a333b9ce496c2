/** When a printed text is UTF-8, as section 8.1 of RFC 8259 demands. */
module JsonEncoding {
  import opened Wrappers
  import opened JsonText
  import opened JsonParse
  import opened JsonUnicode

  /** A sequence of characters by the table of section 3 of RFC 3629. */
  ghost predicate Utf8Text(t: Bytes)
    decreases |t|
  {
    t == [] || (FirstOfUtf8(t).Some? && 0 < FirstOfUtf8(t).value.1 <= |t| && Utf8Text(t[FirstOfUtf8(t).value.1..]))
  }

  ghost predicate Ascii(t: Bytes) { forall i | 0 <= i < |t| :: t[i] < 0x80 }

  ghost predicate High(t: Bytes) { forall i | 0 <= i < |t| :: t[i] >= 0x80 }

  /** Every string and name in the tree is UTF-8. */
  ghost predicate AllUtf8(v: Value) {
    match v
    case Null => true
    case Bool(_) => true
    case Number(_) => true
    case Str(s) => Utf8Text(s)
    case Arr(items) => forall i | 0 <= i < |items| :: AllUtf8(items[i])
    case Obj(fields) => forall i | 0 <= i < |fields| :: Utf8Text(fields[i].name) && AllUtf8(fields[i].value)
  }

  // ---- the first character ----

  lemma FirstFacts(t: Bytes)
    ensures FirstOfUtf8(t).Some? ==>
      var n := FirstOfUtf8(t).value.1; 0 < n <= |t| && (if t[0] < 0x80 then n == 1 else High(t[..n]))
  {
  }

  /** It depends on its own bytes only. */
  lemma FirstPrefix(t: Bytes, u: Bytes)
    requires FirstOfUtf8(t).Some? && FirstOfUtf8(t).value.1 <= |t| && FirstOfUtf8(t).value.1 <= |u|
    requires u[..FirstOfUtf8(t).value.1] == t[..FirstOfUtf8(t).value.1]
    ensures FirstOfUtf8(u) == FirstOfUtf8(t)
  {
    var n := FirstOfUtf8(t).value.1;
    assert forall i | 0 <= i < n :: u[i] == u[..n][i] == t[i];
  }

  ghost predicate AsciiStart(b: Bytes) { b == [] || b[0] < 0x80 }

  /** No character reaches over into ASCII. */
  lemma FirstJoin(a: Bytes, b: Bytes)
    requires a != [] && AsciiStart(b)
    ensures FirstOfUtf8(a + b) == FirstOfUtf8(a)
  {
    FirstFacts(a);
    FirstFacts(a + b);
    if FirstOfUtf8(a + b).Some? {
      var n := FirstOfUtf8(a + b).value.1;
      Reaches(a, b, n);
      assert (a + b)[..n] == a[..n];
      FirstPrefix(a + b, a);
    } else if FirstOfUtf8(a).Some? {
      var n := FirstOfUtf8(a).value.1;
      assert (a + b)[..n] == a[..n];
      FirstPrefix(a, a + b);
    }
  }

  lemma Reaches(a: Bytes, b: Bytes, n: nat)
    requires a != [] && AsciiStart(b) && 0 < n <= |a + b| && (n == 1 || High((a + b)[..n]))
    ensures n <= |a|
  {
    var t := (a + b)[..n];
    assert forall k | 0 <= k < n :: t[k] == (a + b)[k];
    assert b != [] ==> (a + b)[|a|] == b[0];
  }

  // ---- texts put together ----

  lemma {:induction false} Join(a: Bytes, b: Bytes)
    requires AsciiStart(b)
    ensures Utf8Text(a + b) <==> Utf8Text(a) && Utf8Text(b)
    decreases |a|
  {
    if a == [] {
      assert a + b == b;
    } else {
      FirstJoin(a, b);
      FirstFacts(a);
      if FirstOfUtf8(a).Some? {
        var n := FirstOfUtf8(a).value.1;
        assert (a + b)[n..] == a[n..] + b;
        Join(a[n..], b);
      }
      hide FirstOfUtf8, AsciiStart;
    }
  }

  lemma {:induction false} AsciiHead(a: Bytes, b: Bytes)
    requires Ascii(a)
    ensures Utf8Text(a + b) <==> Utf8Text(b)
    decreases |a|
  {
    if a == [] {
      assert a + b == b;
    } else {
      assert (a + b)[1..] == a[1..] + b;
      AsciiHead(a[1..], b);
    }
  }

  // ---- strings ----

  lemma EscapeAscii(b: byte)
    ensures b < 0x80 ==> Ascii(Escape(b)) && Escape(b) != []
    ensures b >= 0x80 ==> Escape(b) == [b]
  {
  }

  /** Bytes beyond ASCII are not escaped. */
  lemma {:induction false} HighKept(s: Bytes, n: nat)
    requires n <= |s| && High(s[..n])
    ensures Escapes(s) == s[..n] + Escapes(s[n..])
    decreases n
  {
    if n == 0 {
      assert s[0..] == s && s[..0] == [];
    } else {
      HighStep(s, n);
      HighKept(s[1..], n - 1);
      Prepended(s[0], s[1..][..n - 1], Escapes(s[n..]));
    }
    hide Escapes, High;
  }

  lemma HighStep(s: Bytes, n: nat)
    requires 0 < n <= |s| && High(s[..n])
    ensures High(s[1..][..n - 1]) && s[1..][n - 1..] == s[n..] && s[..n] == [s[0]] + s[1..][..n - 1]
    ensures Escapes(s) == [s[0]] + Escapes(s[1..])
  {
    assert s[..n][0] == s[0];
    EscapeAscii(s[0]);
    assert s[1..][..n - 1] == s[..n][1..];
    hide Escape;
  }

  lemma Prepended(b: byte, t: Bytes, u: Bytes)
    ensures [b] + (t + u) == ([b] + t) + u
  {
  }

  /** And come from themselves only. */
  lemma {:induction false} HighBack(s: Bytes, n: nat)
    requires n <= |Escapes(s)| && High(Escapes(s)[..n])
    ensures n <= |s| && s[..n] == Escapes(s)[..n]
    decreases n
  {
    if n > 0 {
      var e := Escapes(s);
      assert e[..n][0] == e[0];
      EscapeAscii(s[0]);
      assert e[0] == Escape(s[0])[0];
      assert e[1..] == Escapes(s[1..]);
      assert e[1..][..n - 1] == e[..n][1..];
      HighBack(s[1..], n - 1);
      assert s[..n] == [s[0]] + s[1..][..n - 1];
      hide Escape;
    }
  }

  /** Escaping neither makes nor breaks UTF-8. */
  lemma {:induction false} EscapesUtf8(s: Bytes)
    ensures Utf8Text(Escapes(s)) <==> Utf8Text(s)
    decreases |s|
  {
    hide FirstOfUtf8, Escape;
    if s != [] {
      var e := Escapes(s);
      EscapeAscii(s[0]);
      if s[0] < 0x80 {
        AsciiHead(Escape(s[0]), Escapes(s[1..]));
        AsciiHead([s[0]], s[1..]);
        assert [s[0]] + s[1..] == s;
        EscapesUtf8(s[1..]);
      } else {
        HighFirst(s);
        FirstFacts(s);
        if FirstOfUtf8(s).Some? {
          var n := FirstOfUtf8(s).value.1;
          HighKept(s, n);
          assert e[n..] == Escapes(s[n..]);
          EscapesUtf8(s[n..]);
        }
      }
    }
  }

  lemma {:induction false} HighFirst(s: Bytes)
    requires s != [] && s[0] >= 0x80
    ensures Escapes(s) != [] && FirstOfUtf8(Escapes(s)) == FirstOfUtf8(s)
  {
    var e := Escapes(s);
    EscapeAscii(s[0]);
    assert e[0] == s[0];
    FirstFacts(s);
    FirstFacts(e);
    hide FirstOfUtf8, Escape;
    if FirstOfUtf8(e).Some? {
      HighBack(s, FirstOfUtf8(e).value.1);
      FirstPrefix(e, s);
    } else if FirstOfUtf8(s).Some? {
      var n := FirstOfUtf8(s).value.1;
      HighKept(s, n);
      assert e[..n] == s[..n];
      FirstPrefix(s, e);
    }
  }

  lemma StringUtf8(s: Bytes)
    ensures Utf8Text(StringText(s)) <==> Utf8Text(s)
  {
    EscapesUtf8(s);
    Join(Escapes(s), [QUOTE]);
    AsciiHead([QUOTE], Escapes(s) + [QUOTE]);
    AsciiHead([QUOTE], []);
    assert [QUOTE] + [] == [QUOTE] && StringText(s) == [QUOTE] + (Escapes(s) + [QUOTE]);
    hide Escapes, FirstOfUtf8;
  }

  lemma {:induction false} DigitsAscii(n: nat)
    ensures Ascii(Digits(n))
  {
    if n >= 10 { DigitsAscii(n / 10); }
  }

  lemma AllAscii(t: Bytes)
    requires Ascii(t)
    ensures Utf8Text(t)
  {
    AsciiHead(t, []);
    assert t + [] == t;
  }

  // ---- trees ----

  /** A printed tree is UTF-8 exactly when its strings are. */
  lemma {:induction false} TextUtf8(v: Value, format: bool, depth: nat)
    ensures Utf8Text(Text(v, format, depth)) <==> AllUtf8(v)
    decreases v, 0
  {
    hide Utf8Text, FirstOfUtf8;
    match v
    case Null => AllAscii(NULL_TEXT);
    case Bool(b) => AllAscii(if b then TRUE_TEXT else FALSE_TEXT);
    case Number(n) =>
      DigitsAscii(if n < 0 then -n else n);
      AllAscii(NumberText(n));
    case Str(s) => StringUtf8(s);
    case Arr(items) =>
      ItemsUtf8(items, format, depth + 1);
      Wrapped([OPEN_BRACKET], ItemsText(items, format, depth + 1), [CLOSE_BRACKET]);
    case Obj(fields) =>
      FieldsUtf8(fields, format, depth + 1);
      var open := [OPEN_BRACE] + if format then [NEWLINE] else [];
      var close := (if format then Tabs(depth) else []) + [CLOSE_BRACE];
      Wrapped(open, FieldsText(fields, format, depth + 1), close);
      assert Text(v, format, depth) == open + FieldsText(fields, format, depth + 1) + close;
  }

  lemma Wrapped(open: Bytes, body: Bytes, close: Bytes)
    requires Ascii(open) && Ascii(close)
    ensures Utf8Text(open + body + close) <==> Utf8Text(body)
  {
    assert open + body + close == open + (body + close);
    AsciiHead(open, body + close);
    Join(body, close);
    AllAscii(close);
    hide Utf8Text;
  }

  lemma Follows(t: Bytes, after: Bytes, rest: Bytes)
    requires Ascii(after) && (after == [] ==> rest == [])
    ensures Utf8Text(t + (after + rest)) <==> Utf8Text(t) && Utf8Text(rest)
  {
    hide Utf8Text;
    Join(t, after + rest);
    AsciiHead(after, rest);
  }

  lemma {:induction false} ItemsUtf8(items: seq<Value>, format: bool, depth: nat)
    ensures Utf8Text(ItemsText(items, format, depth)) <==> forall i | 0 <= i < |items| :: AllUtf8(items[i])
    decreases items, 1
  {
    hide Utf8Text, AllUtf8, Text;
    if items == [] {
      AllAscii([]);
    } else {
      var t, after, rest := Text(items[0], format, depth), AfterItem(|items| > 1, format),
          ItemsText(items[1..], format, depth);
      assert ItemsText(items, format, depth) == t + (after + rest);
      TextUtf8(items[0], format, depth);
      ItemsUtf8(items[1..], format, depth);
      Follows(t, after, rest);
      assert forall i | 1 <= i < |items| :: items[i] == items[1..][i - 1];
    }
  }

  lemma {:induction false} FieldUtf8(f: Field, format: bool, depth: nat)
    ensures Utf8Text(FieldText(f, format, depth)) <==> Utf8Text(f.name) && AllUtf8(f.value)
    decreases f, 1
  {
    hide Utf8Text, AllUtf8, Text, StringText;
    var tabs, colon: Bytes := if format then Tabs(depth) else [], if format then [COLON, TAB] else [COLON];
    var name, value := StringText(f.name), Text(f.value, format, depth);
    assert FieldText(f, format, depth) == tabs + (name + (colon + value));
    AsciiHead(tabs, name + (colon + value));
    Follows(name, colon, value);
    StringUtf8(f.name);
    TextUtf8(f.value, format, depth);
  }

  lemma {:induction false} FieldsUtf8(fields: seq<Field>, format: bool, depth: nat)
    ensures Utf8Text(FieldsText(fields, format, depth)) <==>
      forall i | 0 <= i < |fields| :: Utf8Text(fields[i].name) && AllUtf8(fields[i].value)
    decreases fields, 2
  {
    hide Utf8Text, AllUtf8, FieldText;
    if fields == [] {
      AllAscii([]);
    } else {
      var t, after, rest :=
        FieldText(fields[0], format, depth), AfterField(|fields| > 1, format), FieldsText(fields[1..], format, depth);
      assert FieldsText(fields, format, depth) == t + (after + rest);
      FieldUtf8(fields[0], format, depth);
      FieldsUtf8(fields[1..], format, depth);
      Follows(t, after, rest);
      assert forall i | 1 <= i < |fields| :: fields[i] == fields[1..][i - 1];
    }
  }

  /** The string of one continuation byte. */
  lemma {:induction false} StrayByte(format: bool)
    ensures !Utf8Text(Text(Str([0x80]), format, 0))
  {
    TextUtf8(Str([0x80]), format, 0);
    hide Text;
    assert FirstOfUtf8([0x80]) == None;
  }
}
