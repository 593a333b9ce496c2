/** Parsing what was printed gives back the tree. */
module JsonRoundTrip {
  import opened Wrappers
  import opened JsonText
  import opened JsonParse

  // ---- text at an offset ----

  lemma {:induction false} Split(c: Bytes, o: nat, a: Bytes, b: Bytes)
    ensures StartsWith(c, o, a + b) <==> StartsWith(c, o, a) && StartsWith(c, o + |a|, b)
    ensures StartsWith(c, o, a + b) ==> o + |a| + |b| <= |c|
  {
    if o + |a| + |b| <= |c| {
      var t := c[o..o + |a| + |b|];
      assert t == c[o..o + |a|] + c[o + |a|..o + |a| + |b|];
      assert t[..|a|] == c[o..o + |a|] && t[|a|..] == c[o + |a|..o + |a| + |b|];
      assert (a + b)[..|a|] == a && (a + b)[|a|..] == b;
    }
  }

  lemma {:induction false} ByteAt(c: Bytes, o: nat, t: Bytes, i: nat)
    requires StartsWith(c, o, t) && i < |t|
    ensures o + i < |c| && c[o + i] == t[i]
  {
    assert c[o..o + |t|][i] == c[o + i];
  }

  /** Whitespace before something else is skipped. */
  lemma {:induction false} SkipTo(c: Bytes, o: nat, e: nat)
    requires o <= e < |c| && c[e] > 32 && forall i | o <= i < e :: c[i] <= 32
    ensures Skip(c, o) == e
  {
    SpaceTo(c, o, e);
  }

  lemma {:induction false} SpaceTo(c: Bytes, o: nat, e: nat)
    requires o <= e < |c| && c[e] > 32 && forall i | o <= i < e :: c[i] <= 32
    ensures SpaceEnd(c, o) == e
    decreases e - o
  {
    if o < e { SpaceTo(c, o + 1, e); }
  }

  // ---- strings ----

  lemma {:induction false} HexBack(d: nat)
    requires d < 16
    ensures HexValue(HexDigit(d)) == Some(d)
  {
  }

  /** One printed byte reads back as itself, and its text holds no bare quote. */
  lemma {:induction false} EscapeBack(c: Bytes, o: nat, b: byte, end: nat)
    requires StartsWith(c, o, Escape(b)) && o + |Escape(b)| <= end < |c| && b != NUL
    ensures FindEnd(c, o) == FindEnd(c, o + |Escape(b)|)
    ensures Unescape(c, o, end) == Prepend([b], Unescape(c, o + |Escape(b)|, end))
  {
    var t := Escape(b);
    ByteAt(c, o, t, 0);
    if |t| >= 2 { ByteAt(c, o, t, 1); }
    if |t| == 6 {
      ByteAt(c, o, t, 2);
      ByteAt(c, o, t, 3);
      ByteAt(c, o, t, 4);
      ByteAt(c, o, t, 5);
      HexBack(0);
      HexBack(b / 16);
      HexBack(b % 16);
      UnicodeBack(c, o, b, end);
    }
  }

  lemma {:induction false} UnicodeBack(c: Bytes, o: nat, b: byte, end: nat)
    requires o + 6 <= end < |c| && 0 < b < 32 && c[o] == BACKSLASH && c[o + 1] == LOWER_U
    requires c[o + 2] == 48 && c[o + 3] == 48 && c[o + 4] == HexDigit(b / 16) && c[o + 5] == HexDigit(b % 16)
    ensures Utf16Literal(c, o, end) == (6, [b])
    ensures FindEnd(c, o) == FindEnd(c, o + 6)
  {
    HexBack(b / 16);
    HexBack(b % 16);
    assert ParseHex4(c, o + 2) == b;
    assert FindEnd(c, o) == FindEnd(c, o + 2);
    assert FindEnd(c, o + 2) == FindEnd(c, o + 3);
    assert FindEnd(c, o + 3) == FindEnd(c, o + 4);
    assert FindEnd(c, o + 4) == FindEnd(c, o + 5);
  }

  lemma {:induction false} EscapesBack(c: Bytes, o: nat, s: Bytes)
    requires NulFree(s) && StartsWith(c, o, Escapes(s))
    requires o + |Escapes(s)| < |c| && c[o + |Escapes(s)|] == QUOTE
    ensures var end := o + |Escapes(s)|; FindEnd(c, o) == Some(end) && Unescape(c, o, end) == Some(s)
    decreases |s|
  {
    hide Escape, StartsWith;
    if s != [] {
      var t := Escape(s[0]);
      Split(c, o, t, Escapes(s[1..]));
      EscapesBack(c, o + |t|, s[1..]);
      EscapeBack(c, o, s[0], o + |Escapes(s)|);
      assert s == [s[0]] + s[1..];
    }
  }

  lemma {:induction false} CStringBack(s: Bytes)
    requires NulFree(s)
    ensures CString(s) == s
  {
    if s != [] { CStringBack(s[1..]); }
  }

  lemma {:induction false} StringBack(c: Bytes, o: nat, s: Bytes)
    requires NulFree(s) && StartsWith(c, o, StringText(s))
    ensures o < |c| && c[o] == QUOTE && ParseString(c, o) == Ok(s, o + |StringText(s)|)
  {
    hide FindEnd, Unescape, Escapes, StartsWith, CString;
    Split(c, o, [QUOTE] + Escapes(s), [QUOTE]);
    Split(c, o, [QUOTE], Escapes(s));
    ByteAt(c, o, [QUOTE], 0);
    ByteAt(c, o + 1 + |Escapes(s)|, [QUOTE], 0);
    EscapesBack(c, o + 1, s);
    CStringBack(s);
  }

  // ---- numbers ----

  lemma {:induction false} DigitsBack(n: nat)
    ensures AllDigits(Digits(n)) && DigitsValue(Digits(n)) == n && |Digits(n)| > 0
  {
    if n >= 10 {
      DigitsBack(n / 10);
      assert Digits(n)[..|Digits(n)| - 1] == Digits(n / 10);
    } else {
      assert Digits(n)[..0] == [];
    }
  }

  lemma {:induction false} DigitsShort(n: nat, k: nat)
    requires k > 0 && n < Ten(k)
    ensures |Digits(n)| <= k
  {
    if n >= 10 { DigitsShort(n / 10, k - 1); }
  }

  function Ten(k: nat): nat { if k == 0 then 1 else 10 * Ten(k - 1) }

  lemma {:induction false} RunBack(c: Bytes, o: nat, e: nat)
    requires o <= e < |c| && (forall i | o <= i < e :: NumberByte(c[i])) && !NumberByte(c[e])
    ensures RunEnd(c, o) == e
    decreases e - o
  {
    if o < e { RunBack(c, o + 1, e); }
  }

  lemma {:induction false} NumberBack(c: Bytes, o: nat, n: int)
    requires INT_MIN <= n <= INT_MAX && StartsWith(c, o, NumberText(n))
    requires var e := o + |NumberText(n)|; e < |c| && !NumberByte(c[e])
    ensures o < |c| && (c[o] == MINUS || IsDigit(c[o]))
    ensures ParseNumber(c, o) == Ok(Number(n), o + |NumberText(n)|)
  {
    var t := NumberText(n);
    var m := if n < 0 then -n else n;
    DigitsBack(m);
    TenDigits(m);
    forall i | o <= i < o + |t|
      ensures NumberByte(c[i])
    {
      ByteAt(c, o, t, i - o);
    }
    ByteAt(c, o, t, 0);
    RunBack(c, o, o + |t|);
    assert StartsWith(c, o, t) ==> c[o..o + |t|] == t;
    hide Digits, DigitsValue, RunEnd, Ten, StartsWith;
    if n < 0 { assert t[1..] == Digits(m); }
  }

  lemma {:induction false} TenDigits(m: nat)
    requires m <= 0x8000_0000
    ensures |Digits(m)| <= 10
  {
    assert Ten(5) == 100000 && Ten(10) == 10_000_000_000;
    DigitsShort(m, 10);
  }

  // ---- values ----

  /** No value's text starts with whitespace, a comma or a closing bracket. */
  lemma {:induction false} TextStarts(v: Value, format: bool, depth: nat)
    ensures var t := Text(v, format, depth); |t| > 0 && t[0] > 32 && t[0] != CLOSE_BRACKET && t[0] != CLOSE_BRACE
  {
    if v.Number? { DigitsBack(if v.n < 0 then -v.n else v.n); }
  }

  /** Parsing at o gives v and ends after its text. */
  ghost predicate ReadsBack(c: Bytes, o: nat, v: Value, format: bool, depth: nat) {
    o <= |c| && ParseValue(c, o, depth) == Ok(v, o + |Text(v, format, depth)|)
  }

  lemma {:induction false} LiteralsDiffer(c: Bytes, o: nat, t: Bytes)
    requires StartsWith(c, o, t) && |t| > 0
    requires t[0] != 110 && t[0] != 102 && t[0] != 116
    ensures !StartsWith(c, o, NULL_TEXT) && !StartsWith(c, o, FALSE_TEXT) && !StartsWith(c, o, TRUE_TEXT)
  {
    ByteAt(c, o, t, 0);
    if StartsWith(c, o, NULL_TEXT) { ByteAt(c, o, NULL_TEXT, 0); }
    if StartsWith(c, o, FALSE_TEXT) { ByteAt(c, o, FALSE_TEXT, 0); }
    if StartsWith(c, o, TRUE_TEXT) { ByteAt(c, o, TRUE_TEXT, 0); }
  }

  lemma {:induction false} ValueBack(c: Bytes, o: nat, v: Value, format: bool, depth: nat)
    requires Printable(v, depth) && StartsWith(c, o, Text(v, format, depth))
    requires var e := o + |Text(v, format, depth)|; e < |c| && !NumberByte(c[e])
    ensures ReadsBack(c, o, v, format, depth)
    decreases v, 0
  {
    var t := Text(v, format, depth);
    TextStarts(v, format, depth);
    match v
    case Null =>
    case Bool(b) => LiteralBack(c, o, b);
    case Number(n) =>
      NumberBack(c, o, n);
      LiteralsDiffer(c, o, t);
      ByteAt(c, o, t, 0);
    case Str(s) =>
      StringBack(c, o, s);
      LiteralsDiffer(c, o, t);
    case Arr(items) =>
      LiteralsDiffer(c, o, t);
      ArrayBack(c, o, items, format, depth);
    case Obj(fields) =>
      LiteralsDiffer(c, o, t);
      ObjectBack(c, o, fields, format, depth);
  }

  lemma {:induction false} LiteralBack(c: Bytes, o: nat, b: bool)
    requires StartsWith(c, o, if b then TRUE_TEXT else FALSE_TEXT)
    ensures ParseValue(c, o, 0) == Ok(Bool(b), o + if b then 4 else 5)
    ensures forall d: nat :: ParseValue(c, o, d) == Ok(Bool(b), o + if b then 4 else 5)
  {
    var t := if b then TRUE_TEXT else FALSE_TEXT;
    ByteAt(c, o, t, 0);
    if StartsWith(c, o, NULL_TEXT) { ByteAt(c, o, NULL_TEXT, 0); }
    if b && StartsWith(c, o, FALSE_TEXT) { ByteAt(c, o, FALSE_TEXT, 0); }
  }

  lemma {:induction false} ArrayBack(c: Bytes, o: nat, items: seq<Value>, format: bool, depth: nat)
    requires Printable(Arr(items), depth) && StartsWith(c, o, Text(Arr(items), format, depth))
    ensures o < |c| && c[o] == OPEN_BRACKET
    ensures ParseArray(c, o, depth) == Ok(Arr(items), o + |Text(Arr(items), format, depth)|)
    decreases items, 2
  {
    hide StartsWith, ParseItems, ParseValue, Skip;
    var body := ItemsText(items, format, depth + 1);
    var e := o + 1 + |body|;
    Split(c, o, [OPEN_BRACKET] + body, [CLOSE_BRACKET]);
    Split(c, o, [OPEN_BRACKET], body);
    ByteAt(c, o, [OPEN_BRACKET], 0);
    ByteAt(c, e, [CLOSE_BRACKET], 0);
    if items == [] {
      SkipTo(c, o + 1, o + 1);
    } else {
      ItemsStart(c, o + 1, items, format, depth + 1);
      SkipTo(c, o + 1, o + 1);
      ItemsBack(c, o, o + 1, items, format, depth + 1);
    }
  }

  lemma {:induction false} ItemsStart(c: Bytes, o: nat, items: seq<Value>, format: bool, depth: nat)
    requires items != [] && StartsWith(c, o, ItemsText(items, format, depth))
    ensures o < |c| && c[o] > 32 && c[o] != CLOSE_BRACKET
  {
    TextStarts(items[0], format, depth);
    ByteAt(c, o, ItemsText(items, format, depth), 0);
  }

  /** The elements from q on, after the byte at o and perhaps a space. */
  /** One more element, and the last one. */
  lemma ItemsFrom(c: Bytes, o: nat, v: Value, n: nat, p: nat, rest: Parsed<seq<Value>>, depth: nat)
    requires o < |c| && n <= |c| && ParseValue(c, Skip(c, o + 1), depth) == Ok(v, n) && Skip(c, n) == p && rest.Ok?
    requires if p < |c| && c[p] == COMMA then ParseItems(c, p, depth) == rest else rest == Ok([], p)
    ensures ParseItems(c, o, depth) == Ok([v] + rest.value, rest.next)
  {
    hide ParseValue, Skip;
    assert [v] + [] == [v];
  }

  lemma {:induction false} ItemsBack(c: Bytes, o: nat, q: nat, items: seq<Value>, format: bool, depth: nat)
    requires items != [] && (forall i | 0 <= i < |items| :: Printable(items[i], depth))
    requires o < q && StartsWith(c, q, ItemsText(items, format, depth)) && Skip(c, o + 1) == q
    requires var e := q + |ItemsText(items, format, depth)|; e < |c| && c[e] == CLOSE_BRACKET
    ensures ParseItems(c, o, depth) == Ok(items, q + |ItemsText(items, format, depth)|)
    decreases items, 1
  {
    hide Text, StartsWith, ParseValue, ParseItems, Printable, Skip;
    var t := Text(items[0], format, depth);
    var a := AfterItem(|items| > 1, format);
    var n := q + |t|;
    Split(c, q, t + a, ItemsText(items[1..], format, depth));
    Split(c, q, t, a);
    if |items| > 1 {
      ByteAt(c, n, a, 0);
      if format { ByteAt(c, n, a, 1); }
      ItemsStart(c, n + |a|, items[1..], format, depth);
      SkipTo(c, n + 1, n + |a|);
      ValueBack(c, q, items[0], format, depth);
      SkipTo(c, n, n);
      ItemsBack(c, n, n + |a|, items[1..], format, depth);
      ItemsFrom(c, o, items[0], n, n, ParseItems(c, n, depth), depth);
      assert items == [items[0]] + items[1..];
    } else {
      assert items[1..] == [] && items == [items[0]];
      ValueBack(c, q, items[0], format, depth);
      SkipTo(c, n, n);
      ItemsFrom(c, o, items[0], n, n, Ok([], n), depth);
      assert [items[0]] + [] == items;
    }
  }

  lemma {:induction false} ObjectBack(c: Bytes, o: nat, fields: seq<Field>, format: bool, depth: nat)
    requires Printable(Obj(fields), depth) && StartsWith(c, o, Text(Obj(fields), format, depth))
    ensures o < |c| && c[o] == OPEN_BRACE
    ensures ParseObject(c, o, depth) == Ok(Obj(fields), o + |Text(Obj(fields), format, depth)|)
    decreases fields, 4
  {
    hide StartsWith, ParseFields, ParseValue, Skip;
    var open := [OPEN_BRACE] + if format then [NEWLINE] else [];
    var body := FieldsText(fields, format, depth + 1);
    var tabs := if format then Tabs(depth) else [];
    var q := o + |open|;
    var e := q + |body|;
    var z := e + |tabs|;
    assert Text(Obj(fields), format, depth) == open + body + tabs + [CLOSE_BRACE];
    Split(c, o, open + body + tabs, [CLOSE_BRACE]);
    Split(c, o, open + body, tabs);
    Split(c, o, open, body);
    ByteAt(c, o, open, 0);
    if format { ByteAt(c, o, open, 1); }
    ByteAt(c, z, [CLOSE_BRACE], 0);
    Blank(c, e, tabs);
    hide Text, FieldsText, Tabs, Printable, ParseFields, Skip, StartsWith;
    if fields == [] {
      EmptyBody(format, depth);
      SkipTo(c, o + 1, z);
    } else {
      OpenBody(c, o, q, z, fields, format, depth + 1);
    }
  }

  lemma EmptyBody(format: bool, depth: nat)
    ensures FieldsText([], format, depth + 1) == []
  {
  }

  lemma {:induction false} OpenBody(c: Bytes, o: nat, q: nat, z: nat, fields: seq<Field>, format: bool, depth: nat)
    requires fields != [] && o < |c| && c[o] == OPEN_BRACE && q == o + (if format then 2 else 1)
        && (format ==> o + 1 < |c| && c[o + 1] == NEWLINE)
    requires forall i | 0 <= i < |fields| :: NulFree(fields[i].name) && Printable(fields[i].value, depth)
    requires StartsWith(c, q, FieldsText(fields, format, depth))
    requires var e := q + |FieldsText(fields, format, depth)|;
      e <= z < |c| && c[z] == CLOSE_BRACE && forall i | e <= i < z :: c[i] <= 32
    ensures var f := Skip(c, o + 1);
      f < |c| && c[f] == QUOTE && f > 0 && ParseFields(c, f - 1, depth) == Ok(fields, z)
    decreases fields, 3
  {
    hide Text, FieldsText, Printable, ParseFields, Skip, StartsWith;
    var f := q + if format then depth else 0;
    FieldsStart(c, q, fields, format, depth);
    SkipTo(c, o + 1, f);
    SkipTo(c, f, f);
    FieldsBack(c, f - 1, q, z, fields, format, depth);
  }

  lemma {:induction false} Blank(c: Bytes, o: nat, tabs: Bytes)
    requires StartsWith(c, o, tabs) && forall i | 0 <= i < |tabs| :: tabs[i] == TAB
    ensures forall i | o <= i < o + |tabs| :: i < |c| && c[i] <= 32
  {
    forall i | o <= i < o + |tabs|
      ensures i < |c| && c[i] <= 32
    {
      ByteAt(c, o, tabs, i - o);
    }
  }

  /** A formatted field starts after its tabs with the quote of its name. */
  lemma {:induction false} FieldsStart(c: Bytes, q: nat, fields: seq<Field>, format: bool, depth: nat)
    requires fields != [] && StartsWith(c, q, FieldsText(fields, format, depth))
    ensures var f := q + if format then depth else 0;
      f < |c| && c[f] == QUOTE && forall i | q <= i < f :: c[i] <= 32
  {
    hide StartsWith, Text, Escapes, AfterField;
    var tabs := if format then Tabs(depth) else [];
    var name := StringText(fields[0].name);
    var rest := (if format then [COLON, TAB] else [COLON]) + Text(fields[0].value, format, depth)
      + AfterField(|fields| > 1, format) + FieldsText(fields[1..], format, depth);
    assert FieldsText(fields, format, depth) == tabs + (name + rest);
    Split(c, q, tabs, name + rest);
    Split(c, q + |tabs|, name, rest);
    Blank(c, q, tabs);
    ByteAt(c, q + |tabs|, name, 0);
  }

  lemma {:induction false} FieldBack(c: Bytes, o: nat, q: nat, f: Field, format: bool, depth: nat)
    requires NulFree(f.name) && Printable(f.value, depth) && StartsWith(c, q, FieldText(f, format, depth))
    requires o + 1 < |c| && Skip(c, o + 1) == q + if format then depth else 0
    requires var e := q + |FieldText(f, format, depth)|; e < |c| && !NumberByte(c[e])
    ensures ParseField(c, o, depth) == Ok(f, q + |FieldText(f, format, depth)|)
    decreases f, 1
  {
    hide StartsWith, Text, ParseValue, ParseString, Printable, Skip, Escapes;
    var tabs := if format then Tabs(depth) else [];
    var name := StringText(f.name);
    var colon := if format then [COLON, TAB] else [COLON];
    var value := Text(f.value, format, depth);
    var n := q + |tabs| + |name|;
    var e := q + |FieldText(f, format, depth)|;
    Split(c, q, tabs + name + colon, value);
    Split(c, q, tabs + name, colon);
    Split(c, q, tabs, name);
    StringBack(c, q + |tabs|, f.name);
    ByteAt(c, n, colon, 0);
    if format { ByteAt(c, n, colon, 1); }
    TextStarts(f.value, format, depth);
    ByteAt(c, n + |colon|, value, 0);
    SkipTo(c, n, n);
    SkipTo(c, n + 1, n + |colon|);
    ValueBack(c, n + |colon|, f.value, format, depth);
  }

  /** The fields whose text is at q, after the byte at o and whitespace; z is the closing brace. */
  lemma {:induction false} FieldsBack(c: Bytes, o: nat, q: nat, z: nat, fields: seq<Field>, format: bool, depth: nat)
    requires fields != [] && forall i | 0 <= i < |fields| ::
        NulFree(fields[i].name) && Printable(fields[i].value, depth)
    requires StartsWith(c, q, FieldsText(fields, format, depth))
    requires o + 1 < |c| && Skip(c, o + 1) == q + if format then depth else 0
    requires var e := q + |FieldsText(fields, format, depth)|;
      e <= z < |c| && c[z] == CLOSE_BRACE && forall i | e <= i < z :: c[i] <= 32
    ensures ParseFields(c, o, depth) == Ok(fields, z)
    decreases fields, 2
  {
    hide StartsWith, FieldText, ParseField, Printable, Skip;
    var t := FieldText(fields[0], format, depth);
    var a := AfterField(|fields| > 1, format);
    var n := q + |t|;
    Split(c, q, t + a, FieldsText(fields[1..], format, depth));
    Split(c, q, t, a);
    if |fields| > 1 {
      ByteAt(c, n, a, 0);
      if format { ByteAt(c, n, a, 1); }
      FieldBack(c, o, q, fields[0], format, depth);
      SkipTo(c, n, n);
      var f := n + |a| + if format then depth else 0;
      FieldsStart(c, n + |a|, fields[1..], format, depth);
      SkipTo(c, n + 1, f);
      FieldsBack(c, n, n + |a|, z, fields[1..], format, depth);
      assert fields == [fields[0]] + fields[1..];
    } else {
      assert fields[1..] == [] && fields == [fields[0]];
      if format { ByteAt(c, n, a, 0); }
      FieldBack(c, o, q, fields[0], format, depth);
      SkipTo(c, n, z);
    }
  }

  // ---- the theorem ----

  /** A printed tree, formatted or not, parses back to the same tree, also when a terminating NUL is
      required. */
  lemma {:induction false} RoundTrip(v: Value, format: bool, requireNul: bool)
    requires Printable(v, 0)
    ensures Parse(Text(v, format, 0), requireNul) == Ok(v, |Text(v, format, 0)|)
  {
    var t := Text(v, format, 0);
    var c := t + [NUL];
    assert c[0..|t|] == t;
    TextStarts(v, format, 0);
    NoBom(v, format, 0);
    SkipTo(c, 0, 0);
    ValueBack(c, 0, v, format, 0);
    assert SpaceEnd(c, |t|) == |c| by { assert SpaceEnd(c, |t| + 1) == |c|; }
  }

  lemma {:induction false} NoBom(v: Value, format: bool, depth: nat)
    ensures |Text(v, format, depth)| > 0 && Text(v, format, depth)[0] != 0xEF
  {
    if v.Number? { DigitsBack(if v.n < 0 then -v.n else v.n); }
  }

  /** So printing loses nothing. */
  lemma {:induction false} PrintInjective(v: Value, w: Value, f: bool, g: bool)
    requires Printable(v, 0) && Printable(w, 0) && Text(v, f, 0) == Text(w, g, 0)
    ensures v == w
  {
    RoundTrip(v, f, false);
    RoundTrip(w, g, false);
  }
}
