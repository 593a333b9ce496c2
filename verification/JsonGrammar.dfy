/** The grammar of RFC 8259 on bytes (sections 2 to 7), and that every printed tree derives from it. The
    bytes of a character beyond ASCII count as unescaped characters; JsonEncoding says when they are
    UTF-8. */
module JsonGrammar {
  import opened JsonText

  // ---- the grammar ----

  predicate IsWs(b: byte) { b == SPACE || b == TAB || b == NEWLINE || b == 13 }

  ghost predicate Ws(t: Bytes) { forall i | 0 <= i < |t| :: IsWs(t[i]) }

  /** One of the six structural characters, with white space on both sides. */
  ghost predicate Structural(t: Bytes, b: byte) { exists x, y :: Ws(x) && Ws(y) && t == x + [b] + y }

  ghost predicate Digits1(t: Bytes) { t != [] && forall i | 0 <= i < |t| :: IsDigit(t[i]) }

  /** int = zero / ( digit1-9 *DIGIT ). */
  ghost predicate IsInt(t: Bytes) { t == [48] || (Digits1(t) && t[0] != 48) }

  ghost predicate IsFrac(t: Bytes) { t != [] && t[0] == 46 && Digits1(t[1..]) }

  ghost predicate IsExp(t: Bytes) {
    && t != [] && (t[0] == 101 || t[0] == 69)
    && (Digits1(t[1..]) || (|t| > 1 && (t[1] == 43 || t[1] == MINUS) && Digits1(t[2..])))
  }

  ghost predicate IsNumber(t: Bytes) {
    exists m, i, f, e ::
      && t == m + i + f + e && (m == [] || m == [MINUS])
      && IsInt(i) && (f == [] || IsFrac(f)) && (e == [] || IsExp(e))
  }

  /** HEXDIG, in either case. */
  predicate IsHex(b: byte) { IsDigit(b) || 65 <= b <= 70 || 97 <= b <= 102 }

  predicate IsEscapable(b: byte) {
    b == QUOTE || b == BACKSLASH || b == 47 || b == 98 || b == 102 || b == 110 || b == 114 || b == 116
  }

  predicate IsChar(c: Bytes) {
    || (|c| == 1 && c[0] >= 32 && c[0] != QUOTE && c[0] != BACKSLASH)
    || (|c| == 2 && c[0] == BACKSLASH && IsEscapable(c[1]))
    || (|c| == 6 && c[0] == BACKSLASH && c[1] == LOWER_U && IsHex(c[2]) && IsHex(c[3]) && IsHex(c[4]) && IsHex(c[5]))
  }

  ghost predicate IsChars(t: Bytes)
    decreases |t|
  {
    t == [] || exists c, rest :: IsChar(c) && t == c + rest && IsChars(rest)
  }

  ghost predicate IsString(t: Bytes) { exists body :: t == [QUOTE] + body + [QUOTE] && IsChars(body) }

  ghost predicate IsValue(t: Bytes)
    decreases |t|, 3
  {
    t == NULL_TEXT || t == FALSE_TEXT || t == TRUE_TEXT || IsNumber(t) || IsString(t) || IsArray(t) || IsObject(t)
  }

  ghost predicate IsArray(t: Bytes)
    decreases |t|, 2
  {
    exists open, body, close ::
      && Structural(open, OPEN_BRACKET) && Structural(close, CLOSE_BRACKET) && t == open + body + close
      && (body == [] || IsElements(body))
  }

  /** value *( value-separator value ). */
  ghost predicate IsElements(t: Bytes)
    decreases |t|, 4
  {
    IsValue(t) || exists v, comma, rest ::
        Structural(comma, COMMA) && t == v + comma + rest && IsValue(v) && IsElements(rest)
  }

  ghost predicate IsObject(t: Bytes)
    decreases |t|, 2
  {
    exists open, body, close ::
      && Structural(open, OPEN_BRACE) && Structural(close, CLOSE_BRACE) && t == open + body + close
      && (body == [] || IsMembers(body))
  }

  /** string name-separator value. */
  ghost predicate IsMember(t: Bytes)
    decreases |t|, 4
  {
    exists name, colon, v :: IsString(name) && Structural(colon, COLON) && t == name + colon + v && IsValue(v)
  }

  ghost predicate IsMembers(t: Bytes)
    decreases |t|, 5
  {
    IsMember(t) || exists m, comma, rest ::
        Structural(comma, COMMA) && t == m + comma + rest && IsMember(m) && IsMembers(rest)
  }

  /** JSON-text = ws value ws. */
  ghost predicate IsJson(t: Bytes) { exists x, v, y :: Ws(x) && Ws(y) && t == x + v + y && IsValue(v) }

  // ---- numbers and strings ----

  lemma {:induction false} DigitsInt(n: nat)
    ensures IsInt(Digits(n)) && Digits1(Digits(n)) && (n > 0 ==> Digits(n)[0] != 48)
  {
    if n >= 10 { DigitsInt(n / 10); }
  }

  lemma NumberDerives(n: int)
    ensures IsNumber(NumberText(n))
  {
    var i := Digits(if n < 0 then -n else n);
    DigitsInt(if n < 0 then -n else n);
    var m: Bytes := if n < 0 then [MINUS] else [];
    var none: Bytes := [];
    assert NumberText(n) == m + i + none + none;
  }

  lemma EscapeDerives(b: byte)
    ensures IsChar(Escape(b))
  {
    if b < 32 { HexDerives(b / 16); HexDerives(b % 16); }
  }

  lemma HexDerives(d: nat)
    requires d < 16
    ensures IsHex(HexDigit(d))
  {
  }

  lemma {:induction false} EscapesDerive(s: Bytes)
    ensures IsChars(Escapes(s))
  {
    if s != [] {
      EscapeDerives(s[0]);
      EscapesDerive(s[1..]);
      assert Escapes(s) == Escape(s[0]) + Escapes(s[1..]);
      hide IsChar, Escape;
    }
  }

  lemma StringDerives(s: Bytes)
    ensures IsString(StringText(s))
  {
    EscapesDerive(s);
  }

  // ---- values ----

  lemma Token(x: Bytes, b: byte, y: Bytes)
    requires Ws(x) && Ws(y)
    ensures Structural(x + [b] + y, b)
  {
  }

  /** The white space around a closing bracket. */
  lemma Close(x: Bytes, b: byte)
    requires Ws(x)
    ensures Structural(x + [b], b)
  {
    Token(x, b, []);
    assert x + [b] + [] == x + [b];
  }

  lemma Open(b: byte, y: Bytes)
    requires Ws(y)
    ensures Structural([b] + y, b)
  {
    Token([], b, y);
    assert [] + [b] + y == [b] + y;
  }

  lemma {:induction false} ValueDerives(v: Value, format: bool, depth: nat)
    ensures IsValue(Text(v, format, depth))
    decreases v, 0
  {
    match v
    case Null =>
    case Bool(_) =>
    case Number(n) => NumberDerives(n);
    case Str(s) => StringDerives(s);
    case Arr(items) => ArrayDerives(items, format, depth);
    case Obj(fields) => ObjectDerives(fields, format, depth);
  }

  lemma {:induction false} ArrayDerives(items: seq<Value>, format: bool, depth: nat)
    ensures IsArray(Text(Arr(items), format, depth))
    decreases items, 2
  {
    Open(OPEN_BRACKET, []);
    Close([], CLOSE_BRACKET);
    assert [OPEN_BRACKET] + [] == [OPEN_BRACKET] && [] + [CLOSE_BRACKET] == [CLOSE_BRACKET];
    if items != [] { ItemsDerive(items, format, depth + 1); }
    hide Structural;
  }

  lemma CommaDerives(format: bool)
    ensures Structural(AfterItem(true, format), COMMA)
  {
    Open(COMMA, if format then [SPACE] else []);
    assert [COMMA] + [] == [COMMA] && [COMMA] + [SPACE] == [COMMA, SPACE];
  }

  lemma {:induction false} ItemsDerive(items: seq<Value>, format: bool, depth: nat)
    requires items != []
    ensures IsElements(ItemsText(items, format, depth))
    decreases items, 1
  {
    ValueDerives(items[0], format, depth);
    hide Text, Structural, AfterItem, IsValue;
    var t := Text(items[0], format, depth);
    if |items| == 1 {
      LastItem(items, format, depth);
    } else {
      CommaDerives(format);
      ItemsDerive(items[1..], format, depth);
      assert ItemsText(items, format, depth) == t + AfterItem(true, format) + ItemsText(items[1..], format, depth);
    }
  }

  lemma LastItem(items: seq<Value>, format: bool, depth: nat)
    requires |items| == 1
    ensures ItemsText(items, format, depth) == Text(items[0], format, depth)
  {
    hide Text;
    var t := Text(items[0], format, depth);
    assert t + [] + [] == t;
  }

  // ---- objects ----

  function Indent(format: bool, depth: nat): Bytes { if format then Tabs(depth) else [] }

  function Break(format: bool): Bytes { if format then [NEWLINE] else [] }

  lemma IndentIsWs(format: bool, depth: nat)
    ensures Ws(Indent(format, depth)) && Ws(Break(format)) && Ws(Break(format) + Indent(format, depth))
  {
  }

  function MemberText(f: Field, format: bool, depth: nat): Bytes {
    StringText(f.name) + (if format then [COLON, TAB] else [COLON]) + Text(f.value, format, depth)
  }

  /** The members without the white space before the first and after the last. */
  function MembersText(fields: seq<Field>, format: bool, depth: nat): Bytes
    requires fields != []
  {
    var m := MemberText(fields[0], format, depth);
    if |fields| == 1 then m
    else m + ([COMMA] + (Break(format) + Indent(format, depth))) + MembersText(fields[1..], format, depth)
  }

  lemma ObjectFrom(t: Bytes, open: Bytes, body: Bytes, close: Bytes)
    requires Structural(open, OPEN_BRACE) && Structural(close, CLOSE_BRACE) && t == open + body + close
    requires body == [] || IsMembers(body)
    ensures IsObject(t)
  {
    hide Structural, IsMembers;
  }

  lemma {:induction false} ObjectDerives(fields: seq<Field>, format: bool, depth: nat)
    ensures IsObject(Text(Obj(fields), format, depth))
    decreases fields, 2
  {
    hide Structural, Indent, Break, Text, IsMembers, MembersText, IsObject, Ws;
    var inner, outer, line := Indent(format, depth + 1), Indent(format, depth), Break(format);
    var t := Text(Obj(fields), format, depth);
    IndentIsWs(format, depth + 1);
    IndentIsWs(format, depth);
    if fields == [] {
      Open(OPEN_BRACE, line);
      Close(outer, CLOSE_BRACE);
      NoFields(format, depth);
      ObjectFrom(t, [OPEN_BRACE] + line, [], outer + [CLOSE_BRACE]);
    } else {
      Open(OPEN_BRACE, line + inner);
      Close(line + outer, CLOSE_BRACE);
      MembersDerive(fields, format, depth + 1);
      Regrouped(fields, format, depth);
      var body := MembersText(fields, format, depth + 1);
      ObjectFrom(t, [OPEN_BRACE] + (line + inner), body, line + outer + [CLOSE_BRACE]);
    }
  }

  lemma NoFields(format: bool, depth: nat)
    ensures Text(Obj([]), format, depth) == ([OPEN_BRACE] + Break(format)) + [] +
        (Indent(format, depth) + [CLOSE_BRACE])
  {
  }

  /** The text of an object by its tokens. */
  lemma Regrouped(fields: seq<Field>, format: bool, depth: nat)
    requires fields != []
    ensures Text(Obj(fields), format, depth) ==
      ([OPEN_BRACE] + (Break(format) + Indent(format, depth + 1))) + MembersText(fields, format, depth + 1)
      + (Break(format) + Indent(format, depth) + [CLOSE_BRACE])
  {
    FieldsSplit(fields, format, depth + 1);
    ObjectParts(fields, format, depth);
    hide Text, FieldsText, MembersText, Indent, Break;
    var inner, outer, line := Indent(format, depth + 1), Indent(format, depth), Break(format);
    Regroup(line, inner, MembersText(fields, format, depth + 1), outer);
  }

  lemma ObjectParts(fields: seq<Field>, format: bool, depth: nat)
    ensures Text(Obj(fields), format, depth) ==
      [OPEN_BRACE] + Break(format) + FieldsText(fields, format, depth + 1) + Indent(format, depth) + [CLOSE_BRACE]
  {
    hide FieldsText, Tabs;
  }

  lemma Regroup(line: Bytes, inner: Bytes, members: Bytes, outer: Bytes)
    ensures [OPEN_BRACE] + line + (inner + members + line) + outer + [CLOSE_BRACE]
            == ([OPEN_BRACE] + (line + inner)) + members + (line + outer + [CLOSE_BRACE])
  {
  }

  lemma FieldSplit(f: Field, format: bool, depth: nat)
    ensures FieldText(f, format, depth) == Indent(format, depth) + MemberText(f, format, depth)
  {
    hide Text, StringText, Tabs;
  }

  lemma {:induction false} FieldsSplit(fields: seq<Field>, format: bool, depth: nat)
    requires fields != []
    ensures FieldsText(fields, format, depth) == Indent(format, depth) + MembersText(fields, format, depth) +
        Break(format)
  {
    FieldSplit(fields[0], format, depth);
    AfterSplit(format);
    hide FieldText, MemberText, Indent, Break, AfterField;
    var a, m, b := Indent(format, depth), MemberText(fields[0], format, depth), Break(format);
    if |fields| > 1 {
      FieldsSplit(fields[1..], format, depth);
      Shift(a, m, b, MembersText(fields[1..], format, depth));
    } else {
      assert FieldsText(fields[1..], format, depth) == [];
      assert a + m + b + [] == a + m + b;
    }
  }

  /** The line break and the indentation of the next field go with the comma. */
  lemma Shift(a: Bytes, m: Bytes, b: Bytes, rest: Bytes)
    ensures a + m + ([COMMA] + b) + (a + rest + b) == a + (m + ([COMMA] + (b + a)) + rest) + b
  {
  }

  lemma AfterSplit(format: bool)
    ensures AfterField(true, format) == [COMMA] + Break(format) && AfterField(false, format) == Break(format)
  {
    assert [] + [NEWLINE] == [NEWLINE];
  }

  lemma {:induction false} MemberDerives(f: Field, format: bool, depth: nat)
    ensures IsMember(MemberText(f, format, depth))
    decreases f, 1
  {
    StringDerives(f.name);
    Open(COLON, if format then [TAB] else []);
    assert [COLON] + [] == [COLON] && [COLON] + [TAB] == [COLON, TAB];
    ValueDerives(f.value, format, depth);
    hide IsString, Structural, IsValue, Text, StringText;
  }

  lemma OneMember(t: Bytes)
    requires IsMember(t)
    ensures IsMembers(t)
  {
    hide IsMember, Structural;
  }

  lemma MoreMembers(m: Bytes, comma: Bytes, rest: Bytes)
    requires IsMember(m) && Structural(comma, COMMA) && IsMembers(rest)
    ensures IsMembers(m + comma + rest)
  {
    hide IsMember, Structural;
  }

  lemma {:induction false} MembersDerive(fields: seq<Field>, format: bool, depth: nat)
    requires fields != []
    ensures IsMembers(MembersText(fields, format, depth))
    decreases fields, 1
  {
    hide IsMember, IsMembers, Structural, MemberText, Indent, Break, Ws;
    MemberDerives(fields[0], format, depth);
    if |fields| > 1 {
      IndentIsWs(format, depth);
      Open(COMMA, Break(format) + Indent(format, depth));
      MembersDerive(fields[1..], format, depth);
      var comma := [COMMA] + (Break(format) + Indent(format, depth));
      MoreMembers(MemberText(fields[0], format, depth), comma, MembersText(fields[1..], format, depth));
    } else {
      OneMember(MemberText(fields[0], format, depth));
    }
  }

  /** Every tree prints, formatted or not, as a JSON text. */
  lemma {:induction false} TextDerives(v: Value, format: bool)
    ensures IsJson(Text(v, format, 0))
  {
    ValueDerives(v, format, 0);
    hide IsValue, Text;
    var t := Text(v, format, 0);
    assert t == [] + t + [];
  }
}
