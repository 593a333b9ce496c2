/** The layout of formatted text, as one pass over the unformatted text (src/utils/cJSON.c:1416-1490, 1598-1660,
    1770-1896). */
module JsonLayout {
  import opened JsonText
  import opened JsonRoundTrip

  /** The brackets that are open, the innermost last. */
  type Stack = seq<byte>

  /** Rewrite unformatted text: a member starts on a line of its own, with a tab for each open bracket; a tab follows
      a colon and a blank a comma between elements; the line of a closing brace has a tab for each bracket that stays
      open. */
  function Pretty(t: Bytes, open: Stack): Bytes
    decreases |t|
  {
    if t == [] then []
    else if t[0] == QUOTE then [QUOTE] + PrettyString(t[1..], open)
    else if t[0] == OPEN_BRACKET then [OPEN_BRACKET] + Pretty(t[1..], open + [OPEN_BRACKET])
    else if t[0] == CLOSE_BRACKET then [CLOSE_BRACKET] + Pretty(t[1..], Inner(open))
    else if t[0] == OPEN_BRACE then
      if |t| > 1 && t[1] == CLOSE_BRACE then
        [OPEN_BRACE, NEWLINE] + Tabs(|open|) + [CLOSE_BRACE] + Pretty(t[2..], open)
      else [OPEN_BRACE, NEWLINE] + Tabs(|open| + 1) + Pretty(t[1..], open + [OPEN_BRACE])
    else if t[0] == CLOSE_BRACE then
      [NEWLINE] + Tabs(|Inner(open)|) + [CLOSE_BRACE] + Pretty(t[1..], Inner(open))
    else if t[0] == COLON then [COLON, TAB] + Pretty(t[1..], open)
    else if t[0] == COMMA && open != [] && open[|open| - 1] == OPEN_BRACE then
      [COMMA, NEWLINE] + Tabs(|open|) + Pretty(t[1..], open)
    else if t[0] == COMMA then [COMMA, SPACE] + Pretty(t[1..], open)
    else [t[0]] + Pretty(t[1..], open)
  }

  /** Inside a string nothing changes. */
  function PrettyString(t: Bytes, open: Stack): Bytes
    decreases |t|
  {
    if t == [] then []
    else if t[0] == QUOTE then [QUOTE] + Pretty(t[1..], open)
    else if t[0] == BACKSLASH && |t| > 1 then [t[0], t[1]] + PrettyString(t[2..], open)
    else [t[0]] + PrettyString(t[1..], open)
  }

  function Inner(open: Stack): Stack { if open == [] then [] else open[..|open| - 1] }

  // ---- strings ----

  lemma {:induction false} OneByte(b: byte, rest: Bytes, open: Stack)
    requires b != QUOTE && b != BACKSLASH
    ensures PrettyString([b] + rest, open) == [b] + PrettyString(rest, open)
  {
    assert ([b] + rest)[1..] == rest;
  }

  lemma {:induction false} TwoBytes(b: byte, rest: Bytes, open: Stack)
    ensures PrettyString([BACKSLASH, b] + rest, open) == [BACKSLASH, b] + PrettyString(rest, open)
  {
    assert ([BACKSLASH, b] + rest)[2..] == rest;
  }

  lemma {:induction false} EscapePretty(b: byte, rest: Bytes, open: Stack)
    ensures PrettyString(Escape(b) + rest, open) == Escape(b) + PrettyString(rest, open)
  {
    hide PrettyString;
    if |Escape(b)| == 1 {
      OneByte(b, rest, open);
    } else if |Escape(b)| == 2 {
      TwoBytes(Escape(b)[1], rest, open);
    } else {
      var h, l := HexDigit(b / 16), HexDigit(b % 16);
      OneByte(l, rest, open);
      OneByte(h, [l] + rest, open);
      OneByte(48, [h] + ([l] + rest), open);
      OneByte(48, [48] + ([h] + ([l] + rest)), open);
      TwoBytes(LOWER_U, [48] + ([48] + ([h] + ([l] + rest))), open);
      assert Escape(b) + rest == [BACKSLASH, LOWER_U] + ([48] + ([48] + ([h] + ([l] + rest))));
    }
  }

  lemma Join3(a: Bytes, b: Bytes, c: Bytes)
    ensures a + b + c == a + (b + c)
  {
  }

  lemma Join4(a: Bytes, b: Bytes, c: Bytes, d: Bytes)
    ensures a + b + c + d == a + (b + (c + d))
  {
  }

  lemma Join5(a: Bytes, b: Bytes, c: Bytes, d: Bytes, e: Bytes)
    ensures a + b + c + d + e == a + (b + (c + (d + e)))
  {
  }

  lemma {:induction false} EscapesPretty(s: Bytes, rest: Bytes, open: Stack)
    ensures PrettyString(Escapes(s) + ([QUOTE] + rest), open) == Escapes(s) + ([QUOTE] + Pretty(rest, open))
  {
    if s == [] {
      EndPretty(rest, open);
    } else {
      hide PrettyString, Pretty, Escape;
      var more := Escapes(s[1..]);
      EscapesPretty(s[1..], rest, open);
      EscapePretty(s[0], more + ([QUOTE] + rest), open);
      Join3(Escape(s[0]), more, [QUOTE] + rest);
      Join3(Escape(s[0]), more, [QUOTE] + Pretty(rest, open));
    }
  }

  lemma EndPretty(rest: Bytes, open: Stack)
    ensures PrettyString([] + ([QUOTE] + rest), open) == [] + ([QUOTE] + Pretty(rest, open))
  {
    var t := [QUOTE] + rest;
    assert [] + t == t && t[1..] == rest && t[0] == QUOTE;
  }

  lemma QuotePretty(t: Bytes, open: Stack)
    ensures Pretty([QUOTE] + t, open) == [QUOTE] + PrettyString(t, open)
  {
    assert ([QUOTE] + t)[1..] == t;
  }

  lemma StringPretty(s: Bytes, rest: Bytes, open: Stack)
    ensures Pretty(StringText(s) + rest, open) == StringText(s) + Pretty(rest, open)
  {
    hide Pretty, PrettyString, Escapes;
    EscapesPretty(s, rest, open);
    QuotePretty(Escapes(s) + ([QUOTE] + rest), open);
    Join4([QUOTE], Escapes(s), [QUOTE], rest);
    Join4([QUOTE], Escapes(s), [QUOTE], Pretty(rest, open));
  }

  // ---- words and numbers ----

  predicate Ordinary(b: byte) {
    && b != QUOTE && b != OPEN_BRACKET && b != CLOSE_BRACKET && b != OPEN_BRACE && b != CLOSE_BRACE && b != COLON
    && b != COMMA
  }

  lemma {:induction false} OrdinaryPretty(w: Bytes, rest: Bytes, open: Stack)
    requires forall i | 0 <= i < |w| :: Ordinary(w[i])
    ensures Pretty(w + rest, open) == w + Pretty(rest, open)
  {
    if w == [] {
      assert w + rest == rest;
    } else {
      assert Ordinary(w[0]) && w + rest == [w[0]] + (w[1..] + rest) && (w + rest)[1..] == w[1..] + rest;
      OrdinaryPretty(w[1..], rest, open);
      assert w + Pretty(rest, open) == [w[0]] + (w[1..] + Pretty(rest, open));
    }
  }

  lemma DigitsOrdinary(n: int)
    ensures forall i | 0 <= i < |NumberText(n)| :: Ordinary(NumberText(n)[i])
  {
    DigitsBack(if n < 0 then -n else n);
  }

  // ---- values ----

  /** Laying out the text of a value gives its formatted text at that depth. */
  ghost predicate LaidOut(v: Value, rest: Bytes, open: Stack) {
    Pretty(Text(v, false, |open|) + rest, open) == Text(v, true, |open|) + Pretty(rest, open)
  }

  lemma {:induction false} ValuePretty(v: Value, rest: Bytes, open: Stack)
    ensures LaidOut(v, rest, open)
    decreases v, 1
  {
    hide Pretty;
    match v
    case Null => OrdinaryPretty(NULL_TEXT, rest, open);
    case Bool(b) => OrdinaryPretty(if b then TRUE_TEXT else FALSE_TEXT, rest, open);
    case Number(n) => DigitsOrdinary(n); OrdinaryPretty(NumberText(n), rest, open);
    case Str(s) => StringPretty(s, rest, open);
    case Arr(items) => ArrayPretty(items, rest, open);
    case Obj(fields) => ObjectPretty(fields, rest, open);
  }

  lemma OpenBracketPretty(t: Bytes, open: Stack)
    ensures Pretty([OPEN_BRACKET] + t, open) == [OPEN_BRACKET] + Pretty(t, open + [OPEN_BRACKET])
    ensures Pretty([CLOSE_BRACKET] + t, open) == [CLOSE_BRACKET] + Pretty(t, Inner(open))
    ensures Inner(open + [OPEN_BRACKET]) == open && Inner(open + [OPEN_BRACE]) == open
  {
    assert ([OPEN_BRACKET] + t)[1..] == t && ([CLOSE_BRACKET] + t)[1..] == t;
  }

  lemma {:induction false} ArrayPretty(items: seq<Value>, rest: Bytes, open: Stack)
    ensures LaidOut(Arr(items), rest, open)
    decreases items, 2
  {
    var inner := open + [OPEN_BRACKET];
    var a, b := ItemsText(items, false, |inner|), ItemsText(items, true, |inner|);
    assert Text(Arr(items), false, |open|) == [OPEN_BRACKET] + a + [CLOSE_BRACKET];
    assert Text(Arr(items), true, |open|) == [OPEN_BRACKET] + b + [CLOSE_BRACKET];
    hide Pretty, Text, ItemsText, Inner;
    OpenBracketPretty(a + ([CLOSE_BRACKET] + rest), open);
    ItemsPretty(items, [CLOSE_BRACKET] + rest, inner);
    OpenBracketPretty(rest, inner);
    OpenBracketPretty(rest, open);
    Join4([OPEN_BRACKET], a, [CLOSE_BRACKET], rest);
    Join4([OPEN_BRACKET], b, [CLOSE_BRACKET], Pretty(rest, open));
  }

  lemma CommaPretty(t: Bytes, open: Stack)
    requires open != []
    ensures Pretty([COMMA] + t, open) ==
        (if open[|open| - 1] == OPEN_BRACE then [COMMA, NEWLINE] + Tabs(|open|) else [COMMA, SPACE]) + Pretty(t, open)
    ensures Pretty([COLON] + t, open) == [COLON, TAB] + Pretty(t, open)
  {
    assert ([COMMA] + t)[1..] == t && ([COLON] + t)[1..] == t;
  }

  lemma {:induction false} ItemsPretty(items: seq<Value>, rest: Bytes, open: Stack)
    requires open != [] && open[|open| - 1] == OPEN_BRACKET
    ensures Pretty(ItemsText(items, false, |open|) + rest, open)
            == ItemsText(items, true, |open|) + Pretty(rest, open)
    decreases items, 1
  {
    hide Pretty, Text;
    var d := |open|;
    if items == [] {
      assert [] + rest == rest && [] + Pretty(rest, open) == Pretty(rest, open);
    } else {
      var t, u := Text(items[0], false, d), Text(items[0], true, d);
      var more, laid := ItemsText(items[1..], false, d), ItemsText(items[1..], true, d);
      ItemsPretty(items[1..], rest, open);
      if |items| > 1 {
        ValuePretty(items[0], [COMMA] + (more + rest), open);
        CommaPretty(more + rest, open);
        assert ItemsText(items, false, d) + rest == t + ([COMMA] + (more + rest));
        assert ItemsText(items, true, d) + Pretty(rest, open) == u + ([COMMA, SPACE] + (laid + Pretty(rest, open)));
      } else {
        ValuePretty(items[0], rest, open);
        assert more == [] && laid == [];
        assert ItemsText(items, false, d) + rest == t + rest;
        assert ItemsText(items, true, d) == u;
      }
    }
  }

  lemma OpenBracePretty(t: Bytes, open: Stack)
    requires t != []
    ensures t[0] != CLOSE_BRACE ==>
        Pretty([OPEN_BRACE] + t, open) == [OPEN_BRACE, NEWLINE] + Tabs(|open| + 1) + Pretty(t, open + [OPEN_BRACE])
    ensures t[0] == CLOSE_BRACE ==>
        Pretty([OPEN_BRACE] + t, open) == [OPEN_BRACE, NEWLINE] + Tabs(|open|) + [CLOSE_BRACE] + Pretty(t[1..], open)
  {
    var s := [OPEN_BRACE] + t;
    assert s[1..] == t && s[2..] == t[1..] && s[1] == t[0];
  }

  lemma CloseBracePretty(t: Bytes, open: Stack)
    ensures Pretty([CLOSE_BRACE] + t, open + [OPEN_BRACE])
            == [NEWLINE] + Tabs(|open|) + [CLOSE_BRACE] + Pretty(t, open)
  {
    var s, inner := [CLOSE_BRACE] + t, open + [OPEN_BRACE];
    assert s[0] == CLOSE_BRACE && s[1..] == t && Inner(inner) == open;
    CloseStep(s, inner);
    hide Pretty, Inner, Tabs;
  }

  lemma CloseStep(s: Bytes, inner: Stack)
    requires s != [] && s[0] == CLOSE_BRACE
    ensures Pretty(s, inner) ==
      [NEWLINE] + Tabs(|Inner(inner)|) + [CLOSE_BRACE] + Pretty(s[1..], Inner(inner))
  {
    hide Inner, Tabs;
  }

  lemma EmptyObjectPretty(rest: Bytes, open: Stack)
    ensures LaidOut(Obj([]), rest, open)
  {
    var none: Bytes := [];
    var d := |open|;
    var t := [CLOSE_BRACE] + rest;
    assert Text(Obj([]), false, d) == [OPEN_BRACE] + [CLOSE_BRACE];
    assert Text(Obj([]), true, d) == [OPEN_BRACE, NEWLINE] + Tabs(d) + [CLOSE_BRACE];
    hide Pretty, Text, Tabs;
    OpenBracePretty(t, open);
    assert t[1..] == rest;
    Join3([OPEN_BRACE], [CLOSE_BRACE], rest);
  }

  lemma ObjectTexts(fields: seq<Field>, d: nat)
    ensures Text(Obj(fields), false, d) == [OPEN_BRACE] + FieldsText(fields, false, d + 1) + [CLOSE_BRACE]
    ensures Text(Obj(fields), true, d) ==
        [OPEN_BRACE, NEWLINE] + FieldsText(fields, true, d + 1) + Tabs(d) + [CLOSE_BRACE]
  {
    hide FieldsText, Tabs;
    assert [OPEN_BRACE] + [NEWLINE] == [OPEN_BRACE, NEWLINE];
  }

  lemma {:induction false} ObjectPretty(fields: seq<Field>, rest: Bytes, open: Stack)
    ensures LaidOut(Obj(fields), rest, open)
    decreases fields, 3
  {
    hide Pretty, Text, FieldsText, Tabs;
    if fields == [] {
      EmptyObjectPretty(rest, open);
    } else {
      var d := |open|;
      var a, b := FieldsText(fields, false, d + 1), FieldsText(fields, true, d + 1);
      ObjectTexts(fields, d);
      FieldsStart(fields, d + 1);
      OpenBracePretty(a + ([CLOSE_BRACE] + rest), open);
      FieldsPretty(fields, rest, open);
      Join4([OPEN_BRACE], a, [CLOSE_BRACE], rest);
      Join3([OPEN_BRACE, NEWLINE], Tabs(d + 1), Pretty(a + ([CLOSE_BRACE] + rest), open + [OPEN_BRACE]));
      Join5([OPEN_BRACE, NEWLINE], b, Tabs(d), [CLOSE_BRACE], Pretty(rest, open));
      Join4(b, Tabs(d), [CLOSE_BRACE], Pretty(rest, open));
      Join3([OPEN_BRACE], a, [CLOSE_BRACE] + rest);
    }
  }

  lemma FieldsStart(fields: seq<Field>, d: nat)
    requires fields != []
    ensures |FieldsText(fields, false, d)| > 0 && FieldsText(fields, false, d)[0] == QUOTE
  {
    hide Text, Escapes;
    var none: Bytes := [];
    var f := fields[0];
    assert FieldText(f, false, d) == none + StringText(f.name) + [COLON] + Text(f.value, false, d);
    assert FieldText(f, false, d)[0] == QUOTE;
  }

  /** One member, without its line. */
  lemma {:induction false} FieldPretty(f: Field, rest: Bytes, open: Stack)
    requires open != []
    ensures Tabs(|open|) + Pretty(FieldText(f, false, |open|) + rest, open)
            == FieldText(f, true, |open|) + Pretty(rest, open)
    decreases f, 2
  {
    hide Pretty, Text, Tabs, StringText;
    var d := |open|;
    var none: Bytes := [];
    var s, t, u := StringText(f.name), Text(f.value, false, d), Text(f.value, true, d);
    assert FieldText(f, false, d) == none + s + [COLON] + t;
    assert FieldText(f, true, d) == Tabs(d) + s + [COLON, TAB] + u;
    StringPretty(f.name, [COLON] + (t + rest), open);
    CommaPretty(t + rest, open);
    ValuePretty(f.value, rest, open);
    assert none + s + [COLON] + t + rest == s + ([COLON] + (t + rest));
    assert Tabs(d) + s + [COLON, TAB] + u + Pretty(rest, open)
        == Tabs(d) + (s + ([COLON, TAB] + (u + Pretty(rest, open))));
  }

  lemma FieldsTexts(fields: seq<Field>, d: nat)
    requires fields != []
    ensures |fields| > 1 ==>
        FieldsText(fields, false, d) == FieldText(fields[0], false, d) + [COMMA] + FieldsText(fields[1..], false, d)
    ensures |fields| > 1 ==>
        FieldsText(fields, true, d) == FieldText(fields[0], true, d) + [COMMA, NEWLINE] +
            FieldsText(fields[1..], true, d)
    ensures |fields| == 1 ==> FieldsText(fields, false, d) == FieldText(fields[0], false, d)
    ensures |fields| == 1 ==> FieldsText(fields, true, d) == FieldText(fields[0], true, d) + [NEWLINE]
  {
    hide FieldText;
    var none: Bytes := [];
    assert [COMMA] + none == [COMMA] && [COMMA] + [NEWLINE] == [COMMA, NEWLINE] && none + none == none;
    assert none + [NEWLINE] == [NEWLINE];
    var t, u := FieldText(fields[0], false, d), FieldText(fields[0], true, d);
    if |fields| == 1 {
      assert FieldsText(fields[1..], false, d) == [] && FieldsText(fields[1..], true, d) == [];
      assert t + none + [] == t && u + [NEWLINE] + [] == u + [NEWLINE];
    }
  }

  lemma {:induction false} FieldsPretty(fields: seq<Field>, rest: Bytes, open: Stack)
    requires fields != []
    ensures var inner := open + [OPEN_BRACE];
      Tabs(|open| + 1) + Pretty(FieldsText(fields, false, |open| + 1) + ([CLOSE_BRACE] + rest), inner)
      == FieldsText(fields, true, |open| + 1) + Tabs(|open|) + [CLOSE_BRACE] + Pretty(rest, open)
    decreases fields, 2
  {
    hide Pretty, Tabs, FieldText, FieldsText;
    var inner := open + [OPEN_BRACE];
    var d := |open| + 1;
    var tail := [CLOSE_BRACE] + rest;
    var end := Tabs(|open|) + ([CLOSE_BRACE] + Pretty(rest, open));
    var t, u := FieldText(fields[0], false, d), FieldText(fields[0], true, d);
    FieldsTexts(fields, d);
    if |fields| > 1 {
      var more, laid := FieldsText(fields[1..], false, d), FieldsText(fields[1..], true, d);
      FieldsPretty(fields[1..], rest, open);
      CommaPretty(more + tail, inner);
      FieldPretty(fields[0], [COMMA] + (more + tail), inner);
      Join4(t, [COMMA], more, tail);
      Join3(t, [COMMA], more + tail);
      Join4(laid, Tabs(|open|), [CLOSE_BRACE], Pretty(rest, open));
      Join3([COMMA, NEWLINE], Tabs(d), Pretty(more + tail, inner));
      Join4(u, [COMMA, NEWLINE], laid, end);
      Join4(u + [COMMA, NEWLINE] + laid, Tabs(|open|), [CLOSE_BRACE], Pretty(rest, open));
    } else {
      CloseBracePretty(rest, open);
      FieldPretty(fields[0], tail, inner);
      Join4([NEWLINE], Tabs(|open|), [CLOSE_BRACE], Pretty(rest, open));
      Join3(u, [NEWLINE], end);
      Join4(u + [NEWLINE], Tabs(|open|), [CLOSE_BRACE], Pretty(rest, open));
    }
  }

  /** Formatted text is the unformatted text, laid out. */
  lemma FormattedIsLaidOut(v: Value)
    ensures Text(v, true, 0) == Pretty(Text(v, false, 0), [])
  {
    ValuePretty(v, [], []);
    assert Text(v, false, 0) + [] == Text(v, false, 0) && Pretty([], []) == [];
    hide Pretty, Text;
  }
}
