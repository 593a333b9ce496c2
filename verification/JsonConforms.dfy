/** The parser on every text of RFC 8259: it reads exactly what the derivation denotes (src/utils/cJSON.c:305-383,
    665-951, 1368-1595, 1662-1777). */
module JsonConforms {
  import opened Wrappers
  import opened JsonText
  import opened JsonGrammar
  import opened JsonParse
  import opened JsonRoundTrip
  import opened JsonSyntax
  import JsonUnicode

  // ---- strings ----

  lemma {:induction false} NibbleIs(b: byte)
    requires IsHex(b)
    ensures HexValue(b) == Some(Nibble(b))
  {
  }

  lemma UnitReads(c: Bytes, i: nat, u: Char)
    requires u.Unit? && CharOk(u) && StartsWith(c, i, CharText(u))
    ensures i + 6 <= |c| && c[i] == BACKSLASH && c[i + 1] == LOWER_U && ParseHex4(c, i + 2) == UnitValue(u)
  {
    ByteAt(c, i, CharText(u), 0);
    ByteAt(c, i, CharText(u), 1);
    ByteAt(c, i, CharText(u), 2);
    ByteAt(c, i, CharText(u), 3);
    ByteAt(c, i, CharText(u), 4);
    ByteAt(c, i, CharText(u), 5);
    NibbleIs(u.x);
    NibbleIs(u.y);
    NibbleIs(u.z);
    NibbleIs(u.w);
    hide Nibble, HexValue;
  }

  /** The table of section 7 is the one that the parser has. */
  lemma {:induction false} EscapesAre(b: byte)
    ensures Unescaped(b) == if b in ESCAPES then Some(ESCAPES[b]) else None
    ensures IsEscapable(b) <==> b in ESCAPES
  {
  }

  lemma CharBytes(c: Bytes, o: nat, u: Char)
    requires CharOk(u) && StartsWith(c, o, CharText(u))
    ensures o + |CharText(u)| <= |c|
    ensures u.Plain? ==> c[o] == u.b && |CharText(u)| == 1
    ensures u.Escaped? ==> c[o] == BACKSLASH && c[o + 1] == u.e && |CharText(u)| == 2
    ensures u.Unit? ==> |CharText(u)| == 6 && c[o] == BACKSLASH && c[o + 1] == LOWER_U
    ensures u.Unit? ==> forall k | o + 2 <= k < o + 6 :: IsHex(c[k])
  {
    var t := CharText(u);
    ByteAt(c, o, t, 0);
    if |t| >= 2 { ByteAt(c, o, t, 1); }
    if |t| == 6 {
      ByteAt(c, o, t, 2);
      ByteAt(c, o, t, 3);
      ByteAt(c, o, t, 4);
      ByteAt(c, o, t, 5);
    }
  }

  /** No character ends the string. */
  lemma {:induction false} FindsPast(c: Bytes, o: nat, u: Char)
    requires CharOk(u) && StartsWith(c, o, CharText(u))
    ensures FindEnd(c, o) == FindEnd(c, o + |CharText(u)|)
  {
    CharBytes(c, o, u);
    hide StartsWith;
    if u.Unit? {
      assert FindEnd(c, o) == FindEnd(c, o + 2);
      assert IsHex(c[o + 2]) && IsHex(c[o + 3]) && IsHex(c[o + 4]) && IsHex(c[o + 5]);
      assert FindEnd(c, o + 2) == FindEnd(c, o + 3);
      assert FindEnd(c, o + 3) == FindEnd(c, o + 4);
      assert FindEnd(c, o + 4) == FindEnd(c, o + 5);
    }
  }

  lemma {:induction false} EndFound(c: Bytes, o: nat, chars: seq<Char>)
    requires CharsOk(chars) && StartsWith(c, o, CharsText(chars) + [QUOTE])
    ensures FindEnd(c, o) == Some(o + |CharsText(chars)|)
    decreases |chars|
  {
    hide StartsWith, CharText, CharOk;
    var t := CharsText(chars);
    Split(c, o, t, [QUOTE]);
    if chars == [] {
      ByteAt(c, o, [QUOTE], 0);
    } else {
      var u := chars[0];
      assert t + [QUOTE] == CharText(u) + (CharsText(chars[1..]) + [QUOTE]);
      Split(c, o, CharText(u), CharsText(chars[1..]) + [QUOTE]);
      FindsPast(c, o, u);
      EndFound(c, o + |CharText(u)|, chars[1..]);
    }
  }

  lemma PlainRead(c: Bytes, o: nat, u: Char, end: nat)
    requires u.Plain? && CharOk(u) && StartsWith(c, o, CharText(u)) && o + 1 <= end < |c|
    ensures Unescape(c, o, end) == Prepend([u.b], Unescape(c, o + 1, end))
  {
    CharBytes(c, o, u);
  }

  lemma EscapeRead(c: Bytes, o: nat, u: Char, end: nat)
    requires u.Escaped? && CharOk(u) && StartsWith(c, o, CharText(u)) && o + 2 <= end < |c|
    ensures Unescape(c, o, end) == Prepend([ESCAPES[u.e]], Unescape(c, o + 2, end))
  {
    CharBytes(c, o, u);
    EscapesAre(u.e);
  }

  /** The surrogates that the parser checks for are those of the derivation. */
  predicate Paired(chars: seq<Char>)
    requires CharsOk(chars) && chars != []
  {
    IsHighUnit(chars[0]) && |chars| > 1 && IsLowUnit(chars[1])
  }

  lemma JoinedIs(high: nat, low: nat)
    requires 0xD800 <= high < 0xDC00 && 0xDC00 <= low < 0xE000
    ensures Joined(high, low) == 0x1_0000 + high % 0x400 * 0x400 + low % 0x400
  {
  }

  /** A unit that is not the first of a pair. */
  lemma SingleRead(c: Bytes, o: nat, end: nat, first: nat)
    requires o + 6 <= end <= |c| && ParseHex4(c, o + 2) == first
    ensures 0xDC00 <= first < 0xE000 ==> Utf16Literal(c, o, end) == (0, [])
    ensures first < 0xD800 || 0xE000 <= first ==> Utf16Literal(c, o, end) == (6, Utf8(first))
    ensures 0xD800 <= first < 0xDC00 && end < o + 12 ==> Utf16Literal(c, o, end) == (0, [])
    ensures 0xD800 <= first < 0xDC00 && end >= o + 12 ==>
        (c[o + 6] == BACKSLASH && c[o + 7] == LOWER_U && 0xDC00 <= ParseHex4(c, o + 8) < 0xE000) ||
        Utf16Literal(c, o, end) == (0, [])
  {
    hide ParseHex4, Utf8;
  }

  lemma UnitRead(c: Bytes, o: nat, chars: seq<Char>, end: nat)
    requires CharsOk(chars) && chars != [] && chars[0].Unit? && StartsWith(c, o, CharsText(chars))
    requires end == o + |CharsText(chars)| < |c|
    ensures var u := chars[0];
      Utf16Literal(c, o, end) ==
        if IsLowUnit(u) then (0, [])
        else if !IsHighUnit(u) then (6, Utf8(UnitValue(u)))
        else if Paired(chars) then (12, Utf8(Joined(UnitValue(u), UnitValue(chars[1]))))
        else (0, [])
  {
    hide StartsWith, ParseHex4, Utf8, UnitValue, CharOk, Utf16Literal, Joined;
    var u := chars[0];
    var rest := chars[1..];
    Split(c, o, CharText(u), CharsText(rest));
    UnitReads(c, o, u);
    SingleRead(c, o, end, UnitValue(u));
    if IsHighUnit(u) && rest != [] {
      var v := rest[0];
      Split(c, o + 6, CharText(v), CharsText(rest[1..]));
      CharBytes(c, o + 6, v);
      NotU(v);
      if v.Unit? { UnitReads(c, o + 6, v); }
      if IsLowUnit(v) {
        JsonUnicode.PairReads(c, o, end, UnitValue(u), UnitValue(v));
        JoinedIs(UnitValue(u), UnitValue(v));
      }
    }
  }

  lemma NotU(v: Char)
    requires CharOk(v)
    ensures (v.Plain? ==> v.b != BACKSLASH) && (v.Escaped? ==> v.e != LOWER_U)
  {
  }

  /** Resolving the escapes gives the bytes that the characters denote. */
  lemma {:induction false} CharsRead(c: Bytes, o: nat, chars: seq<Char>, end: nat)
    requires CharsOk(chars) && StartsWith(c, o, CharsText(chars)) && end == o + |CharsText(chars)| < |c|
    ensures Unescape(c, o, end) == Decoded(chars)
    decreases |chars|
  {
    hide StartsWith, CharOk, Utf16Literal, UnitValue, Joined, Utf8;
    if chars != [] {
      var u := chars[0];
      Split(c, o, CharText(u), CharsText(chars[1..]));
      CharBytes(c, o, u);
      CharsRead(c, o + |CharText(u)|, chars[1..], end);
      match u
      case Plain(_) => PlainRead(c, o, u, end);
      case Escaped(_) => EscapeRead(c, o, u, end);
      case Unit(_, _, _, _) =>
        UnitRead(c, o, chars, end);
        if Paired(chars) {
          Split(c, o + 6, CharText(chars[1]), CharsText(chars[1..][1..]));
          assert chars[1..][1..] == chars[2..];
          CharsRead(c, o + 12, chars[2..], end);
        }
        UnitStep(c, o, chars, end);
    }
  }

  /** One literal, or two, and the rest. */
  lemma {:induction false} UnitStep(c: Bytes, o: nat, chars: seq<Char>, end: nat)
    requires CharsOk(chars) && chars != [] && chars[0].Unit?
    requires o + 6 <= end < |c| && c[o] == BACKSLASH && c[o + 1] == LOWER_U
    requires var u := chars[0];
      Utf16Literal(c, o, end) ==
        if IsLowUnit(u) then (0, [])
        else if !IsHighUnit(u) then (6, Utf8(UnitValue(u)))
        else if Paired(chars) then (12, Utf8(Joined(UnitValue(u), UnitValue(chars[1]))))
        else (0, [])
    requires Unescape(c, o + 6, end) == Decoded(chars[1..])
    requires Paired(chars) ==> Unescape(c, o + 12, end) == Decoded(chars[2..])
    ensures Unescape(c, o, end) == Decoded(chars)
  {
    hide CharOk, Utf16Literal, UnitValue, Joined, Utf8;
  }

  lemma {:induction false} HeldIs(s: Bytes)
    ensures CString(s) == Held(s)
  {
    if s != [] && s[0] != NUL {
      HeldIs(s[1..]);
      assert s[..FirstNul(s)] == [s[0]] + s[1..][..FirstNul(s[1..])];
    }
  }

  /** A string between its quotes. */
  function StringOutcome(chars: seq<Char>, next: nat): Parsed<Bytes>
    requires CharsOk(chars)
  {
    match Decoded(chars)
    case Some(s) => Ok(Held(s), next)
    case None => Bad
  }

  lemma {:induction false} QuotedRead(c: Bytes, o: nat, chars: seq<Char>)
    requires CharsOk(chars) && StartsWith(c, o, QuotedText(chars))
    ensures o < |c| && c[o] == QUOTE && ParseString(c, o) == StringOutcome(chars, o + |QuotedText(chars)|)
  {
    hide StartsWith, CharOk, FindEnd, Unescape, CharsText, Decoded, CString, Held;
    var t := CharsText(chars);
    assert QuotedText(chars) == [QUOTE] + (t + [QUOTE]);
    Split(c, o, [QUOTE], t + [QUOTE]);
    Split(c, o + 1, t, [QUOTE]);
    ByteAt(c, o, [QUOTE], 0);
    EndFound(c, o + 1, chars);
    CharsRead(c, o + 1, chars, o + 1 + |t|);
    if Decoded(chars).Some? { HeldIs(Decoded(chars).value); }
  }

  // ---- numbers ----

  lemma {:induction false} PositionalSnoc(d: Bytes)
    requires AllDigits(d) && d != []
    ensures Positional(d) == 10 * Positional(d[..|d| - 1]) + (d[|d| - 1] - 48)
  {
    if |d| > 1 {
      var t, front := d[1..], d[..|d| - 1];
      PositionalSnoc(t);
      assert front[1..] == t[..|t| - 1] && t[|t| - 1] == d[|d| - 1] && front[0] == d[0];
      Scaled(d[0] - 48, Power10(|d| - 2));
    }
  }

  lemma Scaled(a: int, p: int)
    ensures a * (10 * p) == 10 * (a * p)
  {
  }

  lemma {:induction false} PositionalIs(d: Bytes)
    requires AllDigits(d)
    ensures DigitsValue(d) == Positional(d)
  {
    if d != [] {
      PositionalIs(d[..|d| - 1]);
      PositionalSnoc(d);
    }
  }

  /** Every byte of a numeral is copied for strtod. */
  lemma NumeralBytes(t: Tree)
    requires t.Numeral? && TreeOk(t)
    ensures forall i | 0 <= i < |TreeText(t)| :: NumberByte(TreeText(t)[i])
    ensures |t.digits| > 0 && AllDigits(t.digits)
    ensures t.frac != [] ==> t.frac[0] == 46
    ensures t.exp != [] ==> t.exp[0] == 101 || t.exp[0] == 69
  {
    FracBytes(t.frac);
    ExpBytes(t.exp);
    hide IsFrac, IsExp;
  }

  lemma FracBytes(f: Bytes)
    requires f == [] || IsFrac(f)
    ensures forall i | 0 <= i < |f| :: NumberByte(f[i])
    ensures f != [] ==> f[0] == 46
  {
    forall i | 0 <= i < |f|
      ensures NumberByte(f[i])
    {
      if i > 0 { assert f[i] == f[1..][i - 1]; }
    }
  }

  lemma ExpBytes(e: Bytes)
    requires e == [] || IsExp(e)
    ensures forall i | 0 <= i < |e| :: NumberByte(e[i])
    ensures e != [] ==> e[0] == 101 || e[0] == 69
  {
    forall i | 0 <= i < |e|
      ensures NumberByte(e[i])
    {
      if i > 0 {
        assert e[i] == e[1..][i - 1];
        if i > 1 { assert e[i] == e[2..][i - 2]; }
      }
    }
  }

  /** The outcome with the offset after the text. */
  function At<T>(r: Outcome<T>, next: nat): Parsed<T> {
    match r
    case Means(v) => Ok(v, next)
    case Refused => Bad
    case Beyond => Outside
  }

  lemma {:induction false} NumeralRead(c: Bytes, o: nat, t: Tree, depth: nat)
    requires t.Numeral? && TreeOk(t) && StartsWith(c, o, TreeText(t))
    requires var e := o + |TreeText(t)|; e < |c| && !NumberByte(c[e])
    ensures o < |c| && (c[o] == MINUS || IsDigit(c[o]))
    ensures ParseNumber(c, o) == At(Meaning(t, depth), o + |TreeText(t)|)
  {
    hide DigitsValue, Positional, RunEnd, StartsWith, TreeOk, TreeText, Meaning;
    var text := TreeText(t);
    var e := o + |text|;
    NumeralBytes(t);
    forall i | o <= i < e
      ensures NumberByte(c[i])
    {
      ByteAt(c, o, text, i - o);
    }
    NumeralStart(t);
    ByteAt(c, o, text, 0);
    RunBack(c, o, e);
    assert c[o..e] == text by {
      forall i | 0 <= i < |text| ensures c[o..e][i] == text[i] { ByteAt(c, o, text, i); }
    }
    NumeralMeans(t, if t.minus then text[1..] else text, depth);
  }

  lemma NumeralStart(t: Tree)
    requires t.Numeral? && TreeOk(t)
    ensures |TreeText(t)| > 0 && (TreeText(t)[0] == MINUS || IsDigit(TreeText(t)[0]))
    ensures t.minus <==> TreeText(t)[0] == MINUS
  {
    NumeralBytes(t);
    hide IsFrac, IsExp;
  }

  /** What stands after the sign is all digits exactly when it has no fraction and no exponent. */
  lemma OnlyDigits(digits: Bytes, frac: Bytes, exp: Bytes)
    requires AllDigits(digits) && (frac != [] ==> frac[0] == 46) && (exp != [] ==> exp[0] == 101 || exp[0] == 69)
    ensures AllDigits(digits + frac + exp) <==> frac == [] && exp == []
  {
    var d := digits + frac + exp;
    if frac != [] { assert d[|digits|] == 46; }
    if exp != [] { assert d[|digits| + |frac|] == exp[0]; }
  }

  /** The digits that the parser sees. */
  lemma NumeralMeans(t: Tree, d: Bytes, depth: nat)
    requires t.Numeral? && TreeOk(t) && d == if t.minus && TreeText(t) != [] then TreeText(t)[1..] else TreeText(t)
    ensures Meaning(t, depth) ==
        if AllDigits(d) && 0 < |d| <= 15 then
          Means(Number(if t.minus then 0 - DigitsValue(d) else DigitsValue(d)))
        else Beyond
  {
    hide TreeOk, DigitsValue, Positional, AllDigits, Meaning;
    NumeralBytes(t);
    TextOfNumeral(t, d);
    OnlyDigits(t.digits, t.frac, t.exp);
    MeaningOfNumeral(t, depth);
    if t.frac == [] && t.exp == [] { PositionalIs(d); }
  }

  lemma TextOfNumeral(t: Tree, d: Bytes)
    requires t.Numeral? && d == if t.minus && TreeText(t) != [] then TreeText(t)[1..] else TreeText(t)
    ensures d == t.digits + t.frac + t.exp
    ensures t.frac == [] && t.exp == [] ==> d == t.digits
  {
    assert TreeText(t) == (if t.minus then [MINUS] else []) + (t.digits + t.frac + t.exp);
  }

  lemma MeaningOfNumeral(t: Tree, depth: nat)
    requires t.Numeral? && TreeOk(t) && AllDigits(t.digits)
    ensures Meaning(t, depth) ==
        if t.frac != [] || t.exp != [] || |t.digits| > 15 then Beyond
        else Means(Number(if t.minus then 0 - Positional(t.digits) else Positional(t.digits)))
  {
    hide Positional, IsInt, IsFrac, IsExp;
  }

  // ---- white space ----

  lemma WsSmall(c: Bytes, o: nat, w: Bytes)
    requires Ws(w) && StartsWith(c, o, w)
    ensures o + |w| <= |c| && forall i | o <= i < o + |w| :: c[i] <= 32
  {
    forall i | o <= i < o + |w|
      ensures i < |c| && c[i] <= 32
    {
      ByteAt(c, o, w, i - o);
    }
    Split(c, o, w, []);
    assert w + [] == w;
  }

  /** White space and then something else. */
  lemma SkipWs(c: Bytes, o: nat, w: Bytes, e: nat)
    requires Ws(w) && StartsWith(c, o, w) && e == o + |w| < |c| && c[e] > 32
    ensures Skip(c, o) == e
  {
    WsSmall(c, o, w);
    SkipTo(c, o, e);
  }

  lemma TreeStarts(t: Tree)
    requires TreeOk(t)
    ensures |TreeText(t)| > 0 && TreeText(t)[0] > 32
    ensures TreeText(t)[0] != CLOSE_BRACKET && TreeText(t)[0] != CLOSE_BRACE && TreeText(t)[0] != 0xEF
  {
    if t.Numeral? { NumeralStart(t); }
    hide IsInt, IsFrac, IsExp;
  }

  // ---- values ----

  /** Parsing the text of t at o gives what it denotes. */
  ghost predicate Reads(c: Bytes, o: nat, t: Tree, depth: nat)
    requires TreeOk(t)
  {
    o <= |c| && ParseValue(c, o, depth) == At(Meaning(t, depth), o + |TreeText(t)|)
  }

  lemma {:induction false} TreeRead(c: Bytes, o: nat, t: Tree, depth: nat)
    requires TreeOk(t) && StartsWith(c, o, TreeText(t))
    requires var e := o + |TreeText(t)|; e < |c| && !NumberByte(c[e])
    ensures Reads(c, o, t, depth)
    decreases t, 0
  {
    hide StartsWith, TreeOk, ParseNumber, ParseString, ParseArray, ParseObject, ItemsOk, MembersOk, ListBody,
         RecordBody, ListOutcome, RecordOutcome;
    match t
    case NullWord =>
    case FalseWord => WordRead(c, o, FALSE_TEXT);
    case TrueWord => WordRead(c, o, TRUE_TEXT);
    case Numeral(_, _, _, _) => NumeralValue(c, o, t, depth);
    case Quoted(_) => QuotedValue(c, o, t, depth);
    case List(blank, items) =>
      TreeParts(t, depth);
      ListRead(c, o, blank, items, depth);
      ListValue(c, o, t, depth);
    case Record(blank, members) =>
      TreeParts(t, depth);
      RecordRead(c, o, blank, members, depth);
      RecordValue(c, o, t, depth);
  }

  lemma WordRead(c: Bytes, o: nat, w: Bytes)
    requires w == TRUE_TEXT || w == FALSE_TEXT
    requires StartsWith(c, o, w)
    ensures !StartsWith(c, o, NULL_TEXT) && (w == TRUE_TEXT ==> !StartsWith(c, o, FALSE_TEXT))
  {
    hide StartsWith;
    ByteAt(c, o, w, 0);
    if StartsWith(c, o, NULL_TEXT) { ByteAt(c, o, NULL_TEXT, 0); }
    if w == TRUE_TEXT && StartsWith(c, o, FALSE_TEXT) { ByteAt(c, o, FALSE_TEXT, 0); }
  }

  lemma NumeralValue(c: Bytes, o: nat, t: Tree, depth: nat)
    requires t.Numeral? && TreeOk(t) && StartsWith(c, o, TreeText(t))
    requires var e := o + |TreeText(t)|; e < |c| && !NumberByte(c[e])
    ensures Reads(c, o, t, depth)
  {
    hide StartsWith, TreeOk, TreeText, Meaning, ParseNumber, ParseString, ParseArray, ParseObject;
    NumeralRead(c, o, t, depth);
    NumeralStart(t);
    ByteAt(c, o, TreeText(t), 0);
    LiteralsDiffer(c, o, TreeText(t));
  }

  lemma QuotedValue(c: Bytes, o: nat, t: Tree, depth: nat)
    requires t.Quoted? && TreeOk(t) && StartsWith(c, o, TreeText(t))
    ensures Reads(c, o, t, depth)
  {
    hide StartsWith, Decoded, Held, ParseNumber, ParseString, ParseArray, ParseObject, QuotedText, CharsOk;
    QuotedRead(c, o, t.chars);
    QuotedStarts(t.chars);
    LiteralsDiffer(c, o, QuotedText(t.chars));
  }

  lemma QuotedStarts(chars: seq<Char>)
    ensures |QuotedText(chars)| > 0 && QuotedText(chars)[0] == QUOTE
  {
  }

  lemma ListValue(c: Bytes, o: nat, t: Tree, depth: nat)
    requires t.List? && TreeOk(t) && StartsWith(c, o, TreeText(t))
    requires o < |c| && c[o] == OPEN_BRACKET
    requires ParseArray(c, o, depth) == At(Meaning(t, depth), o + |TreeText(t)|)
    ensures Reads(c, o, t, depth)
  {
    hide StartsWith, TreeOk, TreeText, Meaning, ParseNumber, ParseString, ParseArray, ParseObject;
    NotWord(c, o);
  }

  lemma RecordValue(c: Bytes, o: nat, t: Tree, depth: nat)
    requires t.Record? && TreeOk(t) && StartsWith(c, o, TreeText(t))
    requires o < |c| && c[o] == OPEN_BRACE
    requires ParseObject(c, o, depth) == At(Meaning(t, depth), o + |TreeText(t)|)
    ensures Reads(c, o, t, depth)
  {
    hide StartsWith, TreeOk, TreeText, Meaning, ParseNumber, ParseString, ParseArray, ParseObject;
    NotWord(c, o);
  }

  lemma NotWord(c: Bytes, o: nat)
    requires o < |c| && c[o] != 110 && c[o] != 102 && c[o] != 116
    ensures !StartsWith(c, o, NULL_TEXT) && !StartsWith(c, o, FALSE_TEXT) && !StartsWith(c, o, TRUE_TEXT)
  {
    hide StartsWith;
    if StartsWith(c, o, NULL_TEXT) { ByteAt(c, o, NULL_TEXT, 0); }
    if StartsWith(c, o, FALSE_TEXT) { ByteAt(c, o, FALSE_TEXT, 0); }
    if StartsWith(c, o, TRUE_TEXT) { ByteAt(c, o, TRUE_TEXT, 0); }
  }

  // ---- arrays ----

  function ListBody(blank: Bytes, items: seq<Item>): Bytes { if items == [] then blank else ListText(items) }

  function ListOutcome(items: seq<Item>, depth: nat): Outcome<Value>
    requires ItemsOk(items)
  {
    if depth >= NESTING_LIMIT then Refused
    else
      match ListMeaning(items, depth + 1)
      case Means(vs) => Means(Arr(vs))
      case Refused => Refused
      case Beyond => Beyond
  }

  lemma {:induction false} ListRead(c: Bytes, o: nat, blank: Bytes, items: seq<Item>, depth: nat)
    requires Ws(blank) && ItemsOk(items)
    requires StartsWith(c, o, [OPEN_BRACKET] + ListBody(blank, items) + [CLOSE_BRACKET])
    ensures o < |c| && c[o] == OPEN_BRACKET
    ensures ParseArray(c, o, depth) == At(ListOutcome(items, depth), o + |ListBody(blank, items)| + 2)
    decreases items, 1
  {
    hide StartsWith, ParseItems, ParseValue, Skip, ListText, ListMeaning, ItemsOk, Ws;
    var body := ListBody(blank, items);
    var e := o + 1 + |body|;
    Split(c, o, [OPEN_BRACKET] + body, [CLOSE_BRACKET]);
    Split(c, o, [OPEN_BRACKET], body);
    ByteAt(c, o, [OPEN_BRACKET], 0);
    ByteAt(c, e, [CLOSE_BRACKET], 0);
    if items == [] {
      SkipWs(c, o + 1, blank, e);
      EmptyList(depth + 1);
    } else if depth < NESTING_LIMIT {
      var q := o + 1 + |items[0].before|;
      ListStarts(c, o + 1, items);
      SkipTo(c, q, q);
      ItemsRead(c, q - 1, o + 1, items, depth + 1);
    }
  }

  lemma EmptyList(depth: nat)
    ensures ListMeaning([], depth) == Means([])
  {
  }

  /** Where the parts of an item stand. */
  lemma ItemSplit(c: Bytes, o: nat, i: Item)
    requires StartsWith(c, o, ItemText(i))
    ensures var q := o + |i.before|; var n := q + |TreeText(i.tree)|;
      StartsWith(c, o, i.before) && StartsWith(c, q, TreeText(i.tree)) && StartsWith(c, n, i.after)
    ensures |ItemText(i)| == |i.before| + |TreeText(i.tree)| + |i.after|
  {
    hide StartsWith, TreeText;
    Split(c, o, i.before + TreeText(i.tree), i.after);
    Split(c, o, i.before, TreeText(i.tree));
  }

  lemma ItemParts(i: Item)
    requires ItemOk(i)
    ensures Ws(i.before) && TreeOk(i.tree) && Ws(i.after)
  {
  }

  lemma ItemStarts(c: Bytes, o: nat, i: Item)
    requires ItemOk(i) && StartsWith(c, o, ItemText(i))
    ensures var q := o + |i.before|;
      q < |c| && Skip(c, o) == q && c[q] > 32 && c[q] != CLOSE_BRACKET && c[q] != CLOSE_BRACE
  {
    hide StartsWith, TreeText, TreeOk, Skip, ItemText, ItemOk, Ws;
    ItemParts(i);
    ItemSplit(c, o, i);
    TreeStarts(i.tree);
    ByteAt(c, o + |i.before|, TreeText(i.tree), 0);
    SkipWs(c, o, i.before, o + |i.before|);
  }

  /** The first element, and the rest after a comma. */
  lemma ListSplit(c: Bytes, o: nat, items: seq<Item>)
    requires items != [] && StartsWith(c, o, ListText(items))
    ensures var m := o + |ItemText(items[0])|;
      && StartsWith(c, o, ItemText(items[0]))
      && (|items| > 1 ==> m < |c| && c[m] == COMMA)
      && (|items| > 1 ==> StartsWith(c, m + 1, ListText(items[1..])))
      && (|items| > 1 ==> o + |ListText(items)| == m + 1 + |ListText(items[1..])|)
      && (|items| == 1 ==> o + |ListText(items)| == m)
  {
    hide StartsWith, ItemText;
    if |items| > 1 {
      var t, rest := ItemText(items[0]), ListText(items[1..]);
      Split(c, o, t + [COMMA], rest);
      Split(c, o, t, [COMMA]);
      ByteAt(c, o + |t|, [COMMA], 0);
    }
  }

  lemma ListStarts(c: Bytes, o: nat, items: seq<Item>)
    requires items != [] && ItemsOk(items) && StartsWith(c, o, ListText(items))
    ensures var q := o + |items[0].before|;
      q < |c| && Skip(c, o) == q && c[q] > 32 && c[q] != CLOSE_BRACKET && c[q] != CLOSE_BRACE
  {
    hide StartsWith, ItemText, ListText, ItemOk, Skip;
    ListSplit(c, o, items);
    ItemStarts(c, o, items[0]);
  }

  /** The item whose value starts at q reads as it should, and m is what follows it. */
  ghost predicate ItemReads(c: Bytes, q: nat, i: Item, m: nat, depth: nat) {
    && TreeOk(i.tree) && Reads(c, q, i.tree, depth) && q + |TreeText(i.tree)| <= m < |c|
    && Skip(c, q + |TreeText(i.tree)|) == m
  }

  lemma {:induction false} ItemRead(c: Bytes, o: nat, i: Item, m: nat, depth: nat)
    requires ItemOk(i) && StartsWith(c, o, ItemText(i))
    requires m == o + |ItemText(i)| < |c| && c[m] > 32 && !NumberByte(c[m])
    ensures ItemReads(c, o + |i.before|, i, m, depth)
    decreases i, 0
  {
    hide StartsWith, TreeText, TreeOk, Skip, ItemText, ItemOk, Ws, Reads;
    ItemParts(i);
    var q := o + |i.before|;
    var n := q + |TreeText(i.tree)|;
    ItemSplit(c, o, i);
    SkipWs(c, n, i.after, m);
    WsNoNumber(c, n, i.after);
    TreeRead(c, q, i.tree, depth);
  }

  lemma WsNoNumber(c: Bytes, n: nat, w: Bytes)
    requires Ws(w) && StartsWith(c, n, w)
    ensures w != [] ==> n < |c| && !NumberByte(c[n])
  {
    if w != [] { ByteAt(c, n, w, 0); }
  }

  /** The outcome of the first and of the rest. */
  function Both<T>(first: Parsed<T>, rest: Parsed<seq<T>>): Parsed<seq<T>> {
    match first
    case Bad => Bad
    case Outside => Outside
    case Ok(v, _) =>
      match rest
      case Ok(vs, n) => Ok([v] + vs, n)
      case Bad => Bad
      case Outside => Outside
  }

  lemma ParsesBoth(c: Bytes, p: nat, first: Parsed<Value>, m: nat, rest: Parsed<seq<Value>>, depth: nat)
    requires p < |c| && ParseValue(c, Skip(c, p + 1), depth) == first && m < |c|
    requires first.Ok? ==> first.next <= |c| && Skip(c, first.next) == m
    requires rest == if c[m] == COMMA then ParseItems(c, m, depth) else Ok([], m)
    ensures ParseItems(c, p, depth) == Both(first, rest)
  {
    hide Skip, ParseValue;
    if first.Ok? { assert [first.value] + [] == [first.value]; }
  }

  lemma MeansBoth(items: seq<Item>, next: nat, end: nat, depth: nat)
    requires items != [] && ItemsOk(items)
    ensures TreeOk(items[0].tree) && ItemsOk(items[1..])
    ensures At(ListMeaning(items, depth), end)
            == Both(At(Meaning(items[0].tree, depth), next), At(ListMeaning(items[1..], depth), end))
  {
    hide Meaning;
    assert ItemOk(items[0]);
  }

  /** One element, and what the rest gives. */
  lemma ItemsStep(c: Bytes, p: nat, items: seq<Item>, m: nat, end: nat, depth: nat)
    requires items != [] && ItemsOk(items) && ItemsOk(items[1..]) && p < |c|
    requires ItemReads(c, Skip(c, p + 1), items[0], m, depth)
    requires if |items| > 1 then c[m] == COMMA && ParseItems(c, m, depth) == At(ListMeaning(items[1..], depth), end)
      else c[m] != COMMA && end == m
    ensures ParseItems(c, p, depth) == At(ListMeaning(items, depth), end)
  {
    hide TreeOk, TreeText, Skip, ParseValue, Meaning, ItemOk, ListMeaning, ParseItems, ItemsOk;
    var n := Skip(c, p + 1) + |TreeText(items[0].tree)|;
    MeansBoth(items, n, end, depth);
    if |items| == 1 {
      assert items[1..] == [];
      EmptyList(depth);
    }
    ParsesBoth(c, p, At(Meaning(items[0].tree, depth), n), m, At(ListMeaning(items[1..], depth), end), depth);
  }

  lemma RestOk(items: seq<Item>)
    requires items != [] && ItemsOk(items)
    ensures ItemOk(items[0]) && ItemsOk(items[1..])
  {
    hide ItemOk;
  }

  lemma {:induction false} ItemsRead(c: Bytes, p: nat, o: nat, items: seq<Item>, depth: nat)
    requires items != [] && ItemsOk(items) && p < |c| && StartsWith(c, o, ListText(items))
    requires Skip(c, p + 1) == o + |items[0].before|
    requires var e := o + |ListText(items)|; e < |c| && c[e] == CLOSE_BRACKET
    ensures ParseItems(c, p, depth) == At(ListMeaning(items, depth), o + |ListText(items)|)
    decreases items, 0
  {
    hide StartsWith, TreeText, TreeOk, Skip, ItemText, ListText, ItemOk, ItemsOk, ItemReads, ParseItems, ListMeaning;
    var i := items[0];
    var m := o + |ItemText(i)|;
    ListSplit(c, o, items);
    RestOk(items);
    ItemRead(c, o, i, m, depth);
    if |items| > 1 {
      ListStarts(c, m + 1, items[1..]);
      ItemsRead(c, m, m + 1, items[1..], depth);
    }
    ItemsStep(c, p, items, m, o + |ListText(items)|, depth);
  }

  // ---- objects ----

  function RecordBody(blank: Bytes, members: seq<Member>): Bytes { if members == [] then blank
      else RecordText(members) }

  function RecordOutcome(members: seq<Member>, depth: nat): Outcome<Value>
    requires MembersOk(members)
  {
    if depth >= NESTING_LIMIT then Refused
    else
      match RecordMeaning(members, depth + 1)
      case Means(fs) => Means(Obj(fs))
      case Refused => Refused
      case Beyond => Beyond
  }

  lemma TreeParts(t: Tree, depth: nat)
    requires TreeOk(t)
    ensures t.List? ==> Ws(t.blank) && ItemsOk(t.items) && Meaning(t, depth) == ListOutcome(t.items, depth)
    ensures t.List? ==> TreeText(t) == [OPEN_BRACKET] + ListBody(t.blank, t.items) + [CLOSE_BRACKET]
    ensures t.Record? ==> Ws(t.blank) && MembersOk(t.members) && Meaning(t, depth) == RecordOutcome(t.members, depth)
    ensures t.Record? ==> TreeText(t) == [OPEN_BRACE] + RecordBody(t.blank, t.members) + [CLOSE_BRACE]
  {
  }

  lemma {:induction false} RecordRead(c: Bytes, o: nat, blank: Bytes, members: seq<Member>, depth: nat)
    requires Ws(blank) && MembersOk(members)
    requires StartsWith(c, o, [OPEN_BRACE] + RecordBody(blank, members) + [CLOSE_BRACE])
    ensures o < |c| && c[o] == OPEN_BRACE
    ensures ParseObject(c, o, depth) == At(RecordOutcome(members, depth), o + |RecordBody(blank, members)| + 2)
    decreases members, 1
  {
    hide StartsWith, ParseFields, ParseValue, Skip, RecordText, RecordMeaning, MembersOk, Ws;
    var body := RecordBody(blank, members);
    var e := o + 1 + |body|;
    Split(c, o, [OPEN_BRACE] + body, [CLOSE_BRACE]);
    Split(c, o, [OPEN_BRACE], body);
    ByteAt(c, o, [OPEN_BRACE], 0);
    ByteAt(c, e, [CLOSE_BRACE], 0);
    if members == [] {
      SkipWs(c, o + 1, blank, e);
      EmptyRecord(depth + 1);
    } else if depth < NESTING_LIMIT {
      var q := o + 1 + |members[0].before|;
      RecordStarts(c, o + 1, members);
      SkipTo(c, q, q);
      MembersRead(c, q - 1, o + 1, members, depth + 1);
    }
  }

  lemma EmptyRecord(depth: nat)
    ensures RecordMeaning([], depth) == Means([])
  {
  }

  lemma MemberParts(m: Member)
    requires MemberOk(m)
    ensures Ws(m.before) && CharsOk(m.name) && Ws(m.after) && ItemOk(m.item)
  {
  }

  /** Where the parts of a member stand. */
  lemma MemberSplit(c: Bytes, o: nat, m: Member)
    requires StartsWith(c, o, PairText(m))
    ensures var q := o + |m.before|; var n := q + |QuotedText(m.name)|; var k := n + |m.after|;
      && StartsWith(c, o, m.before) && StartsWith(c, q, QuotedText(m.name)) && StartsWith(c, n, m.after)
      && k < |c| && c[k] == COLON && StartsWith(c, k + 1, ItemText(m.item))
      && |PairText(m)| == |m.before| + |QuotedText(m.name)| + |m.after| + 1 + |ItemText(m.item)|
  {
    hide StartsWith, ItemText, QuotedText;
    var quoted, item := QuotedText(m.name), ItemText(m.item);
    Split(c, o, m.before + quoted + m.after + [COLON], item);
    Split(c, o, m.before + quoted + m.after, [COLON]);
    Split(c, o, m.before + quoted, m.after);
    Split(c, o, m.before, quoted);
    ByteAt(c, o + |m.before| + |quoted| + |m.after|, [COLON], 0);
  }

  lemma MemberStarts(c: Bytes, o: nat, m: Member)
    requires MemberOk(m) && StartsWith(c, o, PairText(m))
    ensures var q := o + |m.before|; q < |c| && Skip(c, o) == q && c[q] == QUOTE
  {
    hide StartsWith, PairText, QuotedText, MemberOk, ItemOk, CharsOk, Ws, Skip;
    MemberParts(m);
    MemberSplit(c, o, m);
    QuotedStarts(m.name);
    ByteAt(c, o + |m.before|, QuotedText(m.name), 0);
    SkipWs(c, o, m.before, o + |m.before|);
  }

  /** The first member, and the rest after a comma. */
  lemma RecordSplit(c: Bytes, o: nat, members: seq<Member>)
    requires members != [] && StartsWith(c, o, RecordText(members))
    ensures var m := o + |PairText(members[0])|;
      && StartsWith(c, o, PairText(members[0]))
      && (|members| > 1 ==> m < |c| && c[m] == COMMA)
      && (|members| > 1 ==> StartsWith(c, m + 1, RecordText(members[1..])))
      && (|members| > 1 ==> o + |RecordText(members)| == m + 1 + |RecordText(members[1..])|)
      && (|members| == 1 ==> o + |RecordText(members)| == m)
  {
    hide StartsWith, PairText;
    if |members| > 1 {
      var t, rest := PairText(members[0]), RecordText(members[1..]);
      Split(c, o, t + [COMMA], rest);
      Split(c, o, t, [COMMA]);
      ByteAt(c, o + |t|, [COMMA], 0);
    }
  }

  /** The quote of the first name, after its white space. */
  lemma RecordStarts(c: Bytes, o: nat, members: seq<Member>)
    requires members != [] && MembersOk(members) && StartsWith(c, o, RecordText(members))
    ensures var q := o + |members[0].before|;
      q < |c| && Skip(c, o) == q && c[q] == QUOTE
  {
    hide StartsWith, PairText, RecordText, MemberOk, Skip;
    RecordSplit(c, o, members);
    MemberStarts(c, o, members[0]);
  }

  /** Where the value of a member ends whose name starts at q. */
  function MemberEnd(m: Member, q: nat): nat {
    ValueAt(m, q) + |TreeText(m.item.tree)|
  }

  ghost predicate MemberReads(c: Bytes, p: nat, m: Member, end: nat, depth: nat) {
    && MemberOk(m) && p + 1 < |c| && end < |c|
    && var next := MemberEnd(m, Skip(c, p + 1));
      next <= end && Skip(c, next) == end && ParseField(c, p, depth) == At(MemberMeaning(m, depth), next)
  }

  /** The name, the colon and the white space stand at q. */
  ghost predicate NamedAt(c: Bytes, q: nat, m: Member) {
    && CharsOk(m.name) && q < |c|
    && var n := q + |QuotedText(m.name)|; var k := n + |m.after|;
      && ParseString(c, q) == StringOutcome(m.name, n) && n <= k < |c| && Skip(c, n) == k && c[k] == COLON
      && Skip(c, k + 1) == ValueAt(m, q)
  }

  /** Where the value stands when the name stands at q. */
  function ValueAt(m: Member, q: nat): nat { q + |QuotedText(m.name)| + |m.after| + 1 + |m.item.before| }

  lemma FieldParses(c: Bytes, p: nat, m: Member, end: nat, depth: nat)
    requires MemberOk(m) && p + 1 < |c| && NamedAt(c, Skip(c, p + 1), m)
    requires ItemReads(c, ValueAt(m, Skip(c, p + 1)), m.item, end, depth)
    ensures MemberReads(c, p, m, end, depth)
  {
    hide MemberOk, CharsOk, Skip, QuotedText, TreeText, TreeOk, ParseString, ParseValue, Meaning, Decoded, Held;
  }

  /** The name and the colon before the value. */
  lemma NameRead(c: Bytes, o: nat, m: Member)
    requires MemberOk(m) && StartsWith(c, o, PairText(m))
    ensures NamedAt(c, o + |m.before|, m)
  {
    hide StartsWith, PairText, QuotedText, TreeText, MemberOk, ItemOk, CharsOk, Ws, Skip, ItemText, StringOutcome;
    MemberParts(m);
    var q := o + |m.before|;
    var n := q + |QuotedText(m.name)|;
    var k := n + |m.after|;
    MemberSplit(c, o, m);
    QuotedRead(c, q, m.name);
    SkipWs(c, n, m.after, k);
    ItemStarts(c, k + 1, m.item);
  }

  lemma {:induction false} MemberRead(c: Bytes, p: nat, o: nat, m: Member, end: nat, depth: nat)
    requires MemberOk(m) && StartsWith(c, o, PairText(m)) && p + 1 < |c| && Skip(c, p + 1) == o + |m.before|
    requires end == o + |PairText(m)| < |c| && c[end] > 32 && !NumberByte(c[end])
    ensures MemberReads(c, p, m, end, depth)
    decreases m, 1
  {
    hide StartsWith, PairText, QuotedText, TreeText, MemberOk, ItemOk, CharsOk, Ws, Skip, ItemReads, MemberReads,
         ItemText, StringOutcome;
    MemberParts(m);
    MemberSplit(c, o, m);
    NameRead(c, o, m);
    ItemRead(c, o + |m.before| + |QuotedText(m.name)| + |m.after| + 1, m.item, end, depth);
    FieldParses(c, p, m, end, depth);
  }

  lemma ParsesFields(c: Bytes, p: nat, first: Parsed<Field>, m: nat, rest: Parsed<seq<Field>>, depth: nat)
    requires p + 1 < |c| && ParseField(c, p, depth) == first && m < |c|
    requires first.Ok? ==> first.next <= |c| && Skip(c, first.next) == m
    requires rest == if c[m] == COMMA then ParseFields(c, m, depth) else Ok([], m)
    ensures ParseFields(c, p, depth) == Both(first, rest)
  {
    hide Skip, ParseField;
    if first.Ok? { assert [first.value] + [] == [first.value]; }
  }

  lemma MeansFields(members: seq<Member>, next: nat, end: nat, depth: nat)
    requires members != [] && MembersOk(members) && MembersOk(members[1..]) && MemberOk(members[0])
    ensures At(RecordMeaning(members, depth), end)
            == Both(At(MemberMeaning(members[0], depth), next), At(RecordMeaning(members[1..], depth), end))
  {
    hide MemberMeaning, MemberOk;
  }

  lemma MembersStep(c: Bytes, p: nat, members: seq<Member>, m: nat, end: nat, depth: nat)
    requires members != [] && MembersOk(members) && MembersOk(members[1..])
    requires MemberReads(c, p, members[0], m, depth)
    requires if |members| > 1
        then c[m] == COMMA && ParseFields(c, m, depth) == At(RecordMeaning(members[1..], depth), end)
      else c[m] != COMMA && end == m
    ensures ParseFields(c, p, depth) == At(RecordMeaning(members, depth), end)
  {
    hide Skip, ParseField, MemberMeaning, MemberOk, RecordMeaning, ParseFields, MembersOk, MemberEnd;
    var next := MemberEnd(members[0], Skip(c, p + 1));
    MeansFields(members, next, end, depth);
    if |members| == 1 {
      assert members[1..] == [];
      EmptyRecord(depth);
    }
    ParsesFields(c, p, At(MemberMeaning(members[0], depth), next), m, At(RecordMeaning(members[1..], depth), end),
        depth);
  }

  lemma RestMembersOk(members: seq<Member>)
    requires members != [] && MembersOk(members)
    ensures MemberOk(members[0]) && MembersOk(members[1..])
  {
    hide MemberOk;
  }

  lemma {:induction false} MembersRead(c: Bytes, p: nat, o: nat, members: seq<Member>, depth: nat)
    requires members != [] && MembersOk(members) && p + 1 < |c| && StartsWith(c, o, RecordText(members))
    requires Skip(c, p + 1) == o + |members[0].before|
    requires var e := o + |RecordText(members)|; e < |c| && c[e] == CLOSE_BRACE
    ensures ParseFields(c, p, depth) == At(RecordMeaning(members, depth), o + |RecordText(members)|)
    decreases members, 0
  {
    hide StartsWith, PairText, RecordText, MemberOk, MembersOk, MemberReads, ParseFields, RecordMeaning, Skip;
    var m := o + |PairText(members[0])|;
    RecordSplit(c, o, members);
    RestMembersOk(members);
    MemberRead(c, p, o, members[0], m, depth);
    if |members| > 1 {
      RecordStarts(c, m + 1, members[1..]);
      MembersRead(c, m, m + 1, members[1..], depth);
    }
    MembersStep(c, p, members, m, o + |RecordText(members)|, depth);
  }
}
