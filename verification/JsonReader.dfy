/** The parse buffer and the parser that advances it (src/utils/cJSON.c:305-383, 665-951, 1089-1115,
    1147-1192, 1368-1420, 1497-1595, 1662-1777): it returns what the functions of JsonParse say, and the
    space it allocates for a string always suffices. */
module JsonReader {
  import opened Wrappers
  import opened JsonText
  import opened JsonParse

  // ---- how much space a string needs ----

  /** Bytes from i to `end`, an escape's first two counting as one. */
  function Units(c: Bytes, i: nat, end: nat): nat
    requires end < |c|
    decreases |c| - i
  {
    if i >= end then 0 else if c[i] == BACKSLASH then 1 + Units(c, i + 2, end) else 1 + Units(c, i + 1, end)
  }

  /** The escapes that the scan for the closing quote skips over. */
  function Skips(c: Bytes, i: nat): nat
    decreases |c| - i
  {
    if i >= |c| || c[i] == QUOTE then 0
    else if c[i] == BACKSLASH then 1 + Skips(c, i + 2)
    else Skips(c, i + 1)
  }

  lemma {:induction false} UnitsCount(c: Bytes, i: nat)
    requires FindEnd(c, i).Some?
    ensures Units(c, i, FindEnd(c, i).value) == FindEnd(c, i).value - i - Skips(c, i)
    decreases |c| - i
  {
    if c[i] == BACKSLASH { UnitsCount(c, i + 2); }
    else if c[i] != QUOTE { UnitsCount(c, i + 1); }
  }

  lemma {:induction false} UnitsShrink(c: Bytes, i: nat, end: nat)
    requires end < |c|
    ensures Units(c, i + 1, end) <= Units(c, i, end)
    decreases |c| - i
  {
    if i < end && c[i] == BACKSLASH && i + 1 < end && c[i + 1] == BACKSLASH { UnitsShrink(c, i + 2, end); }
  }

  lemma {:induction false} UnitsShrinkBy(c: Bytes, i: nat, k: nat, end: nat)
    requires end < |c|
    ensures Units(c, i + k, end) <= Units(c, i, end)
    decreases k
  {
    if k > 0 {
      UnitsShrink(c, i, end);
      UnitsShrinkBy(c, i + 1, k - 1, end);
    }
  }

  lemma {:induction false} HexUnits(c: Bytes, i: nat, end: nat)
    requires end < |c| && i + 4 <= end && ParseHex4(c, i) != 0
    ensures Units(c, i, end) == 4 + Units(c, i + 4, end)
  {
    assert forall j | i <= j < i + 4 :: HexValue(c[j]).Some? by {
      assert HexValue(c[i]).Some? && HexValue(c[i + 1]).Some? && HexValue(c[i + 2]).Some? && HexValue(c[i + 3]).Some?;
    }
    assert Units(c, i, end) == 1 + Units(c, i + 1, end) && Units(c, i + 1, end) == 1 + Units(c, i + 2, end);
    assert Units(c, i + 2, end) == 1 + Units(c, i + 3, end);
  }

  lemma LiteralShape(c: Bytes, i: nat, end: nat)
    requires end < |c| && i < end
    ensures var (n, u) := Utf16Literal(c, i, end);
      && (n == 0 || n == 6 || n == 12) && i + n <= end
      && (n == 6 ==> |u| <= 3 && (ParseHex4(c, i + 2) == 0 ==> |u| == 1))
      && (n == 12 ==> |u| == 4 && c[i + 6] == BACKSLASH && c[i + 7] == LOWER_U
                      && ParseHex4(c, i + 2) != 0 && ParseHex4(c, i + 8) != 0)
  {
    hide ParseHex4, HexValue, Low6;
  }

  /** A literal writes no more bytes than it takes units. */
  lemma {:induction false} LiteralFits(c: Bytes, i: nat, end: nat)
    requires end < |c| && i < end && c[i] == BACKSLASH && c[i + 1] == LOWER_U
    ensures var (n, u) := Utf16Literal(c, i, end); n > 0 ==> |u| + Units(c, i + n, end) <= Units(c, i, end)
  {
    LiteralShape(c, i, end);
    hide ParseHex4, HexValue, Utf16Literal;
    var n := Utf16Literal(c, i, end).0;
    if n == 12 {
      HexUnits(c, i + 2, end);
      HexUnits(c, i + 8, end);
    } else if n == 6 {
      if ParseHex4(c, i + 2) != 0 { HexUnits(c, i + 2, end); }
      UnitsShrinkBy(c, i + 2, 4, end);
    }
  }

  /** What is written for the text from i on fits the space counted for it, wherever i stands: even a
      malformed literal, which may end in the middle of an escape, never takes more. */
  lemma {:induction false} StringFits(c: Bytes, i: nat, end: nat)
    requires end < |c|
    ensures Unescape(c, i, end).Some? ==> |Unescape(c, i, end).value| <= Units(c, i, end)
    decreases |c| - i
  {
    hide Utf16Literal;
    if i < end && Unescape(c, i, end).Some? {
      if c[i] != BACKSLASH { StringFits(c, i + 1, end); }
      else if c[i + 1] == LOWER_U {
        LiteralFits(c, i, end);
        StringFits(c, i + Utf16Literal(c, i, end).0, end);
      } else { StringFits(c, i + 2, end); }
    }
  }

  // ---- results, put together ----

  /** The elements read so far before those still to come. */
  function Joined<T>(done: seq<T>, rest: Parsed<seq<T>>): Parsed<seq<T>> {
    match rest
    case Ok(more, n) => Ok(done + more, n)
    case Bad => Bad
    case Outside => Outside
  }

  lemma JoinedTwice<T>(done: seq<T>, x: T, rest: Parsed<seq<T>>)
    ensures Joined(done, Joined([x], rest)) == Joined(done + [x], rest)
  {
    if rest.Ok? { assert done + ([x] + rest.value) == done + [x] + rest.value; }
  }

  lemma JoinedNothing<T>(r: Parsed<seq<T>>)
    ensures Joined([], r) == r
  {
    if r.Ok? { assert [] + r.value == r.value; }
  }

  lemma PrependNothing(r: Option<Bytes>)
    ensures Prepend([], r) == r
  {
    if r.Some? { assert [] + r.value == r.value; }
  }

  lemma PrependTwice(a: Bytes, b: Bytes, r: Option<Bytes>)
    ensures Prepend(a, Prepend(b, r)) == Prepend(a + b, r)
  {
    if r.Some? { assert a + (b + r.value) == a + b + r.value; }
  }

  /** What parse_hex4 makes of h and the digits from the i-th on. */
  function HexFrom(c: Bytes, at: nat, i: nat, h: nat): nat
    requires at + 4 <= |c| && i <= 4
    decreases 4 - i
  {
    if i == 4 then h
    else
      match HexValue(c[at + i])
      case Some(d) => HexFrom(c, at, i + 1, if i < 3 then (h + d) * 16 else h + d)
      case None => 0
  }

  lemma HexAll(c: Bytes, at: nat)
    requires at + 4 <= |c|
    ensures HexFrom(c, at, 0, 0) == ParseHex4(c, at)
  {
    hide HexValue;
    assert forall h: nat :: HexFrom(c, at, 4, h) == h;
    assert forall h: nat :: HexFrom(c, at, 3, h) == if HexValue(c[at + 3]).Some? then h + HexValue(c[at + 3]).value
        else 0;
  }

  class ParseBuffer {
    const content: Bytes
    var offset: nat
    var depth: nat

    constructor (content: Bytes)
      ensures this.content == content && offset == 0 && depth == 0
    {
      this.content := content;
      offset := 0;
      depth := 0;
    }

    ghost predicate Valid()
      reads this
    {
      offset <= |content|
    }

    method SkipWhitespace()
      requires Valid()
      modifies this`offset
      ensures offset == Skip(content, old(offset))
    {
      if offset >= |content| { return; }
      while offset < |content| && content[offset] <= 32
        invariant offset <= |content| && SpaceEnd(content, offset) == SpaceEnd(content, old(offset))
      {
        offset := offset + 1;
      }
      if offset == |content| { offset := offset - 1; }
    }

    // ---- strings ----

    /** parse_hex4: each digit but the last is shifted up once it is added. */
    method Hex4(at: nat) returns (h: nat)
      requires at + 4 <= |content|
      ensures h == ParseHex4(content, at)
    {
      HexAll(content, at);
      hide ParseHex4, HexValue;
      h := 0;
      var i := 0;
      while i < 4
        invariant 0 <= i <= 4 && HexFrom(content, at, i, h) == HexFrom(content, at, 0, 0)
      {
        var digit := HexValue(content[at + i]);
        if digit.None? { return 0; }
        h := h + digit.value;
        if i < 3 { h := h * 16; }
        i := i + 1;
      }
    }

    /** The code point's bytes, the last one first. */
    method WriteUtf8(cp: nat, out: array<byte>, pos: nat) returns (length: nat)
      requires cp <= 0x10_FFFF && pos + |Utf8(cp)| <= out.Length
      modifies out
      ensures length == |Utf8(cp)| && out[..pos + length] == old(out[..pos]) + Utf8(cp)
    {
      length := if cp < 0x80 then 1 else if cp < 0x800 then 2 else if cp < 0x1_0000 then 3 else 4;
      var mark := if length == 1 then 0 else if length == 2 then 0xC0 else if length == 3 then 0xE0 else 0xF0;
      var rest := cp;
      var p := length - 1;
      while p > 0
        invariant 0 <= p < length
        invariant p == length - 1 ==> rest == cp
        invariant p == length - 2 ==> rest == cp / 64
        invariant p == length - 3 ==> rest == cp / 4096
        invariant p == length - 4 ==> rest == cp / 262144
        invariant out[..pos] == old(out[..pos])
        invariant forall k | p < k < length :: out[pos + k] == Utf8(cp)[k]
      {
        out[pos + p] := Low6(rest);
        rest := rest / 64;
        p := p - 1;
      }
      out[pos] := mark + rest;
      assert forall k | 0 <= k < length :: out[pos + k] == Utf8(cp)[k];
    }

    /** utf16_literal_to_utf8: how much of the input it takes, 0 when it fails. */
    method Literal(at: nat, end: nat, out: array<byte>, pos: nat) returns (taken: nat, next: nat)
      requires at < end < |content| && content[at] == BACKSLASH && content[at + 1] == LOWER_U
      requires pos + Units(content, at, end) <= out.Length
      modifies out
      ensures taken == Utf16Literal(content, at, end).0 && pos <= next <= out.Length
      ensures taken > 0 ==> out[..next] == old(out[..pos]) + Utf16Literal(content, at, end).1
    {
      hide ParseHex4, Utf8, Units;
      LiteralFits(content, at, end);
      next := pos;
      taken := 0;
      if end - at < 6 { return; }
      var first := Hex4(at + 2);
      if 0xDC00 <= first <= 0xDFFF { return; }
      var cp;
      if 0xD800 <= first <= 0xDBFF {
        if end - (at + 6) < 6 || content[at + 6] != BACKSLASH || content[at + 7] != LOWER_U { return; }
        var second := Hex4(at + 8);
        if second < 0xDC00 || second > 0xDFFF { return; }
        taken := 12;
        cp := 0x1_0000 + first % 0x400 * 0x400 + second % 0x400;
      } else {
        taken := 6;
        cp := first;
      }
      var length := WriteUtf8(cp, out, pos);
      next := pos + length;
      assert out[..next] == old(out[..pos]) + Utf8(cp);
    }

    /** The literal from `start` to the quote at `end`, escapes resolved, into `out`; `stop` is how far
        it got. */
    method CopyString(start: nat, end: nat, out: array<byte>) returns (ok: bool, length: nat, stop: nat)
      requires start <= end < |content| && Units(content, start, end) < out.Length
      modifies out
      ensures length < out.Length && (ok <==> Unescape(content, start, end).Some?)
      ensures ok ==> out[..length] == Unescape(content, start, end).value
      ensures !ok ==> stop <= end
    {
      stop := start;
      length := 0;
      PrependNothing(Unescape(content, start, end));
      assert out[..0] == [];
      while stop < end
        invariant length + Units(content, stop, end) <= Units(content, start, end)
        invariant Unescape(content, start, end) == Prepend(out[..length], Unescape(content, stop, end))
        decreases end - stop
      {
        ghost var before := out[..length];
        if content[stop] != BACKSLASH {
          out[length] := content[stop];
          length, stop := length + 1, stop + 1;
          Copied(out[..length], before, [content[stop - 1]], stop - 1, stop, start, end);
        } else if content[stop + 1] == LOWER_U {
          var taken, next := Literal(stop, end, out, length);
          LiteralFits(content, stop, end);
          if taken == 0 { return false, length, stop; }
          length, stop := next, stop + taken;
          Copied(out[..length], before, Utf16Literal(content, stop - taken, end).1, stop - taken, stop, start, end);
        } else {
          var b := Unescaped(content[stop + 1]);
          if b.None? { return false, length, stop; }
          out[length] := b.value;
          length, stop := length + 1, stop + 2;
          Copied(out[..length], before, [b.value], stop - 2, stop, start, end);
        }
      }
      ok := true;
    }

    /** One step of the copy. */
    lemma Copied(now: Bytes, before: Bytes, t: Bytes, i: nat, next: nat, start: nat, end: nat)
      requires end < |content| && now == before + t
      requires Unescape(content, start, end) == Prepend(before, Unescape(content, i, end))
      requires Unescape(content, i, end) == Prepend(t, Unescape(content, next, end))
      ensures Unescape(content, start, end) == Prepend(now, Unescape(content, next, end))
    {
      PrependTwice(before, t, Unescape(content, next, end));
    }

    /** parse_string, whose result is the C string in the allocated space. */
    method ReadString() returns (r: Parsed<Bytes>)
      requires offset < |content|
      modifies this`offset
      ensures Valid() && r == ParseString(content, old(offset)) && (r.Ok? ==> offset == r.next)
    {
      hide Units, Skips, Unescape, CString, Prepend;
      var start := offset + 1;
      if content[offset] != QUOTE { offset := start; return Bad; }
      var end, skipped := ScanString(start);
      if end.None? { offset := start; return Bad; }
      UnitsCount(content, start);
      var out := new byte[end.value - offset - skipped + 1];
      var ok, length, stop := CopyString(start, end.value, out);
      if !ok { offset := stop; return Bad; }
      out[length] := NUL;
      offset := end.value + 1;
      r := Ok(CString(out[..length]), offset);
    }

    /** The closing quote, and the escapes on the way to it. */
    method ScanString(start: nat) returns (end: Option<nat>, skipped: nat)
      requires start <= |content|
      ensures end == FindEnd(content, start) && (end.Some? ==> skipped == Skips(content, start))
    {
      var e := start;
      skipped := 0;
      while e < |content| && content[e] != QUOTE
        invariant e <= |content| && FindEnd(content, e) == FindEnd(content, start)
        invariant skipped + Skips(content, e) == Skips(content, start)
      {
        if content[e] == BACKSLASH {
          if e + 1 >= |content| { return None, skipped; }
          skipped := skipped + 1;
          e := e + 1;
        }
        e := e + 1;
      }
      end := if e >= |content| then None else Some(e);
    }

    // ---- numbers ----

    /** parse_number; the text is copied out for strtod. */
    method ReadNumber() returns (r: Parsed<Value>)
      requires offset < |content|
      modifies this`offset
      ensures Valid() && r == ParseNumber(content, old(offset)) && (r.Ok? ==> offset == r.next)
    {
      var i := 0;
      while offset + i < |content| && NumberByte(content[offset + i])
        invariant offset + i <= |content| && RunEnd(content, offset + i) == RunEnd(content, offset)
      {
        i := i + 1;
      }
      r := ParseNumber(content, offset);
      if r.Ok? { offset := offset + i; }
    }

    // ---- values ----

    /** parse_value. */
    method ReadValue() returns (r: Parsed<Value>)
      requires Valid()
      modifies this
      ensures Valid() && r == ParseValue(content, old(offset), old(depth))
      ensures r.Ok? ==> offset == r.next && depth == old(depth)
      decreases |content| - offset, 2
    {
      hide ParseString, ParseNumber, ParseArray, ParseObject;
      if StartsWith(content, offset, NULL_TEXT) {
        offset := offset + 4;
        return Ok(Null, offset);
      }
      if StartsWith(content, offset, FALSE_TEXT) {
        offset := offset + 5;
        return Ok(Bool(false), offset);
      }
      if StartsWith(content, offset, TRUE_TEXT) {
        offset := offset + 4;
        return Ok(Bool(true), offset);
      }
      if offset == |content| { return Bad; }
      if content[offset] == QUOTE {
        var s := ReadString();
        match s {
          case Ok(text, next) => return Ok(Str(text), next);
          case Bad => return Bad;
          case Outside => return Outside;
        }
      }
      if content[offset] == MINUS || IsDigit(content[offset]) { r := ReadNumber(); return; }
      if content[offset] == OPEN_BRACKET { r := ReadArray(); return; }
      if content[offset] == OPEN_BRACE { r := ReadObject(); return; }
      r := Bad;
    }

    /** parse_array. */
    method ReadArray() returns (r: Parsed<Value>)
      requires offset < |content| && content[offset] == OPEN_BRACKET
      modifies this
      ensures Valid() && r == ParseArray(content, old(offset), old(depth))
      ensures r.Ok? ==> offset == r.next && depth == old(depth)
      decreases |content| - offset, 1
    {
      hide ParseItems, ParseValue, Skip;
      if depth >= NESTING_LIMIT { return Bad; }
      depth := depth + 1;
      offset := offset + 1;
      SkipWhitespace();
      if offset < |content| && content[offset] == CLOSE_BRACKET {
        depth := depth - 1;
        offset := offset + 1;
        return Ok(Arr([]), offset);
      }
      if offset == |content| { offset := offset - 1; return Bad; }
      offset := offset - 1;
      var items := ReadItems();
      if !items.Ok? { return if items.Bad? then Bad else Outside; }
      if offset == |content| || content[offset] != CLOSE_BRACKET { return Bad; }
      depth := depth - 1;
      offset := offset + 1;
      r := Ok(Arr(items.value), offset);
    }

    /** The loop of parse_array, from the byte before the first element. */
    method ReadItems() returns (r: Parsed<seq<Value>>)
      requires offset < |content|
      modifies this
      ensures Valid() && r == ParseItems(content, old(offset), old(depth))
      ensures r.Ok? ==> offset == r.next && depth == old(depth)
      decreases |content| - offset, 0
    {
      hide ParseValue, Skip;
      var items: seq<Value> := [];
      var more := true;
      JoinedNothing(ParseItems(content, offset, depth));
      while more
        invariant Valid() && offset >= old(offset) && depth == old(depth) && (more ==> offset < |content|)
        invariant more ==>
          ParseItems(content, old(offset), old(depth)) == Joined(items, ParseItems(content, offset, depth))
        invariant !more ==> ParseItems(content, old(offset), old(depth)) == Ok(items, offset)
        decreases |content| - offset, more
      {
        ghost var start := offset;
        offset := offset + 1;
        SkipWhitespace();
        var v := ReadValue();
        if !v.Ok? { return if v.Bad? then Bad else Outside; }
        SkipWhitespace();
        more := offset < |content| && content[offset] == COMMA;
        if more { JoinedTwice(items, v.value, ParseItems(content, offset, depth)); }
        items := items + [v.value];
      }
      r := Ok(items, offset);
    }

    /** parse_object. */
    method ReadObject() returns (r: Parsed<Value>)
      requires offset < |content| && content[offset] == OPEN_BRACE
      modifies this
      ensures Valid() && r == ParseObject(content, old(offset), old(depth))
      ensures r.Ok? ==> offset == r.next && depth == old(depth)
      decreases |content| - offset, 1
    {
      hide ParseFields, Skip;
      if depth >= NESTING_LIMIT { return Bad; }
      depth := depth + 1;
      offset := offset + 1;
      SkipWhitespace();
      if offset < |content| && content[offset] == CLOSE_BRACE {
        depth := depth - 1;
        offset := offset + 1;
        return Ok(Obj([]), offset);
      }
      if offset == |content| { offset := offset - 1; return Bad; }
      offset := offset - 1;
      var fields := ReadFields();
      if !fields.Ok? { return if fields.Bad? then Bad else Outside; }
      if offset == |content| || content[offset] != CLOSE_BRACE { return Bad; }
      depth := depth - 1;
      offset := offset + 1;
      r := Ok(Obj(fields.value), offset);
    }

    /** The loop of parse_object, from the byte before the first name. */
    method ReadFields() returns (r: Parsed<seq<Field>>)
      requires offset < |content|
      modifies this
      ensures Valid() && r == ParseFields(content, old(offset), old(depth))
      ensures r.Ok? ==> offset == r.next && depth == old(depth)
      decreases |content| - offset, 0
    {
      hide ParseField, Skip;
      var fields: seq<Field> := [];
      var more := true;
      JoinedNothing(ParseFields(content, offset, depth));
      while more
        invariant Valid() && offset >= old(offset) && depth == old(depth) && (more ==> offset < |content|)
        invariant more ==>
          ParseFields(content, old(offset), old(depth)) == Joined(fields, ParseFields(content, offset, depth))
        invariant !more ==> ParseFields(content, old(offset), old(depth)) == Ok(fields, offset)
        decreases |content| - offset, more
      {
        if offset + 1 == |content| { return Bad; }
        var f := ReadField();
        if !f.Ok? { return if f.Bad? then Bad else Outside; }
        SkipWhitespace();
        more := offset < |content| && content[offset] == COMMA;
        if more { JoinedTwice(fields, f.value, ParseFields(content, offset, depth)); }
        fields := fields + [f.value];
      }
      r := Ok(fields, offset);
    }

    /** One name, colon and value. */
    method ReadField() returns (r: Parsed<Field>)
      requires offset + 1 < |content|
      modifies this
      ensures Valid() && r == ParseField(content, old(offset), old(depth))
      ensures r.Ok? ==> offset == r.next && depth == old(depth)
      decreases |content| - offset - 1, 3
    {
      hide ParseString, ParseValue, Skip;
      offset := offset + 1;
      SkipWhitespace();
      var name := ReadString();
      if !name.Ok? { return if name.Bad? then Bad else Outside; }
      SkipWhitespace();
      if offset == |content| || content[offset] != COLON { return Bad; }
      offset := offset + 1;
      SkipWhitespace();
      var v := ReadValue();
      if !v.Ok? { return if v.Bad? then Bad else Outside; }
      r := Ok(Field(name.value, v.value), offset);
    }
  }

  /** cJSON_ParseWithLengthOpts, and where it stopped. */
  method ParseWithLength(content: Bytes, requireNul: bool) returns (r: Parsed<Value>, end: nat)
    ensures |content| == 0 ==> r == Bad
    ensures |content| > 0 ==> r == JsonParse.ParseBuffer(content, requireNul)
    ensures r.Ok? ==> r.next <= |content| && end == if requireNul then Skip(content, r.next) else r.next
  {
    end := 0;
    if |content| == 0 { return Bad, end; }
    var buffer := new ParseBuffer(content);
    buffer.offset := SkipBom(content);
    buffer.SkipWhitespace();
    r := buffer.ReadValue();
    if r.Ok? && requireNul {
      buffer.SkipWhitespace();
      if buffer.offset >= |content| || content[buffer.offset] != NUL { return Bad, end; }
    }
    end := buffer.offset;
  }
}
