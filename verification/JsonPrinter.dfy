/** The print buffer and the printer that fills it (src/utils/cJSON.c:477-587, 596-663, 953-1078,
    1239-1311, 1422-1494, 1594-1660, 1779-1896). */
module JsonPrinter {
  import opened Wrappers
  import opened JsonText
  import opened JsonParse
  import opened JsonRoundTrip

  /** What the printer asks of a tree apart from its depth: C strings and 32-bit integers. */
  ghost predicate Wellformed(v: Value) {
    match v
    case Null => true
    case Bool(_) => true
    case Number(n) => INT_MIN <= n <= INT_MAX
    case Str(s) => NulFree(s)
    case Arr(items) => forall i | 0 <= i < |items| :: Wellformed(items[i])
    case Obj(fields) => forall i | 0 <= i < |fields| :: NulFree(fields[i].name) && Wellformed(fields[i].value)
  }

  ghost predicate AllPrintable(items: seq<Value>, depth: nat) {
    forall i | 0 <= i < |items| :: Printable(items[i], depth)
  }

  ghost predicate FieldsPrintable(fields: seq<Field>, depth: nat) {
    forall i | 0 <= i < |fields| :: Printable(fields[i].value, depth)
  }

  class PrintBuffer {
    var buffer: array<byte>
    var offset: nat
    var depth: nat
    const noalloc: bool
    const format: bool

    constructor (size: nat, noalloc: bool, format: bool)
      ensures fresh(buffer) && buffer.Length == size && offset == 0 && depth == 0
      ensures this.noalloc == noalloc && this.format == format
    {
      buffer := new byte[size];
      offset := 0;
      depth := 0;
      this.noalloc := noalloc;
      this.format := format;
    }

    /** The offset is inside the buffer, or there is no space yet; sizes are ints. */
    ghost predicate Sane()
      reads this, buffer
    {
      (offset < buffer.Length || (offset == 0 && buffer.Length == 0)) && buffer.Length <= INT_MAX
    }

    /** The most space there can be: what the caller gave, or INT_MAX bytes. */
    ghost function Room(): nat
      reads this
    {
      if noalloc then buffer.Length else INT_MAX
    }

    /** The only reasons to give up on printing t after `before`: the tree is nested too deep, or the
        text and two more bytes do not fit. */
    ghost predicate Refused(before: Bytes, t: Bytes, tooDeep: bool)
      reads this
    {
      tooDeep || |before| + |t| + 2 > Room()
    }

    /** t was printed after `before` and ends with a NUL, with one byte to spare; the offset is
        somewhere in t. */
    ghost predicate Pending(before: Bytes, t: Bytes)
      reads this, buffer
    {
      && |before| <= offset <= |before| + |t| && |before| + |t| + 2 <= buffer.Length
      && buffer[..|before| + |t|] == before + t && buffer[|before| + |t|] == NUL && NulFree(t)
    }

    /** Make room for `needed` bytes and one more after the offset. */
    method Ensure(needed: nat) returns (ok: bool)
      requires Sane()
      modifies this
      ensures offset == old(offset) && depth == old(depth) && offset <= buffer.Length
      ensures buffer == old(buffer) || (fresh(buffer) && !noalloc && buffer.Length > old(buffer.Length))
      ensures ok ==> offset + needed + 1 <= buffer.Length
      ensures buffer[..offset] == old(buffer[..offset])
      ensures !ok ==> buffer == old(buffer) && offset + needed + 1 > Room()
      ensures buffer.Length <= INT_MAX
    {
      if buffer.Length > 0 && offset >= buffer.Length { return false; }
      if needed > INT_MAX { return false; }
      var total := needed + offset + 1;
      if total <= buffer.Length { return true; }
      if noalloc { return false; }
      var newsize;
      if total > INT_MAX / 2 {
        if total <= INT_MAX { newsize := INT_MAX; } else { return false; }
      } else {
        newsize := total * 2;
      }
      var grown := new byte[newsize];
      var i := 0;
      while i < buffer.Length
        invariant 0 <= i <= buffer.Length && buffer == old(buffer) && offset == old(offset) && depth == old(depth)
        invariant grown[..i] == buffer[..i]
      {
        grown[i] := buffer[i];
        i := i + 1;
      }
      assert grown[..i][..offset] == grown[..offset] && buffer[..i][..offset] == buffer[..offset];
      buffer := grown;
      return true;
    }

    /** Stores t from `start` on. */
    method Write(start: nat, t: Bytes)
      requires start + |t| <= buffer.Length
      modifies buffer
      ensures buffer[..start + |t|] == old(buffer[..start]) + t
    {
      var i := 0;
      while i < |t|
        invariant 0 <= i <= |t|
        invariant buffer[..start + i] == old(buffer[..start]) + t[..i]
      {
        buffer[start + i] := t[i];
        i := i + 1;
      }
    }

    /** Reserve, store t within the reservation, and advance the offset. */
    method Emit(reserve: nat, t: Bytes, advance: nat) returns (ok: bool)
      requires Sane() && advance <= |t| <= reserve
      modifies this, buffer
      ensures offset <= buffer.Length <= INT_MAX && depth == old(depth)
      ensures buffer == old(buffer) || (fresh(buffer) && !noalloc)
      ensures !ok ==> offset == old(offset) && offset + reserve + 1 > Room()
      ensures ok ==> offset == old(offset) + advance && old(offset) + |t| < buffer.Length
      ensures ok ==> buffer[..old(offset) + |t|] == old(buffer[..offset]) + t
    {
      ok := Ensure(reserve);
      if !ok { return; }
      Write(offset, t);
      offset := offset + advance;
    }

    /** update_offset: the offset moves to the NUL. */
    method UpdateOffset(ghost before: Bytes, ghost t: Bytes)
      requires Pending(before, t)
      modifies this`offset
      ensures offset == |before| + |t| && offset < buffer.Length && buffer[..offset] == before + t
    {
      assert forall x | 0 <= x < |t| :: buffer[..|before| + |t|][|before| + x] == t[x];
      var n := 0;
      while buffer[offset + n] != NUL
        invariant offset + n <= |before| + |t|
        decreases |before| + |t| - n
      {
        n := n + 1;
      }
      offset := offset + n;
    }

    // ---- values without children ----

    /** The outcome of printing t after `before`: pending there, or the printer gave up. */
    ghost predicate Printed(ok: bool, before: Bytes, level: nat, t: Bytes, tooDeep: bool)
      reads this, buffer
    {
      && offset <= buffer.Length <= INT_MAX
      && (ok ==> depth == level && Pending(before, t) && !tooDeep)
      && (!ok ==> Refused(before, t, tooDeep))
    }

    /** strcpy of t and its NUL. */
    method PrintLiteral(t: Bytes) returns (ok: bool)
      requires Sane() && NulFree(t)
      modifies this, buffer
      ensures Printed(ok, old(buffer[..offset]), old(depth), t, false)
          && (buffer == old(buffer) || (fresh(buffer) && !noalloc))
    {
      ghost var before := buffer[..offset];
      ok := Emit(|t| + 1, t + [NUL], 0);
      if ok { Ends(buffer[..], before, t); }
    }

    /** print_number, for integers. */
    method PrintNumber(n: int) returns (ok: bool)
      requires Sane() && INT_MIN <= n <= INT_MAX
      modifies this, buffer
      ensures Printed(ok, old(buffer[..offset]), old(depth), NumberText(n), false)
          && (buffer == old(buffer) || (fresh(buffer) && !noalloc))
    {
      ghost var before := buffer[..offset];
      var t := NumberText(n);
      NumberTextFits(n);
      ok := Emit(|t| + 1, t + [NUL], |t|);
      if ok { Ends(buffer[..], before, t); }
    }

    /** The number of characters that escaping adds. */
    method CountEscapes(s: Bytes) returns (escapes: nat)
      ensures |Escapes(s)| == |s| + escapes
    {
      escapes := 0;
      var i := 0;
      while i < |s|
        invariant 0 <= i <= |s| && |Escapes(s[..i])| == i + escapes
      {
        EscapesSnoc(s, i);
        var b := s[i];
        if b == QUOTE || b == BACKSLASH || b == 8 || b == 12 || b == 10 || b == 13 || b == 9 {
          escapes := escapes + 1;
        } else if b < 32 {
          escapes := escapes + 5;
        }
        i := i + 1;
      }
      assert s[..i] == s;
    }

    /** print_string_ptr. */
    method PrintString(s: Bytes) returns (ok: bool)
      requires Sane() && NulFree(s)
      modifies this, buffer
      ensures Printed(ok, old(buffer[..offset]), old(depth), StringText(s), false)
          && (buffer == old(buffer) || (fresh(buffer) && !noalloc))
    {
      ghost var before := buffer[..offset];
      var escapes := CountEscapes(s);
      ok := Ensure(|s| + escapes + 3);
      if !ok { return; }
      StringTextNulFree(s);
      hide Escapes;
      WriteString(s, escapes);
      Ends(buffer[..], before, StringText(s));
    }

    /** Quote, text, quote and NUL; text without escapes is copied at once. */
    method WriteString(s: Bytes, escapes: nat)
      requires |Escapes(s)| == |s| + escapes && offset + |s| + escapes + 3 < buffer.Length && NulFree(s)
      modifies buffer
      ensures buffer[..offset + |StringText(s)| + 1] == old(buffer[..offset]) + (StringText(s) + [NUL])
    {
      hide Escapes;
      ghost var before := buffer[..offset];
      var length := |s| + escapes;
      Write(offset, [QUOTE]);
      ghost var quoted := buffer[..offset + 1];
      if escapes == 0 {
        NothingEscaped(s);
        Write(offset + 1, s);
      } else {
        WriteEscaped(s, length);
      }
      assert buffer[..offset + 1 + length] == quoted + Escapes(s);
      Write(offset + 1 + length, [QUOTE, NUL]);
      Around(before, Escapes(s));
    }

    /** The copying loop of print_string_ptr. */
    method WriteEscaped(s: Bytes, length: nat)
      requires length == |Escapes(s)| && offset + length + 3 < buffer.Length
      modifies buffer
      ensures buffer[..offset + 1 + length] == old(buffer[..offset + 1]) + Escapes(s)
    {
      hide Escapes, Escape;
      var p, i := offset + 1, 0;
      ghost var before := buffer[..p];
      EscapesNone(s);
      while i < |s|
        invariant 0 <= i <= |s| && p == offset + 1 + |Escapes(s[..i])|
        invariant p <= offset + 1 + length
        invariant buffer[..p] == before + Escapes(s[..i])
      {
        EscapesSnoc(s, i);
        EscapesPrefix(s, i + 1);
        ghost var so := buffer[..p];
        p := WriteEscape(p, s[i]);
        assert so + Escape(s[i]) == before + Escapes(s[..i + 1]);
        i := i + 1;
      }
      assert s[..i] == s;
    }

    /** One character, escaped if need be; sprintf leaves a NUL after a \\u escape. */
    method WriteEscape(p: nat, b: byte) returns (q: nat)
      requires p + |Escape(b)| + 1 <= buffer.Length
      modifies buffer
      ensures q == p + |Escape(b)| && buffer[..q] == old(buffer[..p]) + Escape(b)
    {
      var e := Escape(b);
      Write(p, if |e| == 6 then e + [NUL] else e);
      q := p + |e|;
      ghost var w := buffer[..];
      if |e| == 6 { assert w[..q] == w[..q + 1][..q]; }
    }

    // ---- trees ----

    /** Text t went out after `before` for good. */
    ghost predicate Went(ok: bool, before: Bytes, level: nat, t: Bytes, tooDeep: bool)
      reads this, buffer
    {
      && offset <= buffer.Length <= INT_MAX
      && (ok ==> depth == level && offset < buffer.Length && buffer[..offset] == before + t && !tooDeep)
      && (!ok ==> Refused(before, t, tooDeep))
    }

    /** Text of which only the first `advance` bytes count: a closing NUL is not kept. */
    method Append(reserve: nat, t: Bytes, extra: Bytes) returns (ok: bool)
      requires Sane() && |t| + |extra| <= reserve <= |t| + 1
      modifies this, buffer
      ensures Went(ok, old(buffer[..offset]), old(depth), t, false)
          && (buffer == old(buffer) || (fresh(buffer) && !noalloc))
    {
      ghost var before := buffer[..offset];
      ok := Emit(reserve, t + extra, |t|);
      if ok { assert buffer[..offset] == buffer[..|before| + |t + extra|][..offset]; }
    }

    /** print_value. */
    method PrintValue(v: Value) returns (ok: bool)
      requires Sane() && Wellformed(v)
      modifies this, buffer
      ensures Printed(ok, old(buffer[..offset]), old(depth), Text(v, format, old(depth)), !Printable(v, old(depth)))
          && (buffer == old(buffer) || (fresh(buffer) && !noalloc))
      decreases v, 1
    {
      match v {
        case Null => ok := PrintLiteral(NULL_TEXT);
        case Bool(b) => ok := PrintLiteral(if b then TRUE_TEXT else FALSE_TEXT);
        case Number(n) => ok := PrintNumber(n);
        case Str(s) => ok := PrintString(s);
        case Arr(items) => ok := PrintArray(items);
        case Obj(fields) => ok := PrintObject(fields);
      }
    }

    /** A value, and update_offset. */
    method PutValue(v: Value) returns (ok: bool)
      requires Sane() && Wellformed(v)
      modifies this, buffer
      ensures Went(ok, old(buffer[..offset]), old(depth), Text(v, format, old(depth)), !Printable(v, old(depth)))
          && (buffer == old(buffer) || (fresh(buffer) && !noalloc))
      decreases v, 2
    {
      ghost var before, level := buffer[..offset], depth;
      ok := PrintValue(v);
      if ok { UpdateOffset(before, Text(v, format, level)); }
    }

    /** One round of print_array's loop. */
    method PutItem(v: Value, more: bool) returns (ok: bool)
      requires Sane() && Wellformed(v)
      modifies this, buffer
      ensures Went(ok, old(buffer[..offset]), old(depth), Text(v, format, old(depth)) + AfterItem(more, format),
          !Printable(v, old(depth)))
      ensures buffer == old(buffer) || (fresh(buffer) && !noalloc)
      decreases v, 3
    {
      hide Text, Printable;
      ok := PutValue(v);
      if !ok { return; }
      if more {
        var length := if format then 2 else 1;
        ok := Append(length + 1, AfterItem(more, format), [NUL]);
      }
    }

    method PutItems(items: seq<Value>) returns (ok: bool)
      requires Sane() && offset < buffer.Length && forall i | 0 <= i < |items| :: Wellformed(items[i])
      modifies this, buffer
      ensures Went(ok, old(buffer[..offset]), old(depth), ItemsText(items, format, old(depth)),
          !AllPrintable(items, old(depth)))
      ensures buffer == old(buffer) || (fresh(buffer) && !noalloc)
      decreases items, 4
    {
      hide Text, FieldText, Printable, AfterItem, AfterField;
      ghost var before, done: Bytes := buffer[..offset], [];
      var i := 0;
      assert items[0..] == items;
      while i < |items|
        invariant 0 <= i <= |items| && offset < buffer.Length <= INT_MAX && depth == old(depth)
        invariant buffer == old(buffer) || (fresh(buffer) && !noalloc)
        invariant buffer[..offset] == before + done
        invariant done + ItemsText(items[i..], format, depth) == ItemsText(items, format, depth)
        invariant forall k | 0 <= k < i :: Printable(items[k], depth)
      {
        ghost var t := Text(items[i], format, depth) + AfterItem(i + 1 < |items|, format);
        ItemsTextHead(items, i, format, depth);
        Grow(before, done, t, ItemsText(items[i + 1..], format, depth));
        ok := PutItem(items[i], i + 1 < |items|);
        if !ok { return; }
        done := done + t;
        i := i + 1;
      }
      return true;
    }

    method PrintArray(items: seq<Value>) returns (ok: bool)
      requires Sane() && Wellformed(Arr(items))
      modifies this, buffer
      ensures Printed(ok, old(buffer[..offset]), old(depth), Text(Arr(items), format, old(depth)),
          !Printable(Arr(items), old(depth)))
      ensures buffer == old(buffer) || (fresh(buffer) && !noalloc)
      decreases items, 6
    {
      ghost var before := buffer[..offset];
      ArrayFacts(items, format, depth);
      hide Text, ItemsText, Printable, AllPrintable, Wellformed, Pending;
      if depth >= NESTING_LIMIT { return false; }
      ok := OpenArray(items);
      if !ok { return; }
      ok := Close([CLOSE_BRACKET], 2, before, [OPEN_BRACKET] + ItemsText(items, format, depth));
    }

    method OpenArray(items: seq<Value>) returns (ok: bool)
      requires Sane() && forall i | 0 <= i < |items| :: Wellformed(items[i])
      modifies this, buffer
      ensures offset <= buffer.Length <= INT_MAX && (buffer == old(buffer) || (fresh(buffer) && !noalloc))
      ensures ok ==> offset < buffer.Length && depth == old(depth) + 1 && AllPrintable(items, depth)
      ensures ok ==> buffer[..offset] == old(buffer[..offset]) + ([OPEN_BRACKET] + ItemsText(items, format, depth))
      ensures !ok ==>
        Refused(old(buffer[..offset]), [OPEN_BRACKET] + ItemsText(items, format, old(depth) + 1),
            !AllPrintable(items, old(depth) + 1))
      decreases items, 5
    {
      ghost var before := buffer[..offset];
      hide ItemsText, AllPrintable;
      ok := Append(1, [OPEN_BRACKET], []);
      if !ok { return; }
      depth := depth + 1;
      ok := PutItems(items);
      Grow(before, [OPEN_BRACKET], ItemsText(items, format, depth), []);
    }

    method PutName(name: Bytes) returns (ok: bool)
      requires Sane() && NulFree(name)
      modifies this, buffer
      ensures Went(ok, old(buffer[..offset]), old(depth), StringText(name), false)
          && (buffer == old(buffer) || (fresh(buffer) && !noalloc))
    {
      ghost var before := buffer[..offset];
      ok := PrintString(name);
      if ok { UpdateOffset(before, StringText(name)); }
    }

    /** Tabs, name and colon of a field. */
    method PutKey(name: Bytes) returns (ok: bool)
      requires Sane() && NulFree(name)
      modifies this, buffer
      ensures Went(ok, old(buffer[..offset]), old(depth),
        (if format then Tabs(old(depth)) else []) + StringText(name) + (if format then [COLON, TAB] else [COLON]),
            false)
      ensures buffer == old(buffer) || (fresh(buffer) && !noalloc)
    {
      hide StringText;
      if format {
        ok := Append(depth, Tabs(depth), []);
        if !ok { return; }
      }
      ok := PutName(name);
      if !ok { return; }
      var length := if format then 2 else 1;
      ok := Append(length, if format then [COLON, TAB] else [COLON], []);
    }

    /** One round of print_object's loop. */
    method PutField(f: Field, more: bool) returns (ok: bool)
      requires Sane() && NulFree(f.name) && Wellformed(f.value)
      modifies this, buffer
      ensures Went(ok, old(buffer[..offset]), old(depth), FieldText(f, format, old(depth)) + AfterField(more, format),
          !Printable(f.value, old(depth)))
      ensures buffer == old(buffer) || (fresh(buffer) && !noalloc)
      decreases f, 3
    {
      hide Text, Printable, StringText, Tabs;
      ok := PutKey(f.name);
      if !ok { return; }
      ok := PutValue(f.value);
      if !ok { return; }
      var length := (if format then 1 else 0) + if more then 1 else 0;
      ok := Append(length + 1, AfterField(more, format), [NUL]);
    }

    method PutFields(fields: seq<Field>) returns (ok: bool)
      requires Sane() && offset < buffer.Length && forall i | 0 <= i < |fields| ::
          NulFree(fields[i].name) && Wellformed(fields[i].value)
      modifies this, buffer
      ensures Went(ok, old(buffer[..offset]), old(depth), FieldsText(fields, format, old(depth)),
          !FieldsPrintable(fields, old(depth)))
      ensures buffer == old(buffer) || (fresh(buffer) && !noalloc)
      decreases fields, 4
    {
      hide Text, FieldText, Printable, AfterItem, AfterField;
      ghost var before, done: Bytes := buffer[..offset], [];
      var i := 0;
      assert fields[0..] == fields;
      while i < |fields|
        invariant 0 <= i <= |fields| && offset < buffer.Length <= INT_MAX && depth == old(depth)
        invariant buffer == old(buffer) || (fresh(buffer) && !noalloc)
        invariant buffer[..offset] == before + done
        invariant done + FieldsText(fields[i..], format, depth) == FieldsText(fields, format, depth)
        invariant forall k | 0 <= k < i :: Printable(fields[k].value, depth)
      {
        ghost var t := FieldText(fields[i], format, depth) + AfterField(i + 1 < |fields|, format);
        FieldsTextHead(fields, i, format, depth);
        Grow(before, done, t, FieldsText(fields[i + 1..], format, depth));
        ok := PutField(fields[i], i + 1 < |fields|);
        if !ok { return; }
        done := done + t;
        i := i + 1;
      }
      return true;
    }

    /** The outcome may be reported with another verdict on depth that fits it. */
    lemma Reported(ok: bool, before: Bytes, level: nat, t: Bytes, a: bool, b: bool)
      requires Printed(ok, before, level, t, a) && (ok ==> !b) && (a ==> b)
      ensures Printed(ok, before, level, t, b)
    {
    }

    lemma GivenUp(before: Bytes, level: nat, t: Bytes)
      requires offset <= buffer.Length <= INT_MAX
      ensures Printed(false, before, level, t, true)
    {
    }

    method PrintObject(fields: seq<Field>) returns (ok: bool)
      requires Sane() && Wellformed(Obj(fields))
      modifies this, buffer
      ensures Printed(ok, old(buffer[..offset]), old(depth), Text(Obj(fields), format, old(depth)),
          !Printable(Obj(fields), old(depth)))
      ensures buffer == old(buffer) || (fresh(buffer) && !noalloc)
      decreases fields, 6
    {
      ghost var before, level, t := buffer[..offset], depth, Text(Obj(fields), format, depth);
      Nesting(fields, depth);
      hide Text, FieldsText, Tabs, Printable, FieldsPrintable, Wellformed, Pending, Printed;
      if depth >= NESTING_LIMIT {
        GivenUp(before, level, t);
        return false;
      }
      var open := [OPEN_BRACE] + if format then [NEWLINE] else [];
      ok := OpenObject(fields, open);
      if !ok {
        Unopened(before, level, t, !Printable(Obj(fields), level));
        return;
      }
      ok := CloseObject(fields, before, open);
      Reported(ok, before, level, t, false, !Printable(Obj(fields), level));
    }

    lemma Unopened(before: Bytes, level: nat, t: Bytes, tooDeep: bool)
      requires offset <= buffer.Length <= INT_MAX && Refused(before, t, tooDeep)
      ensures Printed(false, before, level, t, tooDeep)
    {
    }

    method OpenObject(fields: seq<Field>, open: Bytes) returns (ok: bool)
      requires Sane() && Wellformed(Obj(fields)) && open == [OPEN_BRACE] + if format then [NEWLINE] else []
      modifies this, buffer
      ensures offset <= buffer.Length <= INT_MAX && (buffer == old(buffer) || (fresh(buffer) && !noalloc))
      ensures ok ==> offset < buffer.Length && depth == old(depth) + 1 && FieldsPrintable(fields, depth)
      ensures ok ==> buffer[..offset] == old(buffer[..offset]) + (open + FieldsText(fields, format, depth))
      ensures !ok ==> Refused(old(buffer[..offset]), Text(Obj(fields), format, old(depth)),
          !FieldsPrintable(fields, old(depth) + 1))
      decreases fields, 5
    {
      ghost var before := buffer[..offset];
      ObjectText(fields, format, depth);
      hide Text, FieldsText, Tabs, Printable, FieldsPrintable;
      var length := if format then 2 else 1;
      ok := Append(length + 1, open, []);
      if !ok { return; }
      depth := depth + 1;
      ok := PutFields(fields);
      Grow(before, open, FieldsText(fields, format, depth), []);
    }

    method CloseObject(ghost fields: seq<Field>, ghost before: Bytes, ghost open: Bytes) returns (ok: bool)
      requires offset < buffer.Length <= INT_MAX && depth > 0 && Wellformed(Obj(fields))
      requires open == [OPEN_BRACE] + if format then [NEWLINE] else []
      requires buffer[..offset] == before + (open + FieldsText(fields, format, depth))
      modifies this, buffer
      ensures Printed(ok, before, old(depth) - 1, Text(Obj(fields), format, old(depth) - 1), false)
          && (buffer == old(buffer) || (fresh(buffer) && !noalloc))
    {
      ghost var level := depth - 1;
      ghost var body := FieldsText(fields, format, depth);
      var tabs := if format then Tabs(depth - 1) else [];
      WellformedText(Obj(fields), format, level);
      assert Text(Obj(fields), format, level) == open + body + (tabs + [CLOSE_BRACE]);
      hide Text, FieldsText, Tabs, Wellformed;
      ok := Close(tabs + [CLOSE_BRACE], if format then depth + 1 else 2, before, open + body);
    }

    /** The closing bracket: its NUL ends the text, and the offset stays in front of it. */
    method Close(t: Bytes, reserve: nat, ghost before: Bytes, ghost body: Bytes) returns (ok: bool)
      requires Sane() && buffer[..offset] == before + body && reserve == |t| + 1 && depth > 0
      modifies this, buffer
      ensures offset <= buffer.Length <= INT_MAX && (buffer == old(buffer) || (fresh(buffer) && !noalloc))
      ensures ok ==> depth == old(depth) - 1 && (NulFree(body + t) ==> Pending(before, body + t))
      ensures !ok ==> Refused(before, body + t, false)
    {
      ok := Emit(reserve, t + [NUL], 0);
      if !ok { return; }
      depth := depth - 1;
      assert before + body + (t + [NUL]) == before + (body + t + [NUL]);
      Ends(buffer[..], before, body + t);
    }
  }

  lemma EscapesNone(s: Bytes)
    ensures Escapes(s[..0]) == []
  {
  }

  lemma Around(before: Bytes, body: Bytes)
    ensures before + [QUOTE] + body + [QUOTE, NUL] == before + ([QUOTE] + body + [QUOTE] + [NUL])
  {
  }

  lemma {:induction false} Ends(a: Bytes, before: Bytes, t: Bytes)
    requires |before| + |t| < |a| && a[..|before| + |t| + 1] == before + (t + [NUL])
    ensures a[..|before| + |t|] == before + t && a[|before| + |t|] == NUL
  {
    assert a[..|before| + |t|] == a[..|before| + |t| + 1][..|before| + |t|];
    assert a[|before| + |t|] == a[..|before| + |t| + 1][|before| + |t|];
  }

  lemma {:induction false} EscapesSnoc(s: Bytes, i: nat)
    requires i < |s|
    ensures Escapes(s[..i + 1]) == Escapes(s[..i]) + Escape(s[i])
    decreases i
  {
    if i > 0 {
      EscapesSnoc(s[1..], i - 1);
      assert s[1..][..i] == s[..i + 1][1..] && s[1..][..i - 1] == s[..i][1..];
    } else {
      assert s[..1][1..] == [];
    }
  }

  lemma {:induction false} EscapesPrefix(s: Bytes, i: nat)
    requires i <= |s|
    ensures |Escapes(s[..i])| <= |Escapes(s)|
    decreases |s| - i
  {
    if i == |s| {
      assert s[..i] == s;
    } else {
      EscapesSnoc(s, i);
      EscapesPrefix(s, i + 1);
    }
  }

  lemma {:induction false} EscapesNulFree(s: Bytes)
    requires NulFree(s)
    ensures NulFree(Escapes(s)) && |Escapes(s)| >= |s| && (|Escapes(s)| == |s| ==> Escapes(s) == s)
  {
    if s != [] {
      EscapesNulFree(s[1..]);
      assert s == [s[0]] + s[1..];
    }
  }

  lemma {:induction false} NothingEscaped(s: Bytes)
    requires NulFree(s) && |Escapes(s)| == |s|
    ensures Escapes(s) == s
  {
    EscapesNulFree(s);
  }

  lemma {:induction false} StringTextNulFree(s: Bytes)
    requires NulFree(s)
    ensures NulFree(StringText(s)) && |StringText(s)| == |Escapes(s)| + 2
  {
    EscapesNulFree(s);
  }

  /** At most 25 characters, and no NUL. */
  lemma {:induction false} NumberTextFits(n: int)
    requires INT_MIN <= n <= INT_MAX
    ensures NulFree(NumberText(n)) && |NumberText(n)| <= 25
  {
    var m := if n < 0 then -n else n;
    DigitsBack(m);
    TenDigits(m);
  }

  lemma {:induction false} ItemsTextHead(items: seq<Value>, i: nat, format: bool, depth: nat)
    requires i < |items|
    ensures ItemsText(items[i..], format, depth) ==
      Text(items[i], format, depth) + AfterItem(i + 1 < |items|, format) + ItemsText(items[i + 1..], format, depth)
  {
    assert items[i..][1..] == items[i + 1..];
  }

  lemma {:induction false} FieldsTextHead(fields: seq<Field>, i: nat, format: bool, depth: nat)
    requires i < |fields|
    ensures FieldsText(fields[i..], format, depth) ==
      FieldText(fields[i], format, depth) + AfterField(i + 1 < |fields|, format) +
          FieldsText(fields[i + 1..], format, depth)
  {
    assert fields[i..][1..] == fields[i + 1..];
  }

  lemma ObjectText(fields: seq<Field>, format: bool, depth: nat)
    ensures Text(Obj(fields), format, depth) == ([OPEN_BRACE] + if format then [NEWLINE] else [])
      + FieldsText(fields, format, depth + 1) + ((if format then Tabs(depth) else []) + [CLOSE_BRACE])
  {
  }

  lemma ArrayFacts(items: seq<Value>, format: bool, depth: nat)
    requires Wellformed(Arr(items))
    ensures Text(Arr(items), format, depth) == [OPEN_BRACKET] + ItemsText(items, format, depth + 1) + [CLOSE_BRACKET]
    ensures Printable(Arr(items), depth) <==> depth < NESTING_LIMIT && AllPrintable(items, depth + 1)
    ensures NulFree(Text(Arr(items), format, depth)) && forall i | 0 <= i < |items| :: Wellformed(items[i])
  {
    WellformedText(Arr(items), format, depth);
  }

  lemma Nesting(fields: seq<Field>, depth: nat)
    requires Wellformed(Obj(fields))
    ensures Printable(Obj(fields), depth) <==> depth < NESTING_LIMIT && FieldsPrintable(fields, depth + 1)
  {
  }

  lemma Grow(before: Bytes, done: Bytes, t: Bytes, rest: Bytes)
    ensures before + done + t == before + (done + t)
    ensures done + (t + rest) == done + t + rest
  {
  }

  /** No text holds a NUL. */
  lemma {:induction false} WellformedText(v: Value, format: bool, depth: nat)
    requires Wellformed(v)
    ensures NulFree(Text(v, format, depth))
    decreases v, 1
  {
    match v
    case Null =>
    case Bool(_) =>
    case Number(n) => NumberTextFits(n);
    case Str(s) => StringTextNulFree(s);
    case Arr(items) => WellformedItems(items, format, depth + 1);
    case Obj(fields) => WellformedFields(fields, format, depth + 1);
  }

  lemma {:induction false} WellformedItems(items: seq<Value>, format: bool, depth: nat)
    requires forall i | 0 <= i < |items| :: Wellformed(items[i])
    ensures NulFree(ItemsText(items, format, depth))
    decreases items, 0
  {
    if items != [] {
      WellformedText(items[0], format, depth);
      WellformedItems(items[1..], format, depth);
      hide Text;
    }
  }

  lemma {:induction false} WellformedFields(fields: seq<Field>, format: bool, depth: nat)
    requires forall i | 0 <= i < |fields| :: NulFree(fields[i].name) && Wellformed(fields[i].value)
    ensures NulFree(FieldsText(fields, format, depth))
    decreases fields, 0
  {
    if fields != [] {
      WellformedField(fields[0], format, depth);
      WellformedFields(fields[1..], format, depth);
      hide FieldText;
    }
  }

  lemma {:induction false} WellformedField(f: Field, format: bool, depth: nat)
    requires NulFree(f.name) && Wellformed(f.value)
    ensures NulFree(FieldText(f, format, depth))
    decreases f, 0
  {
    StringTextNulFree(f.name);
    WellformedText(f.value, format, depth);
    hide Text, StringText;
  }

  /** cJSON_Print and cJSON_PrintUnformatted: what they return is the text of the tree, and it parses
      back to the tree. They give up exactly on a tree that is too deep or too long. */
  method Print(v: Value, format: bool) returns (printed: Option<Bytes>)
    requires Wellformed(v)
    ensures printed == None <==> !Printable(v, 0) || |Text(v, format, 0)| + 2 > INT_MAX
    ensures printed.Some? ==> printed.value == Text(v, format, 0)
    ensures printed.Some? ==> Parse(printed.value, true) == Ok(v, |printed.value|)
  {
    var p := new PrintBuffer(256, false, format);
    ghost var before := p.buffer[..0];
    var ok := p.PrintValue(v);
    if !ok { return None; }
    p.UpdateOffset(before, Text(v, format, 0));
    RoundTrip(v, format, true);
    assert before + Text(v, format, 0) == Text(v, format, 0);
    return Some(p.buffer[..p.offset]);
  }

  /** cJSON_PrintPreallocated: it prints into the caller's space, and fails exactly when the tree is
      too deep or the space is not two bytes longer than the text. Five bytes more than the text
      needs, as include/cJSON.h advises, is enough. */
  method PrintPreallocated(v: Value, p: PrintBuffer) returns (ok: bool)
    requires Wellformed(v) && p.offset == 0 && p.depth == 0 && p.noalloc && p.buffer.Length <= INT_MAX
    modifies p, p.buffer
    ensures p.buffer == old(p.buffer)
    ensures ok <==> Printable(v, 0) && |Text(v, p.format, 0)| + 2 <= p.buffer.Length
    ensures ok ==>
      var t := Text(v, p.format, 0);
      |t| < p.buffer.Length && p.buffer[..|t|] == t && p.buffer[|t|] == NUL
  {
    ghost var before := p.buffer[..0];
    ok := p.PrintValue(v);
    assert before + Text(v, p.format, 0) == Text(v, p.format, 0);
  }
}
