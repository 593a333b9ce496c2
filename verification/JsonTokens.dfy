/** Exactly which texts the parser accepts: those whose tokens are the tokens of a value (src/utils/cJSON.c:1089-1129,
    1368-1595, 1662-1777). */
module JsonTokens {
  import opened Wrappers
  import opened JsonText
  import opened JsonParse
  import opened JsonRoundTrip

  datatype Token = Open | Close | OpenObject | CloseObject | Comma | Colon | Atom(v: Value)

  /** The tokens of a value. */
  function Tokens(v: Value): seq<Token> {
    match v
    case Arr(items) => [Open] + ItemTokens(items) + [Close]
    case Obj(fields) => [OpenObject] + FieldTokens(fields) + [CloseObject]
    case _ => [Atom(v)]
  }

  /** With a comma between any two. */
  function ItemTokens(items: seq<Value>): seq<Token> {
    if items == [] then []
    else if |items| == 1 then Tokens(items[0])
    else Tokens(items[0]) + [Comma] + ItemTokens(items[1..])
  }

  function FieldTokens(fields: seq<Field>): seq<Token> {
    if fields == [] then []
    else
      var f := [Atom(Str(fields[0].name)), Colon] + Tokens(fields[0].value);
      if |fields| == 1 then f else f + [Comma] + FieldTokens(fields[1..])
  }

  /** How many brackets a value needs open. */
  function Nesting(v: Value): nat {
    match v
    case Arr(items) => 1 + ItemsNesting(items)
    case Obj(fields) => 1 + FieldsNesting(fields)
    case _ => 0
  }

  function ItemsNesting(items: seq<Value>): nat {
    if items == [] then 0 else Max(Nesting(items[0]), ItemsNesting(items[1..]))
  }

  function FieldsNesting(fields: seq<Field>): nat {
    if fields == [] then 0 else Max(Nesting(fields[0].value), FieldsNesting(fields[1..]))
  }

  function Max(a: nat, b: nat): nat { if a < b then b else a }

  // ---- the tokens of a buffer ----

  /** The token at o and where it ends. */
  function TokenAt(c: Bytes, o: nat): Option<(Token, nat)>
    requires o < |c|
  {
    if c[o] == OPEN_BRACKET then Some((Open, o + 1))
    else if c[o] == CLOSE_BRACKET then Some((Close, o + 1))
    else if c[o] == OPEN_BRACE then Some((OpenObject, o + 1))
    else if c[o] == CLOSE_BRACE then Some((CloseObject, o + 1))
    else if c[o] == COMMA then Some((Comma, o + 1))
    else if c[o] == COLON then Some((Colon, o + 1))
    else if StartsWith(c, o, NULL_TEXT) then Some((Atom(Null), o + 4))
    else if StartsWith(c, o, FALSE_TEXT) then Some((Atom(Bool(false)), o + 5))
    else if StartsWith(c, o, TRUE_TEXT) then Some((Atom(Bool(true)), o + 4))
    else if c[o] == QUOTE then
      match ParseString(c, o)
      case Ok(s, n) => Some((Atom(Str(s)), n))
      case _ => None
    else if c[o] == MINUS || IsDigit(c[o]) then
      match ParseNumber(c, o)
      case Ok(v, n) => Some((Atom(v), n))
      case _ => None
    else None
  }

  /** From o to n the buffer holds these tokens, with bytes up to the blank before each. */
  ghost predicate Holds(c: Bytes, o: nat, n: nat, ts: seq<Token>)
    decreases |ts|
  {
    if ts == [] then o == n
    else
      o <= |c|
      && var p := SpaceEnd(c, o);
      p < |c| && TokenAt(c, p).Some? && TokenAt(c, p).value.0 == ts[0] && Holds(c, TokenAt(c, p).value.1, n, ts[1..])
  }

  lemma {:induction false} Append(c: Bytes, o: nat, m: nat, n: nat, s: seq<Token>, t: seq<Token>)
    requires Holds(c, o, m, s) && Holds(c, m, n, t)
    ensures Holds(c, o, n, s + t)
    decreases |s|
  {
    hide TokenAt, SpaceEnd;
    Rest(s, t);
    if s != [] { Append(c, TokenAt(c, SpaceEnd(c, o)).value.1, m, n, s[1..], t); }
  }

  lemma Rest(s: seq<Token>, t: seq<Token>)
    ensures if s == [] then s + t == t else (s + t)[1..] == s[1..] + t && (s + t)[0] == s[0] && s + t != []
  {
  }

  /** And back. */
  lemma {:induction false} Parts(c: Bytes, o: nat, n: nat, s: seq<Token>, t: seq<Token>) returns (m: nat)
    requires Holds(c, o, n, s + t)
    ensures Holds(c, o, m, s) && Holds(c, m, n, t)
    decreases |s|
  {
    hide TokenAt, SpaceEnd;
    Rest(s, t);
    if s == [] { m := o; } else { m := Parts(c, TokenAt(c, SpaceEnd(c, o)).value.1, n, s[1..], t); }
  }

  // ---- blanks ----

  /** Where skipping stops at something else, the blanks end. */
  lemma {:induction false} Stops(c: Bytes, o: nat)
    requires o <= |c|
    ensures Skip(c, o) < |c| && c[Skip(c, o)] > 32 <==> SpaceEnd(c, o) < |c|
    ensures SpaceEnd(c, o) < |c| ==> Skip(c, o) == SpaceEnd(c, o) && c[SpaceEnd(c, o)] > 32
    decreases |c| - o
  {
    BlankTo(c, o);
  }

  lemma {:induction false} BlankTo(c: Bytes, o: nat)
    requires o <= |c|
    ensures forall i | o <= i < SpaceEnd(c, o) :: c[i] <= 32
    ensures SpaceEnd(c, o) < |c| ==> c[SpaceEnd(c, o)] > 32
    ensures SpaceEnd(c, SpaceEnd(c, o)) == SpaceEnd(c, o)
    decreases |c| - o
  {
    if o < |c| && c[o] <= 32 { BlankTo(c, o + 1); }
  }

  /** Blanks before the first token do not matter. */
  lemma Later(c: Bytes, o: nat, p: nat, n: nat, ts: seq<Token>)
    requires o <= |c| && p <= |c| && SpaceEnd(c, o) == SpaceEnd(c, p) && ts != []
    ensures Holds(c, o, n, ts) <==> Holds(c, p, n, ts)
  {
  }

  lemma One(c: Bytes, o: nat, p: nat, n: nat, t: Token)
    requires o <= |c| && SpaceEnd(c, o) == p < |c|
    ensures Holds(c, o, n, [t]) <==> TokenAt(c, p) == Some((t, n))
  {
    assert [t][1..] == [];
  }

  // ---- what is accepted has the tokens of its value ----

  predicate Within(nesting: nat, depth: nat) { nesting == 0 || depth + nesting <= NESTING_LIMIT }

  lemma AtomToken(c: Bytes, o: nat, v: Value, n: nat)
    requires o < |c| && c[o] > 32 && !v.Arr? && !v.Obj?
    ensures Holds(c, o, n, Tokens(v)) <==> TokenAt(c, o) == Some((Atom(v), n))
  {
    assert SpaceEnd(c, o) == o;
    One(c, o, o, n, Atom(v));
    hide TokenAt;
  }

  /** A buffer starts with at most one of the words, and then with a letter. */
  lemma WordStarts(c: Bytes, o: nat)
    requires o < |c|
    ensures StartsWith(c, o, NULL_TEXT) ==> c[o] == 110
    ensures StartsWith(c, o, FALSE_TEXT) ==> c[o] == 102
    ensures StartsWith(c, o, TRUE_TEXT) ==> c[o] == 116
  {
    hide StartsWith;
    if StartsWith(c, o, NULL_TEXT) { ByteAt(c, o, NULL_TEXT, 0); }
    if StartsWith(c, o, FALSE_TEXT) { ByteAt(c, o, FALSE_TEXT, 0); }
    if StartsWith(c, o, TRUE_TEXT) { ByteAt(c, o, TRUE_TEXT, 0); }
  }

  lemma NotAtEnd(c: Bytes, depth: nat)
    ensures !ParseValue(c, |c|, depth).Ok?
  {
  }

  lemma NumbersAreAtoms(c: Bytes, o: nat)
    requires o < |c|
    ensures ParseNumber(c, o).Ok? ==> ParseNumber(c, o).value.Number?
  {
  }

  lemma ListsAreNot(c: Bytes, o: nat, depth: nat)
    requires o < |c|
    ensures c[o] == OPEN_BRACKET && ParseArray(c, o, depth).Ok? ==> ParseArray(c, o, depth).value.Arr?
    ensures c[o] == OPEN_BRACE && ParseObject(c, o, depth).Ok? ==> ParseObject(c, o, depth).value.Obj?
  {
    hide ParseItems, ParseFields, Skip;
  }

  /** Words, strings and numbers. */
  lemma AtomAccepted(c: Bytes, o: nat, depth: nat, v: Value, n: nat)
    requires o <= |c| && !v.Arr? && !v.Obj?
    ensures ParseValue(c, o, depth) == Ok(v, n) <==> o < |c| && c[o] > 32 && TokenAt(c, o) == Some((Atom(v), n))
  {
    hide ParseString, ParseNumber, ParseArray, ParseObject, StartsWith;
    if o < |c| {
      WordStarts(c, o);
      NumbersAreAtoms(c, o);
      ListsAreNot(c, o, depth);
    } else {
      NotAtEnd(c, depth);
    }
  }

  /** What an accepted value starts with. */
  lemma Starts(c: Bytes, o: nat, depth: nat)
    requires o <= |c| && ParseValue(c, o, depth).Ok?
    ensures o < |c| && c[o] > 32 && c[o] != CLOSE_BRACKET && c[o] != CLOSE_BRACE
  {
    hide ParseString, ParseNumber, ParseArray, ParseObject, StartsWith;
    if o < |c| { WordStarts(c, o); } else { NotAtEnd(c, depth); }
  }

  lemma FirstToken(v: Value)
    ensures Tokens(v) != [] && (Tokens(v)[0] == Open || Tokens(v)[0] == OpenObject || Tokens(v)[0].Atom?)
  {
  }

  lemma {:induction false} ValueAccepted(c: Bytes, o: nat, depth: nat)
    requires o <= |c| && ParseValue(c, o, depth).Ok?
    ensures var r := ParseValue(c, o, depth);
      Holds(c, o, r.next, Tokens(r.value)) && Within(Nesting(r.value), depth)
    decreases |c| - o, 3
  {
    hide ParseString, ParseNumber, ParseArray, ParseObject, StartsWith, TokenAt, Holds;
    Starts(c, o, depth);
    var r := ParseValue(c, o, depth);
    if c[o] == OPEN_BRACKET {
      WordStarts(c, o);
      ArrayAccepted(c, o, depth);
    } else if c[o] == OPEN_BRACE {
      WordStarts(c, o);
      ObjectAccepted(c, o, depth);
    } else {
      NotLists(c, o, depth);
      AtomAccepted(c, o, depth, r.value, r.next);
      AtomToken(c, o, r.value, r.next);
    }
  }

  lemma NotLists(c: Bytes, o: nat, depth: nat)
    requires o < |c| && c[o] != OPEN_BRACKET && c[o] != OPEN_BRACE && ParseValue(c, o, depth).Ok?
    ensures !ParseValue(c, o, depth).value.Arr? && !ParseValue(c, o, depth).value.Obj?
  {
    hide ParseString, ParseNumber, ParseArray, ParseObject, StartsWith;
    NumbersAreAtoms(c, o);
  }

  // ---- punctuation ----

  function Sign(t: Token): byte
    requires !t.Atom?
  {
    match t
    case Open => OPEN_BRACKET
    case Close => CLOSE_BRACKET
    case OpenObject => OPEN_BRACE
    case CloseObject => CLOSE_BRACE
    case Comma => COMMA
    case Colon => COLON
  }

  lemma Marks(c: Bytes, p: nat, t: Token, n: nat)
    requires p < |c| && !t.Atom?
    ensures TokenAt(c, p) == Some((t, n)) <==> c[p] == Sign(t) && n == p + 1
  {
    hide ParseString, ParseNumber, StartsWith;
  }

  /** Such a token is its byte, after blanks. */
  lemma MarkHeld(c: Bytes, o: nat, t: Token, n: nat)
    requires o <= |c| && !t.Atom?
    ensures Holds(c, o, n, [t]) <==> Skip(c, o) < |c| && c[Skip(c, o)] == Sign(t) && n == Skip(c, o) + 1
  {
    hide TokenAt, Skip, SpaceEnd, Holds;
    Stops(c, o);
    var p := SpaceEnd(c, o);
    if p < |c| {
      One(c, o, p, n, t);
      Marks(c, p, t, n);
    } else {
      NoToken(c, o, n, [t]);
    }
  }

  lemma NoToken(c: Bytes, o: nat, n: nat, ts: seq<Token>)
    requires o <= |c| && SpaceEnd(c, o) == |c| && ts != []
    ensures !Holds(c, o, n, ts)
  {
  }

  lemma AtOnce(c: Bytes, o: nat)
    requires o < |c| && c[o] > 32
    ensures Skip(c, o) == o == SpaceEnd(c, o)
  {
  }

  /** Skipping again from where skipping stopped. */
  lemma SkipTwice(c: Bytes, o: nat)
    requires o < |c|
    ensures SpaceEnd(c, Skip(c, o)) < |c| ==> Skip(c, o) == SpaceEnd(c, o) == SpaceEnd(c, Skip(c, o))
  {
    BlankTo(c, o);
    if SpaceEnd(c, o) == |c| { assert SpaceEnd(c, |c| - 1) == |c| by { assert c[|c| - 1] <= 32; } }
  }

  // ---- arrays ----

  lemma ListNesting(items: seq<Value>, depth: nat)
    ensures Within(Nesting(Arr(items)), depth) <==> depth < NESTING_LIMIT && Within(ItemsNesting(items), depth + 1)
  {
  }

  lemma ListTokens(v: Value, vs: seq<Value>)
    ensures ItemTokens([v] + vs) == if vs == [] then Tokens(v) else Tokens(v) + [Comma] + ItemTokens(vs)
    ensures ItemsNesting([v] + vs) == Max(Nesting(v), ItemsNesting(vs))
  {
    assert ([v] + vs)[1..] == vs && ([v] + vs)[0] == v;
  }

  lemma {:induction false} ArrayAccepted(c: Bytes, o: nat, depth: nat)
    requires o < |c| && c[o] == OPEN_BRACKET && ParseArray(c, o, depth).Ok?
    ensures var r := ParseArray(c, o, depth);
      Holds(c, o, r.next, Tokens(r.value)) && Within(Nesting(r.value), depth)
    decreases |c| - o, 2
  {
    hide ParseItems, Skip, SpaceEnd, TokenAt, Holds, Within, Nesting, ItemTokens;
    var r := ParseArray(c, o, depth);
    var items := r.value.items;
    var p := Skip(c, o + 1);
    AtOnce(c, o);
    MarkHeld(c, o, Open, o + 1);
    ListNesting(items, depth);
    if c[p] == CLOSE_BRACKET {
      MarkHeld(c, o + 1, Close, p + 1);
      Empty(depth + 1);
      EmptyHeld(c, o + 1);
      Append(c, o, o + 1, o + 1, [Open], ItemTokens([]));
      Append(c, o, o + 1, p + 1, [Open] + ItemTokens([]), [Close]);
    } else {
      var m := ItemsAccepted(c, p - 1, depth + 1);
      SkipTwice(c, o + 1);
      Later(c, o + 1, p, m, ItemTokens(items));
      MarkHeld(c, m, Close, r.next);
      Append(c, o, o + 1, m, [Open], ItemTokens(items));
      Append(c, o, m, r.next, [Open] + ItemTokens(items), [Close]);
    }
  }

  lemma Empty(depth: nat)
    ensures ItemTokens([]) == [] && FieldTokens([]) == []
    ensures Within(ItemsNesting([]), depth) && Within(FieldsNesting([]), depth)
  {
  }

  lemma EmptyHeld(c: Bytes, o: nat)
    ensures Holds(c, o, o, [])
  {
  }

  lemma {:induction false} ItemsAccepted(c: Bytes, b: nat, depth: nat) returns (m: nat)
    requires b < |c| && ParseItems(c, b, depth).Ok?
    ensures var r := ParseItems(c, b, depth);
      && r.value != [] && ItemTokens(r.value) != [] && m <= |c| && SpaceEnd(c, b + 1) < |c|
      && Holds(c, b + 1, m, ItemTokens(r.value)) && Skip(c, m) == r.next && Within(ItemsNesting(r.value), depth)
    decreases |c| - b, 1
  {
    hide ParseValue, Skip, SpaceEnd, TokenAt, Holds, ItemTokens, Tokens, Nesting, ItemsNesting;
    var q := Skip(c, b + 1);
    var r := ParseValue(c, q, depth);
    var v, n := r.value, r.next;
    Starts(c, q, depth);
    Stops(c, b + 1);
    AtOnce(c, q);
    ValueAccepted(c, q, depth);
    FirstToken(v);
    Later(c, b + 1, q, n, Tokens(v));
    var p := Skip(c, n);
    if p < |c| && c[p] == COMMA {
      m := ItemsAccepted(c, p, depth);
      var vs := ParseItems(c, p, depth).value;
      ListTokens(v, vs);
      MarkHeld(c, n, Comma, p + 1);
      Append(c, b + 1, n, p + 1, Tokens(v), [Comma]);
      Append(c, b + 1, p + 1, m, Tokens(v) + [Comma], ItemTokens(vs));
    } else {
      m := n;
      ListTokens(v, []);
      Empty(depth);
      assert [v] + [] == [v];
    }
  }

  // ---- objects ----

  lemma RecordNesting(fields: seq<Field>, depth: nat)
    ensures Within(Nesting(Obj(fields)), depth) <==> depth < NESTING_LIMIT && Within(FieldsNesting(fields), depth + 1)
  {
  }

  function OneField(f: Field): seq<Token> { [Atom(Str(f.name)), Colon] + Tokens(f.value) }

  lemma RecordTokens(f: Field, fs: seq<Field>)
    ensures FieldTokens([f] + fs) == if fs == [] then OneField(f) else OneField(f) + [Comma] + FieldTokens(fs)
    ensures FieldsNesting([f] + fs) == Max(Nesting(f.value), FieldsNesting(fs))
  {
    assert ([f] + fs)[1..] == fs && ([f] + fs)[0] == f;
  }

  lemma {:induction false} ObjectAccepted(c: Bytes, o: nat, depth: nat)
    requires o < |c| && c[o] == OPEN_BRACE && ParseObject(c, o, depth).Ok?
    ensures var r := ParseObject(c, o, depth);
      Holds(c, o, r.next, Tokens(r.value)) && Within(Nesting(r.value), depth)
    decreases |c| - o, 2
  {
    hide ParseFields, Skip, SpaceEnd, TokenAt, Holds, Within, Nesting, FieldTokens;
    var r := ParseObject(c, o, depth);
    var fields := r.value.fields;
    var p := Skip(c, o + 1);
    AtOnce(c, o);
    MarkHeld(c, o, OpenObject, o + 1);
    RecordNesting(fields, depth);
    if c[p] == CLOSE_BRACE {
      MarkHeld(c, o + 1, CloseObject, p + 1);
      Empty(depth + 1);
      EmptyHeld(c, o + 1);
      Append(c, o, o + 1, o + 1, [OpenObject], FieldTokens([]));
      Append(c, o, o + 1, p + 1, [OpenObject] + FieldTokens([]), [CloseObject]);
    } else {
      var m := FieldsAccepted(c, p - 1, depth + 1);
      SkipTwice(c, o + 1);
      Later(c, o + 1, p, m, FieldTokens(fields));
      MarkHeld(c, m, CloseObject, r.next);
      Append(c, o, o + 1, m, [OpenObject], FieldTokens(fields));
      Append(c, o, m, r.next, [OpenObject] + FieldTokens(fields), [CloseObject]);
    }
  }

  lemma StringToken(c: Bytes, q: nat)
    requires q < |c|
    ensures ParseString(c, q).Ok? ==> c[q] == QUOTE
    ensures c[q] == QUOTE && ParseString(c, q).Ok? ==>
        TokenAt(c, q) == Some((Atom(Str(ParseString(c, q).value)), ParseString(c, q).next))
    ensures c[q] == QUOTE && !ParseString(c, q).Ok? ==> TokenAt(c, q) == None
    ensures forall s, n :: TokenAt(c, q) == Some((Atom(Str(s)), n)) ==> c[q] == QUOTE
  {
    WordStarts(c, q);
    NumbersAreAtoms(c, q);
    hide FindEnd, Unescape, CString, ParseNumber, StartsWith;
  }

  lemma {:induction false} FieldAccepted(c: Bytes, b: nat, depth: nat)
    requires b + 1 < |c| && ParseField(c, b, depth).Ok?
    ensures var r := ParseField(c, b, depth);
      && SpaceEnd(c, b + 1) < |c| && Holds(c, b + 1, r.next, OneField(r.value))
      && Within(Nesting(r.value.value), depth)
    decreases |c| - b, 0
  {
    hide ParseValue, ParseString, Skip, SpaceEnd, TokenAt, Holds, Tokens, Nesting;
    var q := Skip(c, b + 1);
    var s := ParseString(c, q);
    StringToken(c, q);
    Stops(c, b + 1);
    One(c, b + 1, q, s.next, Atom(Str(s.value)));
    var p := Skip(c, s.next);
    MarkHeld(c, s.next, Colon, p + 1);
    var z := Skip(c, p + 1);
    var r := ParseValue(c, z, depth);
    Starts(c, z, depth);
    Stops(c, p + 1);
    AtOnce(c, z);
    ValueAccepted(c, z, depth);
    FirstToken(r.value);
    Later(c, p + 1, z, r.next, Tokens(r.value));
    Append(c, b + 1, s.next, p + 1, [Atom(Str(s.value))], [Colon]);
    assert [Atom(Str(s.value))] + [Colon] == [Atom(Str(s.value)), Colon];
    Append(c, b + 1, p + 1, r.next, [Atom(Str(s.value)), Colon], Tokens(r.value));
  }

  lemma {:induction false} FieldsAccepted(c: Bytes, b: nat, depth: nat) returns (m: nat)
    requires b < |c| && ParseFields(c, b, depth).Ok?
    ensures var r := ParseFields(c, b, depth);
      && r.value != [] && FieldTokens(r.value) != [] && m <= |c| && SpaceEnd(c, b + 1) < |c|
      && Holds(c, b + 1, m, FieldTokens(r.value)) && Skip(c, m) == r.next && Within(FieldsNesting(r.value), depth)
    decreases |c| - b, 1
  {
    hide ParseField, Skip, SpaceEnd, TokenAt, Holds, FieldTokens, Tokens, Nesting, FieldsNesting;
    var r := ParseField(c, b, depth);
    var f, n := r.value, r.next;
    FieldAccepted(c, b, depth);
    var p := Skip(c, n);
    if p < |c| && c[p] == COMMA {
      m := FieldsAccepted(c, p, depth);
      var fs := ParseFields(c, p, depth).value;
      RecordTokens(f, fs);
      MarkHeld(c, n, Comma, p + 1);
      Append(c, b + 1, n, p + 1, OneField(f), [Comma]);
      Append(c, b + 1, p + 1, m, OneField(f) + [Comma], FieldTokens(fs));
    } else {
      m := n;
      RecordTokens(f, []);
      Empty(depth);
      assert [f] + [] == [f];
    }
  }

  // ---- text with the tokens of a value is accepted ----

  lemma {:induction false} TokensAccepted(c: Bytes, o: nat, v: Value, n: nat, depth: nat)
    requires o < |c| && c[o] > 32 && Holds(c, o, n, Tokens(v)) && Within(Nesting(v), depth)
    ensures ParseValue(c, o, depth) == Ok(v, n)
    decreases v, 2
  {
    hide ParseArray, ParseObject, ParseString, ParseNumber, TokenAt, Holds, Within, Nesting, StartsWith;
    match v
    case Arr(items) =>
      ArrayTokens(c, o, items, n, depth);
      WordStarts(c, o);
    case Obj(fields) =>
      ObjectTokens(c, o, fields, n, depth);
      WordStarts(c, o);
    case _ =>
      AtomToken(c, o, v, n);
      AtomAccepted(c, o, depth, v, n);
  }

  lemma {:induction false} ArrayTokens(c: Bytes, o: nat, items: seq<Value>, n: nat, depth: nat)
    requires o < |c| && c[o] > 32 && Holds(c, o, n, Tokens(Arr(items))) && Within(Nesting(Arr(items)), depth)
    ensures c[o] == OPEN_BRACKET && ParseArray(c, o, depth) == Ok(Arr(items), n)
    decreases items, 1
  {
    hide ParseItems, Skip, SpaceEnd, TokenAt, Holds, Within, Nesting, ItemTokens;
    var m := Parts(c, o, n, [Open] + ItemTokens(items), [Close]);
    var k := Parts(c, o, m, [Open], ItemTokens(items));
    AtOnce(c, o);
    MarkHeld(c, o, Open, k);
    Reached(c, m, n, [Close]);
    MarkHeld(c, m, Close, n);
    ListNesting(items, depth);
    if items == [] {
      Empty(depth);
      EmptyEnds(c, o + 1, m);
    } else {
      var p := Skip(c, o + 1);
      ItemsFirst(c, o + 1, m, items);
      Later(c, o + 1, p, m, ItemTokens(items));
      ItemsTokens(c, p - 1, m, items, depth + 1);
    }
  }

  lemma Reached(c: Bytes, o: nat, n: nat, ts: seq<Token>)
    requires Holds(c, o, n, ts) && ts != []
    ensures o <= |c|
  {
  }

  lemma EmptyEnds(c: Bytes, o: nat, n: nat)
    requires Holds(c, o, n, [])
    ensures o == n
  {
  }

  /** The first token of a list is that of a value. */
  lemma ItemsFirst(c: Bytes, o: nat, m: nat, items: seq<Value>)
    requires o <= |c| && items != [] && Holds(c, o, m, ItemTokens(items))
    ensures ItemTokens(items) != []
    ensures var p := Skip(c, o);
      p < |c| && p == SpaceEnd(c, o) == SpaceEnd(c, p) && c[p] > 32 && c[p] != CLOSE_BRACKET
  {
    FirstToken(items[0]);
    var t := ItemTokens(items)[0];
    assert t == Tokens(items[0])[0];
    FirstByte(c, o, m, ItemTokens(items));
  }

  lemma FirstByte(c: Bytes, o: nat, m: nat, ts: seq<Token>)
    requires o <= |c| && ts != [] && Holds(c, o, m, ts) && (ts[0] == Open || ts[0] == OpenObject || ts[0].Atom?)
    ensures var p := Skip(c, o);
      p < |c| && p == SpaceEnd(c, o) == SpaceEnd(c, p) && c[p] > 32 && c[p] != CLOSE_BRACKET && c[p] != CLOSE_BRACE
  {
    hide TokenAt, Skip;
    var p := SpaceEnd(c, o);
    Stops(c, o);
    BlankTo(c, o);
    Marks(c, p, Close, p + 1);
    Marks(c, p, CloseObject, p + 1);
  }

  lemma {:induction false} ItemsTokens(c: Bytes, b: nat, m: nat, items: seq<Value>, depth: nat)
    requires b < |c| && items != [] && m <= |c| && Holds(c, b + 1, m, ItemTokens(items))
    requires Skip(c, m) < |c| ==> c[Skip(c, m)] != COMMA
    requires Within(ItemsNesting(items), depth)
    ensures ParseItems(c, b, depth) == Ok(items, Skip(c, m))
    decreases items, 0
  {
    hide ParseValue, Skip, SpaceEnd, TokenAt, Holds, ItemTokens, Tokens, Nesting, ItemsNesting;
    var v, vs := items[0], items[1..];
    assert items == [v] + vs;
    ListTokens(v, vs);
    ItemsFirst(c, b + 1, m, items);
    FirstToken(v);
    var q := Skip(c, b + 1);
    if vs == [] {
      Later(c, b + 1, q, m, Tokens(v));
      TokensAccepted(c, q, v, m, depth);
      assert items == [v] && ParseValue(c, q, depth) == Ok(v, m);
    } else {
      var k := Parts(c, b + 1, m, Tokens(v) + [Comma], ItemTokens(vs));
      var j := Parts(c, b + 1, k, Tokens(v), [Comma]);
      Reached(c, j, k, [Comma]);
      MarkHeld(c, j, Comma, k);
      Later(c, b + 1, q, j, Tokens(v));
      TokensAccepted(c, q, v, j, depth);
      ItemsTokens(c, Skip(c, j), m, vs, depth);
    }
  }

  lemma {:induction false} ObjectTokens(c: Bytes, o: nat, fields: seq<Field>, n: nat, depth: nat)
    requires o < |c| && c[o] > 32 && Holds(c, o, n, Tokens(Obj(fields))) && Within(Nesting(Obj(fields)), depth)
    ensures c[o] == OPEN_BRACE && ParseObject(c, o, depth) == Ok(Obj(fields), n)
    decreases fields, 1
  {
    hide ParseFields, Skip, SpaceEnd, TokenAt, Holds, Within, Nesting, FieldTokens;
    var m := Parts(c, o, n, [OpenObject] + FieldTokens(fields), [CloseObject]);
    var k := Parts(c, o, m, [OpenObject], FieldTokens(fields));
    AtOnce(c, o);
    MarkHeld(c, o, OpenObject, k);
    Reached(c, m, n, [CloseObject]);
    MarkHeld(c, m, CloseObject, n);
    RecordNesting(fields, depth);
    if fields == [] {
      Empty(depth);
      EmptyEnds(c, o + 1, m);
    } else {
      var p := Skip(c, o + 1);
      FieldsFirst(c, o + 1, m, fields);
      Later(c, o + 1, p, m, FieldTokens(fields));
      FieldsTokens(c, p - 1, m, fields, depth + 1);
    }
  }

  lemma FieldsFirst(c: Bytes, o: nat, m: nat, fields: seq<Field>)
    requires o <= |c| && fields != [] && Holds(c, o, m, FieldTokens(fields))
    ensures FieldTokens(fields) != []
    ensures var p := Skip(c, o);
      p < |c| && p == SpaceEnd(c, o) == SpaceEnd(c, p) && c[p] > 32 && c[p] != CLOSE_BRACE
  {
    assert FieldTokens(fields)[0] == Atom(Str(fields[0].name));
    FirstByte(c, o, m, FieldTokens(fields));
  }

  lemma {:induction false} FieldTokensRead(c: Bytes, b: nat, n: nat, f: Field, depth: nat)
    requires b + 1 < |c| && n <= |c| && Holds(c, b + 1, n, OneField(f)) && Within(Nesting(f.value), depth)
    ensures ParseField(c, b, depth) == Ok(f, n)
    decreases f, 0
  {
    hide ParseValue, ParseString, Skip, SpaceEnd, TokenAt, Holds, Tokens, Nesting;
    var name := Atom(Str(f.name));
    assert OneField(f) == [name] + [Colon] + Tokens(f.value);
    var k := Parts(c, b + 1, n, [name] + [Colon], Tokens(f.value));
    var j := Parts(c, b + 1, k, [name], [Colon]);
    FirstByte(c, b + 1, j, [name]);
    var q := Skip(c, b + 1);
    One(c, b + 1, q, j, name);
    StringToken(c, q);
    Reached(c, j, k, [Colon]);
    MarkHeld(c, j, Colon, k);
    FirstToken(f.value);
    Reached(c, k, n, Tokens(f.value));
    FirstByte(c, k, n, Tokens(f.value));
    var z := Skip(c, k);
    Later(c, k, z, n, Tokens(f.value));
    TokensAccepted(c, z, f.value, n, depth);
  }

  lemma {:induction false} FieldsTokens(c: Bytes, b: nat, m: nat, fields: seq<Field>, depth: nat)
    requires b < |c| && fields != [] && m <= |c| && Holds(c, b + 1, m, FieldTokens(fields))
    requires Skip(c, m) < |c| ==> c[Skip(c, m)] != COMMA
    requires Within(FieldsNesting(fields), depth)
    ensures ParseFields(c, b, depth) == Ok(fields, Skip(c, m))
    decreases fields, 0
  {
    hide ParseField, Skip, SpaceEnd, TokenAt, Holds, FieldTokens, OneField, Nesting, FieldsNesting;
    var f, fs := fields[0], fields[1..];
    assert fields == [f] + fs;
    RecordTokens(f, fs);
    FieldsFirst(c, b + 1, m, fields);
    if fs == [] {
      FieldTokensRead(c, b, m, f, depth);
      assert fields == [f] && ParseField(c, b, depth) == Ok(f, m);
    } else {
      var k := Parts(c, b + 1, m, OneField(f) + [Comma], FieldTokens(fs));
      var j := Parts(c, b + 1, k, OneField(f), [Comma]);
      Reached(c, j, k, [Comma]);
      MarkHeld(c, j, Comma, k);
      FieldTokensRead(c, b, j, f, depth);
      FieldsTokens(c, Skip(c, j), m, fs, depth);
    }
  }

  // ---- the theorems ----

  /** A value is accepted, with that end, exactly if the buffer holds its tokens up to there and it does not nest
      too deep. */
  lemma AcceptedExactly(c: Bytes, o: nat, depth: nat, v: Value, n: nat)
    requires o <= |c|
    ensures ParseValue(c, o, depth) == Ok(v, n) <==>
        o < |c| && c[o] > 32 && Holds(c, o, n, Tokens(v)) && Within(Nesting(v), depth)
  {
    hide ParseValue, Holds, Tokens, Nesting, Within;
    if ParseValue(c, o, depth).Ok? {
      Starts(c, o, depth);
      ValueAccepted(c, o, depth);
    }
    if o < |c| && c[o] > 32 && Holds(c, o, n, Tokens(v)) && Within(Nesting(v), depth) {
      TokensAccepted(c, o, v, n, depth);
    }
  }

  /** So a buffer is accepted exactly if, after a byte order mark, it holds the tokens of a value that does not nest
      too deep; when a NUL is required, nothing but blanks and a last NUL may follow. */
  lemma BufferAcceptedExactly(c: Bytes, requireNul: bool, v: Value, n: nat)
    requires |c| > 0
    ensures ParseBuffer(c, requireNul) == Ok(v, n) <==>
      && Holds(c, SkipBom(c), n, Tokens(v)) && Within(Nesting(v), 0)
      && (requireNul ==> n < |c| && SpaceEnd(c, n) == |c| && c[|c| - 1] == NUL)
  {
    hide ParseValue, Holds, Tokens, Nesting, Within, SpaceEnd, Skip;
    var o := SkipBom(c);
    var q := Skip(c, o);
    AcceptedExactly(c, q, 0, v, n);
    FirstToken(v);
    BomShort(c);
    SkipTwice(c, o);
    Stops(c, o);
    if SpaceEnd(c, o) < |c| {
      AtOnce(c, q);
      Later(c, o, q, n, Tokens(v));
    } else {
      NoToken(c, o, n, Tokens(v));
    }
    if ParseValue(c, q, 0) == Ok(v, n) { NulLast(c, n); }
  }

  lemma BomShort(c: Bytes)
    requires |c| > 0
    ensures SkipBom(c) < |c|
  {
  }

  lemma NulLast(c: Bytes, n: nat)
    requires n <= |c| && |c| > 0
    ensures Skip(c, n) < |c| && c[Skip(c, n)] == NUL <==> n < |c| && SpaceEnd(c, n) == |c| && c[|c| - 1] == NUL
  {
    BlankTo(c, n);
  }
}
