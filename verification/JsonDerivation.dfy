/** Every text that the grammar of RFC 8259 derives is the text of a derivation, so the parser reads it. */
module JsonDerivation {
  import opened Wrappers
  import opened JsonText
  import opened JsonGrammar
  import opened JsonParse
  import opened JsonRoundTrip
  import opened JsonSyntax
  import opened JsonConforms

  // ---- characters ----

  lemma CharDerived(t: Bytes) returns (u: Char)
    requires IsChar(t)
    ensures CharOk(u) && CharText(u) == t
  {
    if |t| == 1 { u := Plain(t[0]); }
    else if |t| == 2 { u := Escaped(t[1]); }
    else { u := Unit(t[2], t[3], t[4], t[5]); }
  }

  lemma {:induction false} CharsDerived(t: Bytes) returns (chars: seq<Char>)
    requires IsChars(t)
    ensures CharsOk(chars) && CharsText(chars) == t
    decreases |t|
  {
    hide IsChar, CharOk, CharText;
    if t == [] {
      chars := [];
    } else {
      var c, rest :| IsChar(c) && t == c + rest && IsChars(rest);
      var u := CharDerived(c);
      CharNotEmpty(u);
      var us := CharsDerived(rest);
      chars := [u] + us;
    }
  }

  lemma CharNotEmpty(u: Char)
    ensures |CharText(u)| > 0
  {
  }

  // ---- padding ----

  lemma WsJoin(a: Bytes, b: Bytes)
    requires Ws(a) && Ws(b)
    ensures Ws(a + b)
  {
  }

  function PadBefore(w: Bytes, i: Item): Item { Item(w + i.before, i.tree, i.after) }

  function PadAfter(i: Item, w: Bytes): Item { Item(i.before, i.tree, i.after + w) }

  lemma Padded(i: Item, w: Bytes)
    requires ItemOk(i) && Ws(w)
    ensures ItemOk(PadBefore(w, i)) && ItemText(PadBefore(w, i)) == w + ItemText(i)
    ensures ItemOk(PadAfter(i, w)) && ItemText(PadAfter(i, w)) == ItemText(i) + w
  {
    hide TreeOk, TreeText, Ws;
    ItemParts(i);
    WsJoin(w, i.before);
    WsJoin(i.after, w);
  }

  lemma {:induction false} PadFirst(w: Bytes, items: seq<Item>) returns (padded: seq<Item>)
    requires Ws(w) && items != [] && ItemsOk(items)
    ensures padded != [] && ItemsOk(padded) && ListText(padded) == w + ListText(items)
  {
    RestOk(items);
    Padded(items[0], w);
    padded := [PadBefore(w, items[0])] + items[1..];
    hide ItemOk, ItemText, PadBefore;
    assert padded[1..] == items[1..];
  }

  lemma {:induction false} PadLast(items: seq<Item>, w: Bytes) returns (padded: seq<Item>)
    requires Ws(w) && items != [] && ItemsOk(items)
    ensures padded != [] && ItemsOk(padded) && ListText(padded) == ListText(items) + w
    decreases |items|
  {
    hide ItemOk, ItemText, PadAfter;
    RestOk(items);
    if |items| == 1 {
      Padded(items[0], w);
      padded := [PadAfter(items[0], w)];
    } else {
      var rest := PadLast(items[1..], w);
      padded := [items[0]] + rest;
      assert padded[1..] == rest;
      assert ListText(items) + w == ItemText(items[0]) + [COMMA] + (ListText(items[1..]) + w);
    }
  }

  // ---- values ----

  lemma Bare(t: Tree) returns (i: Item)
    requires TreeOk(t)
    ensures ItemOk(i) && ItemText(i) == TreeText(t)
  {
    i := Item([], t, []);
    assert ItemText(i) == [] + TreeText(t) + [];
    hide TreeText;
  }

  lemma StructuralParts(t: Bytes, b: byte) returns (x: Bytes, y: Bytes)
    requires Structural(t, b)
    ensures Ws(x) && Ws(y) && t == x + [b] + y
  {
    x, y :| Ws(x) && Ws(y) && t == x + [b] + y;
  }

  lemma StringDerived(t: Bytes) returns (chars: seq<Char>)
    requires IsString(t)
    ensures CharsOk(chars) && QuotedText(chars) == t
  {
    var body :| t == [QUOTE] + body + [QUOTE] && IsChars(body);
    chars := CharsDerived(body);
  }

  lemma NumberDerived(t: Bytes) returns (tree: Tree)
    requires IsNumber(t)
    ensures TreeOk(tree) && TreeText(tree) == t
  {
    hide IsInt, IsFrac, IsExp;
    var m, i, f, e :| t == m + i + f + e && (m == [] || m == [MINUS]) && IsInt(i) && (f == [] || IsFrac(f))
        && (e == [] || IsExp(e));
    tree := Numeral(m != [], i, f, e);
  }

  lemma {:induction false} ValueDerived(t: Bytes) returns (i: Item)
    requires IsValue(t)
    ensures ItemOk(i) && ItemText(i) == t
    decreases |t|, 3
  {
    hide IsNumber, IsString, IsArray, IsObject;
    if t == NULL_TEXT { i := Bare(NullWord); }
    else if t == FALSE_TEXT { i := Bare(FalseWord); }
    else if t == TRUE_TEXT { i := Bare(TrueWord); }
    else if IsNumber(t) {
      var tree := NumberDerived(t);
      i := Bare(tree);
    } else if IsString(t) {
      var chars := StringDerived(t);
      i := Bare(Quoted(chars));
    } else if IsArray(t) {
      i := ArrayDerived(t);
    } else {
      i := ObjectDerived(t);
    }
  }

  /** A text between its brackets, with white space around both. */
  lemma Bracketed(x: Bytes, tree: Tree, y: Bytes) returns (i: Item)
    requires Ws(x) && TreeOk(tree) && Ws(y)
    ensures ItemOk(i) && ItemText(i) == x + TreeText(tree) + y
  {
    i := Item(x, tree, y);
  }

  lemma {:induction false} ArrayDerived(t: Bytes) returns (i: Item)
    requires IsArray(t)
    ensures ItemOk(i) && ItemText(i) == t
    decreases |t|, 2
  {
    hide Structural, Ws, IsElements, ItemOk, ItemText, ListText;
    var open, body, close :| Structural(open, OPEN_BRACKET) && Structural(close, CLOSE_BRACKET)
        && t == open + body + close && (body == [] || IsElements(body));
    var x, y := StructuralParts(open, OPEN_BRACKET);
    var z, w := StructuralParts(close, CLOSE_BRACKET);
    if body == [] {
      WsJoin(y, z);
      i := Bracketed(x, List(y + z, []), w);
      assert t == x + ([OPEN_BRACKET] + (y + z) + [CLOSE_BRACKET]) + w;
    } else {
      var items := ElementsDerived(body);
      items := PadFirst(y, items);
      items := PadLast(items, z);
      WsEmpty();
      i := Bracketed(x, List([], items), w);
      assert t == x + ([OPEN_BRACKET] + (y + body + z) + [CLOSE_BRACKET]) + w;
    }
  }

  lemma WsEmpty()
    ensures Ws([])
  {
  }

  lemma {:induction false} ElementsDerived(t: Bytes) returns (items: seq<Item>)
    requires IsElements(t)
    ensures items != [] && ItemsOk(items) && ListText(items) == t
    decreases |t|, 4
  {
    hide Structural, IsValue, ItemOk, ItemText, ListText;
    if IsValue(t) {
      var i := ValueDerived(t);
      items := [i];
      OneItem(i);
    } else {
      var v, comma, rest :| Structural(comma, COMMA) && t == v + comma + rest && IsValue(v) && IsElements(rest);
      var x, y := StructuralParts(comma, COMMA);
      var i := ValueDerived(v);
      var more := ElementsDerived(rest);
      Padded(i, x);
      more := PadFirst(y, more);
      items := [PadAfter(i, x)] + more;
      MoreItems(PadAfter(i, x), more);
      assert t == v + x + [COMMA] + (y + rest);
    }
  }

  lemma OneItem(i: Item)
    requires ItemOk(i)
    ensures ItemsOk([i]) && ListText([i]) == ItemText(i)
  {
    hide ItemOk;
  }

  lemma MoreItems(i: Item, items: seq<Item>)
    requires ItemOk(i) && items != [] && ItemsOk(items)
    ensures ItemsOk([i] + items) && ListText([i] + items) == ItemText(i) + [COMMA] + ListText(items)
  {
    hide ItemOk, ItemText;
    assert ([i] + items)[1..] == items;
  }

  lemma {:induction false} ObjectDerived(t: Bytes) returns (i: Item)
    requires IsObject(t)
    ensures ItemOk(i) && ItemText(i) == t
    decreases |t|, 2
  {
    hide Structural, Ws, IsMembers, ItemOk, ItemText, RecordText;
    var open, body, close :| Structural(open, OPEN_BRACE) && Structural(close, CLOSE_BRACE)
        && t == open + body + close && (body == [] || IsMembers(body));
    var x, y := StructuralParts(open, OPEN_BRACE);
    var z, w := StructuralParts(close, CLOSE_BRACE);
    if body == [] {
      WsJoin(y, z);
      i := Bracketed(x, Record(y + z, []), w);
      assert t == x + ([OPEN_BRACE] + (y + z) + [CLOSE_BRACE]) + w;
    } else {
      var members := MembersDerived(body);
      members := PadFirstMember(y, members);
      members := PadLastMember(members, z);
      WsEmpty();
      i := Bracketed(x, Record([], members), w);
      assert t == x + ([OPEN_BRACE] + (y + body + z) + [CLOSE_BRACE]) + w;
    }
  }

  function PadMember(w: Bytes, m: Member): Member { Member(w + m.before, m.name, m.after, m.item) }

  function PadMemberAfter(m: Member, w: Bytes): Member { Member(m.before, m.name, m.after, PadAfter(m.item, w)) }

  lemma PaddedMember(m: Member, w: Bytes)
    requires MemberOk(m) && Ws(w)
    ensures MemberOk(PadMember(w, m)) && PairText(PadMember(w, m)) == w + PairText(m)
    ensures MemberOk(PadMemberAfter(m, w)) && PairText(PadMemberAfter(m, w)) == PairText(m) + w
  {
    hide ItemOk, ItemText, CharsOk, QuotedText, Ws, PadAfter;
    MemberParts(m);
    WsJoin(w, m.before);
    Padded(m.item, w);
    assert PairText(m) + w == m.before + QuotedText(m.name) + m.after + [COLON] + (ItemText(m.item) + w);
  }

  lemma {:induction false} PadFirstMember(w: Bytes, members: seq<Member>) returns (padded: seq<Member>)
    requires Ws(w) && members != [] && MembersOk(members)
    ensures padded != [] && MembersOk(padded) && RecordText(padded) == w + RecordText(members)
  {
    RestMembersOk(members);
    PaddedMember(members[0], w);
    padded := [PadMember(w, members[0])] + members[1..];
    hide MemberOk, PairText, PadMember;
    assert padded[1..] == members[1..];
  }

  lemma {:induction false} PadLastMember(members: seq<Member>, w: Bytes) returns (padded: seq<Member>)
    requires Ws(w) && members != [] && MembersOk(members)
    ensures padded != [] && MembersOk(padded) && RecordText(padded) == RecordText(members) + w
    decreases |members|
  {
    hide MemberOk, PairText, PadMemberAfter;
    RestMembersOk(members);
    if |members| == 1 {
      PaddedMember(members[0], w);
      padded := [PadMemberAfter(members[0], w)];
    } else {
      var rest := PadLastMember(members[1..], w);
      padded := [members[0]] + rest;
      assert padded[1..] == rest;
      assert RecordText(members) + w == PairText(members[0]) + [COMMA] + (RecordText(members[1..]) + w);
    }
  }

  lemma {:induction false} MemberDerived(t: Bytes) returns (m: Member)
    requires IsMember(t)
    ensures MemberOk(m) && PairText(m) == t
    decreases |t|, 4
  {
    hide Structural, IsValue, IsString, ItemOk, ItemText, CharsOk, QuotedText;
    var name, colon, v :| IsString(name) && Structural(colon, COLON) && t == name + colon + v && IsValue(v);
    var x, y := StructuralParts(colon, COLON);
    var chars := StringDerived(name);
    var i := ValueDerived(v);
    Padded(i, y);
    m := Member([], chars, x, PadBefore(y, i));
    assert t == [] + name + x + [COLON] + (y + v);
  }

  lemma {:induction false} MembersDerived(t: Bytes) returns (members: seq<Member>)
    requires IsMembers(t)
    ensures members != [] && MembersOk(members) && RecordText(members) == t
    decreases |t|, 5
  {
    hide Structural, IsMember, MemberOk, PairText, RecordText;
    if IsMember(t) {
      var m := MemberDerived(t);
      members := [m];
      OneMemberText(m);
    } else {
      var v, comma, rest :| Structural(comma, COMMA) && t == v + comma + rest && IsMember(v) && IsMembers(rest);
      var x, y := StructuralParts(comma, COMMA);
      var m := MemberDerived(v);
      var more := MembersDerived(rest);
      PaddedMember(m, x);
      more := PadFirstMember(y, more);
      members := [PadMemberAfter(m, x)] + more;
      MoreMembersText(PadMemberAfter(m, x), more);
      assert t == v + x + [COMMA] + (y + rest);
    }
  }

  lemma OneMemberText(m: Member)
    requires MemberOk(m)
    ensures MembersOk([m]) && RecordText([m]) == PairText(m)
  {
    hide MemberOk;
  }

  lemma MoreMembersText(m: Member, members: seq<Member>)
    requires MemberOk(m) && members != [] && MembersOk(members)
    ensures MembersOk([m] + members) && RecordText([m] + members) == PairText(m) + [COMMA] + RecordText(members)
  {
    hide MemberOk, PairText;
    assert ([m] + members)[1..] == members;
  }

  // ---- the theorem ----

  /** A JSON text is the text of a derivation. */
  lemma TextDerived(s: Bytes) returns (i: Item)
    requires IsJson(s)
    ensures ItemOk(i) && ItemText(i) == s
  {
    hide Ws, IsValue, ItemOk, ItemText;
    var x, v, y :| Ws(x) && Ws(y) && s == x + v + y && IsValue(v);
    i := ValueDerived(v);
    Padded(i, x);
    i := PadBefore(x, i);
    Padded(i, y);
    i := PadAfter(i, y);
  }

  const BOM: Bytes := [0xEF, 0xBB, 0xBF]

  lemma ItemParsesAt(c: Bytes, b: nat, i: Item, requireNul: bool)
    requires ItemOk(i) && |c| > 0 && SkipBom(c) == b && StartsWith(c, b, ItemText(i))
    requires c == c[..b] + ItemText(i) + [NUL]
    ensures TreeOk(i.tree)
    ensures ParseBuffer(c, requireNul) == At(Meaning(i.tree, 0), b + |i.before| + |TreeText(i.tree)|)
  {
    hide TreeOk, TreeText, Ws, Skip, ParseValue, Meaning, ItemOk, StartsWith, Reads, ParseBuffer, SkipBom, ItemText;
    ItemParts(i);
    var o := b + |i.before|;
    var n := o + |TreeText(i.tree)|;
    ItemStarts(c, b, i);
    ItemSplit(c, b, i);
    Tail(c, b, i);
    TailBlank(c, n, i.after);
    WsNoNumber(c, n, i.after);
    TreeRead(c, o, i.tree, 0);
    Finish(c, b, o, i.tree, requireNul);
  }

  lemma Tail(c: Bytes, b: nat, i: Item)
    requires b <= |c| && c == c[..b] + ItemText(i) + [NUL]
    ensures var n := b + |i.before| + |TreeText(i.tree)|; n < |c| && c[n..] == i.after + [NUL]
  {
    hide TreeText;
  }

  /** Reading the text of a derivation gives what it denotes, also after a byte order mark, and also when a terminating
      NUL is required. */
  lemma ItemParses(i: Item, bom: Bytes, requireNul: bool)
    requires ItemOk(i) && (bom == [] || bom == BOM)
    ensures TreeOk(i.tree)
    ensures Parse(bom + ItemText(i), requireNul) == At(Meaning(i.tree, 0), |bom| + |i.before| + |TreeText(i.tree)|)
  {
    hide TreeOk, TreeText, Meaning, ItemOk, StartsWith, ParseBuffer, SkipBom, ItemText;
    var c := bom + ItemText(i) + [NUL];
    Whole(bom, ItemText(i));
    FirstByte(c, bom, i);
    assert c[..|bom|] == bom;
    ItemParsesAt(c, |bom|, i, requireNul);
  }

  lemma Whole(bom: Bytes, s: Bytes)
    ensures StartsWith(bom + s + [NUL], |bom|, s)
  {
    assert (bom + s + [NUL])[|bom|..|bom| + |s|] == s;
  }

  /** No text of the grammar starts with a byte order mark itself. */
  lemma FirstByte(c: Bytes, bom: Bytes, i: Item)
    requires ItemOk(i) && c == bom + ItemText(i) + [NUL] && (bom == [] || bom == BOM)
    ensures |c| > 1 && SkipBom(c) == |bom|
  {
    hide TreeOk, TreeText;
    ItemParts(i);
    TreeStarts(i.tree);
    if bom == [] {
      if i.before != [] { assert c[0] == i.before[0]; } else { assert c[0] == TreeText(i.tree)[0]; }
    }
  }

  /** What follows the value is white space up to the NUL. */
  lemma TailBlank(c: Bytes, n: nat, w: Bytes)
    requires n < |c| && c[n..] == w + [NUL] && Ws(w)
    ensures Skip(c, n) == |c| - 1 && c[|c| - 1] == NUL && StartsWith(c, n, w)
    ensures w == [] ==> c[n] == NUL
  {
    assert c[|c| - 1] == c[n..][|w|];
    forall k | n <= k < |c| ensures c[k] <= 32 { assert c[k] == c[n..][k - n]; }
    SpaceToEnd(c, n);
    assert c[n..n + |w|] == c[n..][..|w|];
  }

  lemma {:induction false} SpaceToEnd(c: Bytes, n: nat)
    requires n <= |c| && forall k | n <= k < |c| :: c[k] <= 32
    ensures SpaceEnd(c, n) == |c|
    decreases |c| - n
  {
    if n < |c| { SpaceToEnd(c, n + 1); }
  }

  lemma Finish(c: Bytes, b: nat, o: nat, t: Tree, requireNul: bool)
    requires |c| > 0 && SkipBom(c) == b <= |c| && Skip(c, b) == o && TreeOk(t) && Reads(c, o, t, 0)
    requires var n := o + |TreeText(t)|; n < |c| && Skip(c, n) == |c| - 1 && c[|c| - 1] == NUL
    ensures ParseBuffer(c, requireNul) == At(Meaning(t, 0), o + |TreeText(t)|)
  {
    hide TreeOk, TreeText, Skip, ParseValue, Meaning;
  }

  /** Every text of the grammar is read as what its derivation denotes: the value, a refusal for a lone surrogate
      or for nesting above the limit, or a number that the model does not read. */
  lemma GrammarParses(s: Bytes, bom: Bytes, requireNul: bool) returns (i: Item)
    requires IsJson(s) && (bom == [] || bom == BOM)
    ensures ItemOk(i) && ItemText(i) == s && TreeOk(i.tree)
    ensures Parse(bom + s, requireNul) == At(Meaning(i.tree, 0), |bom| + |i.before| + |TreeText(i.tree)|)
  {
    hide TreeOk, TreeText, Meaning, ItemOk, ItemText, Parse;
    i := TextDerived(s);
    ItemParses(i, bom, requireNul);
  }
}
