/** The texts of RFC 8259 with their derivations, and what each of them denotes. */
module JsonSyntax {
  import opened Wrappers
  import opened JsonText
  import opened JsonGrammar
  import JsonParse
  import JsonUnicode

  // ---- derivations ----

  /** A character as it is, after a backslash, or as \u and four digits. */
  datatype Char = Plain(b: byte) | Escaped(e: byte) | Unit(x: byte, y: byte, z: byte, w: byte)

  datatype Tree =
    | NullWord
    | FalseWord
    | TrueWord
    | Numeral(minus: bool, digits: Bytes, frac: Bytes, exp: Bytes)
    | Quoted(chars: seq<Char>)
    | List(blank: Bytes, items: seq<Item>)
    | Record(blank: Bytes, members: seq<Member>)

  /** A value between white space. */
  datatype Item = Item(before: Bytes, tree: Tree, after: Bytes)

  datatype Member = Member(before: Bytes, name: seq<Char>, after: Bytes, item: Item)

  // ---- their texts ----

  function CharText(c: Char): Bytes {
    match c
    case Plain(b) => [b]
    case Escaped(e) => [BACKSLASH, e]
    case Unit(x, y, z, w) => [BACKSLASH, LOWER_U, x, y, z, w]
  }

  function CharsText(chars: seq<Char>): Bytes {
    if chars == [] then [] else CharText(chars[0]) + CharsText(chars[1..])
  }

  function QuotedText(chars: seq<Char>): Bytes { [QUOTE] + CharsText(chars) + [QUOTE] }

  function NumeralText(minus: bool, digits: Bytes, frac: Bytes, exp: Bytes): Bytes {
    (if minus then [MINUS] else []) + digits + frac + exp
  }

  function TreeText(t: Tree): Bytes {
    match t
    case NullWord => NULL_TEXT
    case FalseWord => FALSE_TEXT
    case TrueWord => TRUE_TEXT
    case Numeral(minus, digits, frac, exp) => NumeralText(minus, digits, frac, exp)
    case Quoted(chars) => QuotedText(chars)
    case List(blank, items) => [OPEN_BRACKET] + (if items == [] then blank else ListText(items)) + [CLOSE_BRACKET]
    case Record(blank, members) =>
      [OPEN_BRACE] + (if members == [] then blank else RecordText(members)) + [CLOSE_BRACE]
  }

  function ItemText(i: Item): Bytes { i.before + TreeText(i.tree) + i.after }

  /** Elements between commas. */
  function ListText(items: seq<Item>): Bytes
    requires items != []
  {
    if |items| == 1 then ItemText(items[0]) else ItemText(items[0]) + [COMMA] + ListText(items[1..])
  }

  function PairText(m: Member): Bytes { m.before + QuotedText(m.name) + m.after + [COLON] + ItemText(m.item) }

  function RecordText(members: seq<Member>): Bytes
    requires members != []
  {
    if |members| == 1 then PairText(members[0]) else PairText(members[0]) + [COMMA] + RecordText(members[1..])
  }

  // ---- well-formed derivations ----

  predicate CharOk(c: Char) {
    match c
    case Plain(b) => b >= 32 && b != QUOTE && b != BACKSLASH
    case Escaped(e) => IsEscapable(e)
    case Unit(x, y, z, w) => IsHex(x) && IsHex(y) && IsHex(z) && IsHex(w)
  }

  ghost predicate CharsOk(chars: seq<Char>) { forall i | 0 <= i < |chars| :: CharOk(chars[i]) }

  ghost predicate TreeOk(t: Tree) {
    match t
    case NullWord => true
    case FalseWord => true
    case TrueWord => true
    case Numeral(_, digits, frac, exp) => IsInt(digits) && (frac == [] || IsFrac(frac)) && (exp == [] || IsExp(exp))
    case Quoted(chars) => CharsOk(chars)
    case List(blank, items) => Ws(blank) && ItemsOk(items)
    case Record(blank, members) => Ws(blank) && MembersOk(members)
  }

  ghost predicate ItemsOk(items: seq<Item>) { forall i | 0 <= i < |items| :: ItemOk(items[i]) }

  ghost predicate MembersOk(members: seq<Member>) { forall i | 0 <= i < |members| :: MemberOk(members[i]) }

  ghost predicate ItemOk(i: Item) { Ws(i.before) && TreeOk(i.tree) && Ws(i.after) }

  ghost predicate MemberOk(m: Member) { Ws(m.before) && CharsOk(m.name) && Ws(m.after) && ItemOk(m.item) }

  // ---- what they denote ----

  /** Section 7 of RFC 8259: the character after the backslash, and the character meant. */
  const ESCAPES: map<byte, byte> :=
    map[34 := 34, 92 := 92, 47 := 47, 98 := 8, 102 := 12, 110 := 10, 114 := 13, 116 := 9]

  function Nibble(b: byte): nat
    requires IsHex(b)
  {
    if b <= 57 then b - 48 else if b <= 70 then b - 55 else b - 87
  }

  function UnitValue(c: Char): nat
    requires c.Unit? && CharOk(c)
  {
    Nibble(c.x) * 4096 + Nibble(c.y) * 256 + Nibble(c.z) * 16 + Nibble(c.w)
  }

  predicate IsHighUnit(c: Char)
    requires CharOk(c)
  {
    c.Unit? && 0xD800 <= UnitValue(c) < 0xDC00
  }

  predicate IsLowUnit(c: Char)
    requires CharOk(c)
  {
    c.Unit? && 0xDC00 <= UnitValue(c) < 0xE000
  }

  /** The bytes of a string, or None when half of a surrogate pair stands alone. */
  function Decoded(chars: seq<Char>): Option<Bytes>
    requires CharsOk(chars)
  {
    if chars == [] then Some([])
    else
      var c := chars[0];
      assert CharOk(c);
      match c
      case Plain(b) => After([b], Decoded(chars[1..]))
      case Escaped(e) => After([ESCAPES[e]], Decoded(chars[1..]))
      case Unit(_, _, _, _) =>
        if IsLowUnit(c) then None
        else if IsHighUnit(c) then
          if |chars| > 1 && IsLowUnit(chars[1]) then
            After(JsonParse.Utf8(Joined(UnitValue(c), UnitValue(chars[1]))), Decoded(chars[2..]))
          else None
        else After(JsonParse.Utf8(UnitValue(c)), Decoded(chars[1..]))
  }

  /** Section 2.2 of RFC 2781. */
  function Joined(high: nat, low: nat): (cp: nat)
    requires 0xD800 <= high < 0xDC00 && 0xDC00 <= low < 0xE000
    ensures 0x1_0000 <= cp <= 0x10_FFFF && JsonUnicode.High(cp) == high && JsonUnicode.LowSurrogate(cp) == low
  {
    0x1_0000 + (high - 0xD800) * 0x400 + (low - 0xDC00)
  }

  function After(a: Bytes, r: Option<Bytes>): Option<Bytes> { if r.Some? then Some(a + r.value) else None }

  /** What a C string holds: the bytes before the first NUL. */
  function Held(s: Bytes): Bytes { s[..FirstNul(s)] }

  function FirstNul(s: Bytes): (i: nat)
    ensures i <= |s| && NUL !in s[..i] && (i < |s| ==> s[i] == NUL)
  {
    if s == [] || s[0] == NUL then 0 else 1 + FirstNul(s[1..])
  }

  function Power10(k: nat): nat { if k == 0 then 1 else 10 * Power10(k - 1) }

  /** The positional value, the first digit counting most. */
  function Positional(digits: Bytes): nat
    requires forall i | 0 <= i < |digits| :: IsDigit(digits[i])
  {
    if digits == [] then 0
    else
      assert IsDigit(digits[0]);
      (digits[0] - 48) * Power10(|digits| - 1) + Positional(digits[1..])
  }

  /** A value; a text that is refused; or a number that is not an integer of up to 15 digits. */
  datatype Outcome<T> = Means(value: T) | Refused | Beyond

  function Meaning(t: Tree, depth: nat): Outcome<Value>
    requires TreeOk(t)
  {
    match t
    case NullWord => Means(Null)
    case FalseWord => Means(Bool(false))
    case TrueWord => Means(Bool(true))
    case Numeral(minus, digits, frac, exp) =>
      if frac != [] || exp != [] || |digits| > 15 then Beyond
      else Means(Number(if minus then 0 - Positional(digits) else Positional(digits)))
    case Quoted(chars) =>
      (match Decoded(chars)
      case Some(s) => Means(Str(Held(s)))
      case None => Refused)
    case List(_, items) =>
      if depth >= NESTING_LIMIT then Refused
      else
        (match ListMeaning(items, depth + 1)
        case Means(vs) => Means(Arr(vs))
        case Refused => Refused
        case Beyond => Beyond)
    case Record(_, members) =>
      if depth >= NESTING_LIMIT then Refused
      else
        match RecordMeaning(members, depth + 1)
        case Means(fs) => Means(Obj(fs))
        case Refused => Refused
        case Beyond => Beyond
  }

  function ListMeaning(items: seq<Item>, depth: nat): Outcome<seq<Value>>
    requires ItemsOk(items)
  {
    if items == [] then Means([])
    else
      assert ItemOk(items[0]);
      match Meaning(items[0].tree, depth)
      case Refused => Refused
      case Beyond => Beyond
      case Means(v) =>
        match ListMeaning(items[1..], depth)
        case Refused => Refused
        case Beyond => Beyond
        case Means(vs) => Means([v] + vs)
  }

  function MemberMeaning(m: Member, depth: nat): Outcome<Field>
    requires MemberOk(m)
  {
    match Decoded(m.name)
    case None => Refused
    case Some(name) =>
      assert ItemOk(m.item);
      match Meaning(m.item.tree, depth)
      case Refused => Refused
      case Beyond => Beyond
      case Means(v) => Means(Field(Held(name), v))
  }

  function RecordMeaning(members: seq<Member>, depth: nat): Outcome<seq<Field>>
    requires MembersOk(members)
  {
    if members == [] then Means([])
    else
      match MemberMeaning(members[0], depth)
      case Refused => Refused
      case Beyond => Beyond
      case Means(f) =>
        match RecordMeaning(members[1..], depth)
        case Refused => Refused
        case Beyond => Beyond
        case Means(fs) => Means([f] + fs)
  }

  /** The printer's escape of a byte is the shortest way to write it, and the only one of that length but for the case
      of hexadecimal digits, which are lower-case. */
  lemma EscapeIsShortest(b: byte, u: Char)
    requires CharOk(u) && Decoded([u]) == Some([b])
    ensures |Escape(b)| <= |CharText(u)|
    ensures |Escape(b)| == |CharText(u)| < 6 ==> Escape(b) == CharText(u)
    ensures |Escape(b)| == 6 ==> forall k | 2 <= k < 6 :: !(65 <= Escape(b)[k] <= 70)
  {
    assert [u][1..] == [];
    assert Decoded([]) == Some([]);
    hide JsonUnicode.High, JsonUnicode.LowSurrogate;
    match u
    case Plain(c) => assert [c] + [] == [c];
    case Escaped(e) => assert [ESCAPES[e]] + [] == [ESCAPES[e]];
    case Unit(_, _, _, _) =>
  }
}
