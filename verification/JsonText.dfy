/** JSON trees and the text that the printer gives them (src/utils/cJSON.c:582-665, 975-1095,
    1416-1490, 1598-1660, 1770-1896). */
module JsonText {

  type byte = b: nat | b < 256 witness 0

  type Bytes = seq<byte>

  const NESTING_LIMIT: nat := 1000   // CJSON_NESTING_LIMIT, include/cJSON.h:137
  const INT_MAX: int := 0x7fff_ffff
  const INT_MIN: int := -0x8000_0000

  const NUL: byte := 0
  const TAB: byte := 9
  const NEWLINE: byte := 10
  const SPACE: byte := 32
  const QUOTE: byte := 34
  const COMMA: byte := 44
  const MINUS: byte := 45
  const COLON: byte := 58
  const OPEN_BRACKET: byte := 91
  const BACKSLASH: byte := 92
  const CLOSE_BRACKET: byte := 93
  const LOWER_U: byte := 117
  const OPEN_BRACE: byte := 123
  const CLOSE_BRACE: byte := 125

  const NULL_TEXT: Bytes := [110, 117, 108, 108]
  const FALSE_TEXT: Bytes := [102, 97, 108, 115, 101]
  const TRUE_TEXT: Bytes := [116, 114, 117, 101]

  datatype Value =
    | Null
    | Bool(b: bool)
    | Number(n: int)
    | Str(s: Bytes)
    | Arr(items: seq<Value>)
    | Obj(fields: seq<Field>)

  datatype Field = Field(name: Bytes, value: Value)

  predicate IsDigit(b: byte) { 48 <= b <= 57 }

  // ---- strings ----

  function HexDigit(d: nat): byte
    requires d < 16
  {
    if d < 10 then 48 + d else 97 + d - 10
  }

  /** print_string_ptr on one byte. */
  function Escape(b: byte): Bytes {
    if b == QUOTE then [BACKSLASH, QUOTE]
    else if b == BACKSLASH then [BACKSLASH, BACKSLASH]
    else if b == 8 then [BACKSLASH, 98]
    else if b == 12 then [BACKSLASH, 102]
    else if b == 10 then [BACKSLASH, 110]
    else if b == 13 then [BACKSLASH, 114]
    else if b == 9 then [BACKSLASH, 116]
    else if b < 32 then [BACKSLASH, LOWER_U, 48, 48, HexDigit(b / 16), HexDigit(b % 16)]
    else [b]
  }

  function Escapes(s: Bytes): Bytes {
    if s == [] then [] else Escape(s[0]) + Escapes(s[1..])
  }

  function StringText(s: Bytes): Bytes { [QUOTE] + Escapes(s) + [QUOTE] }

  // ---- numbers ----

  function Digits(n: nat): Bytes {
    if n < 10 then [48 + n] else Digits(n / 10) + [48 + n % 10]
  }

  /** %d. */
  function NumberText(n: int): Bytes {
    if n < 0 then [MINUS] + Digits(-n) else Digits(n)
  }

  // ---- values ----

  function Tabs(n: nat): (t: Bytes)
    ensures |t| == n && forall i | 0 <= i < n :: t[i] == TAB
  {
    seq(n, _ => TAB)
  }

  /** The text of a value at the given nesting depth. */
  function Text(v: Value, format: bool, depth: nat): Bytes {
    match v
    case Null => NULL_TEXT
    case Bool(b) => if b then TRUE_TEXT else FALSE_TEXT
    case Number(n) => NumberText(n)
    case Str(s) => StringText(s)
    case Arr(items) => [OPEN_BRACKET] + ItemsText(items, format, depth + 1) + [CLOSE_BRACKET]
    case Obj(fields) =>
      [OPEN_BRACE] + (if format then [NEWLINE] else []) + FieldsText(fields, format, depth + 1)
      + (if format then Tabs(depth) else []) + [CLOSE_BRACE]
  }

  /** Elements, with a comma after each but the last. */
  function ItemsText(items: seq<Value>, format: bool, depth: nat): Bytes {
    if items == [] then []
    else Text(items[0], format, depth) + AfterItem(|items| > 1, format) + ItemsText(items[1..], format, depth)
  }

  function AfterItem(more: bool, format: bool): Bytes {
    if !more then [] else if format then [COMMA, SPACE] else [COMMA]
  }

  function FieldsText(fields: seq<Field>, format: bool, depth: nat): Bytes {
    if fields == [] then []
    else FieldText(fields[0], format, depth) + AfterField(|fields| > 1, format) + FieldsText(fields[1..], format, depth)
  }

  function FieldText(f: Field, format: bool, depth: nat): Bytes {
    (if format then Tabs(depth) else []) + StringText(f.name) + (if format then [COLON, TAB] else [COLON]) +
        Text(f.value, format, depth)
  }

  function AfterField(more: bool, format: bool): Bytes {
    (if more then [COMMA] else []) + if format then [NEWLINE] else []
  }

  // ---- the trees that can be printed ----

  ghost predicate NulFree(s: Bytes) { forall i | 0 <= i < |s| :: s[i] != NUL }

  /** Strings are C strings, numbers are 32-bit integers, and nesting stays below the limit. */
  ghost predicate Printable(v: Value, depth: nat) {
    match v
    case Null => true
    case Bool(_) => true
    case Number(n) => INT_MIN <= n <= INT_MAX
    case Str(s) => NulFree(s)
    case Arr(items) => depth < NESTING_LIMIT && forall i | 0 <= i < |items| :: Printable(items[i], depth + 1)
    case Obj(fields) => depth < NESTING_LIMIT && forall i | 0 <= i < |fields| ::
      NulFree(fields[i].name) && Printable(fields[i].value, depth + 1)
  }
}
