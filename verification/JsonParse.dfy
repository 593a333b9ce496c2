/** The recursive-descent parser (src/utils/cJSON.c:305-383, 665-951, 1089-1129, 1147-1192, 1368-1595,
    1662-1777). The buffer's offset is an argument and a result. */
module JsonParse {
  import opened Wrappers
  import opened JsonText

  /** Success with the offset after the value; failure; or number text that is not a short integer,
      which the model does not read. */
  datatype Parsed<T> = Ok(value: T, next: nat) | Bad | Outside

  // ---- UTF-16 literals ----

  function HexValue(b: byte): Option<nat> {
    if 48 <= b <= 57 then Some(b - 48)
    else if 65 <= b <= 70 then Some(10 + b - 65)
    else if 97 <= b <= 102 then Some(10 + b - 97)
    else None
  }

  /** parse_hex4: 0 when any of the four characters is not a hexadecimal digit. */
  function ParseHex4(c: Bytes, i: nat): (h: nat)
    requires i + 4 <= |c|
    ensures h < 0x1_0000
  {
    match (HexValue(c[i]), HexValue(c[i + 1]), HexValue(c[i + 2]), HexValue(c[i + 3]))
    case (Some(x), Some(y), Some(z), Some(w)) => ((x * 16 + y) * 16 + z) * 16 + w
    case _ => 0
  }

  /** One to four bytes: section 3 of RFC 3629. */
  function Utf8(cp: nat): Bytes
    requires cp <= 0x10_FFFF
  {
    if cp < 0x80 then [cp]
    else if cp < 0x800 then [0xC0 + cp / 64, Low6(cp)]
    else if cp < 0x1_0000 then [0xE0 + cp / 4096, Low6(cp / 64), Low6(cp)]
    else [0xF0 + cp / 262144, Low6(cp / 4096), Low6(cp / 64), Low6(cp)]
  }

  /** (codepoint | 0x80) & 0xBF. */
  function Low6(cp: nat): byte { 0x80 + cp % 64 }

  /** utf16_literal_to_utf8 on the literal at i, before `end`: its length, 0 on failure, and the bytes. */
  function Utf16Literal(c: Bytes, i: nat, end: nat): (r: (nat, Bytes))
    requires i <= end <= |c|
    ensures i + r.0 <= end
  {
    if end - i < 6 then (0, [])
    else
      var first := ParseHex4(c, i + 2);
      if 0xDC00 <= first <= 0xDFFF then (0, [])
      else if 0xD800 <= first <= 0xDBFF then
        if end - (i + 6) < 6 || c[i + 6] != BACKSLASH || c[i + 7] != LOWER_U then (0, [])
        else
          var second := ParseHex4(c, i + 8);
          if second < 0xDC00 || second > 0xDFFF then (0, [])
          else (12, Utf8(0x1_0000 + first % 0x400 * 0x400 + second % 0x400))
      else (6, Utf8(first))
  }

  // ---- strings ----

  /** The first quote that is not escaped, at or after i. */
  function FindEnd(c: Bytes, i: nat): (r: Option<nat>)
    ensures r.Some? ==> i <= r.value < |c| && c[r.value] == QUOTE
    decreases |c| - i
  {
    if i >= |c| then None
    else if c[i] == QUOTE then Some(i)
    else if c[i] == BACKSLASH then (if i + 1 >= |c| then None else FindEnd(c, i + 2))
    else FindEnd(c, i + 1)
  }

  /** The character after a backslash, when it stands for a single byte. */
  function Unescaped(b: byte): Option<byte> {
    if b == 98 then Some(8)
    else if b == 102 then Some(12)
    else if b == 110 then Some(10)
    else if b == 114 then Some(13)
    else if b == 116 then Some(9)
    else if b == QUOTE || b == BACKSLASH || b == 47 then Some(b)
    else None
  }

  /** The literal from i to the closing quote at `end`, escapes resolved. */
  function Unescape(c: Bytes, i: nat, end: nat): Option<Bytes>
    requires end < |c|
    decreases |c| - i
  {
    if i >= end then Some([])
    else if c[i] != BACKSLASH then Prepend([c[i]], Unescape(c, i + 1, end))
    else if c[i + 1] == LOWER_U then
      var (n, u) := Utf16Literal(c, i, end);
      if n == 0 then None else Prepend(u, Unescape(c, i + n, end))
    else
      match Unescaped(c[i + 1])
      case Some(b) => Prepend([b], Unescape(c, i + 2, end))
      case None => None
  }

  function Prepend(a: Bytes, r: Option<Bytes>): Option<Bytes> {
    match r
    case Some(s) => Some(a + s)
    case None => None
  }

  /** What a C string holds of the bytes written to it. */
  function CString(s: Bytes): Bytes {
    if s == [] || s[0] == NUL then [] else [s[0]] + CString(s[1..])
  }

  function ParseString(c: Bytes, o: nat): (r: Parsed<Bytes>)
    requires o < |c|
    ensures r.Ok? ==> o < r.next <= |c|
  {
    if c[o] != QUOTE then Bad
    else
      match FindEnd(c, o + 1)
      case None => Bad
      case Some(end) =>
        match Unescape(c, o + 1, end)
        case None => Bad
        case Some(s) => Ok(CString(s), end + 1)
  }

  // ---- numbers ----

  /** The characters that parse_number copies for strtod: digits, + - e E and the point. */
  predicate NumberByte(b: byte) {
    IsDigit(b) || b == 43 || b == MINUS || b == 101 || b == 69 || b == 46
  }

  function RunEnd(c: Bytes, o: nat): (e: nat)
    requires o <= |c|
    ensures o <= e <= |c| && (forall i | o <= i < e :: NumberByte(c[i])) && (e < |c| ==> !NumberByte(c[e]))
    decreases |c| - o
  {
    if o < |c| && NumberByte(c[o]) then RunEnd(c, o + 1) else o
  }

  predicate AllDigits(t: Bytes) { forall i | 0 <= i < |t| :: IsDigit(t[i]) }

  function DigitsValue(t: Bytes): (n: nat)
    requires AllDigits(t)
  {
    if t == [] then 0 else DigitsValue(t[..|t| - 1]) * 10 + t[|t| - 1] - 48
  }

  /** Integers of up to 15 digits, which a double holds exactly. */
  function ParseNumber(c: Bytes, o: nat): (r: Parsed<Value>)
    requires o < |c|
    ensures r.Ok? ==> o < r.next <= |c|
  {
    var e := RunEnd(c, o);
    var t := c[o..e];
    var negative := t != [] && t[0] == MINUS;
    var d := if negative then t[1..] else t;
    if AllDigits(d) && 0 < |d| <= 15 then
      Ok(Number(if negative then 0 - DigitsValue(d) else DigitsValue(d)), e)
    else Outside
  }

  // ---- values ----

  /** buffer_skip_whitespace: at the end of the buffer it steps back onto the last byte. */
  function Skip(c: Bytes, o: nat): (r: nat)
    requires o <= |c|
    ensures o <= r <= |c| && (o < |c| ==> r < |c|)
  {
    if o == |c| then o
    else
      var e := SpaceEnd(c, o);
      if e == |c| then e - 1 else e
  }

  function SpaceEnd(c: Bytes, o: nat): (e: nat)
    requires o <= |c|
    ensures o <= e <= |c|
    decreases |c| - o
  {
    if o < |c| && c[o] <= 32 then SpaceEnd(c, o + 1) else o
  }

  predicate StartsWith(c: Bytes, o: nat, t: Bytes) {
    o + |t| <= |c| && c[o..o + |t|] == t
  }

  function ParseValue(c: Bytes, o: nat, depth: nat): (r: Parsed<Value>)
    requires o <= |c|
    ensures r.Ok? ==> o < r.next <= |c|
    decreases |c| - o, 2
  {
    if StartsWith(c, o, NULL_TEXT) then Ok(Null, o + 4)
    else if StartsWith(c, o, FALSE_TEXT) then Ok(Bool(false), o + 5)
    else if StartsWith(c, o, TRUE_TEXT) then Ok(Bool(true), o + 4)
    else if o == |c| then Bad
    else if c[o] == QUOTE then
      match ParseString(c, o)
      case Ok(s, n) => Ok(Str(s), n)
      case Bad => Bad
      case Outside => Outside
    else if c[o] == MINUS || IsDigit(c[o]) then ParseNumber(c, o)
    else if c[o] == OPEN_BRACKET then ParseArray(c, o, depth)
    else if c[o] == OPEN_BRACE then ParseObject(c, o, depth)
    else Bad
  }

  function ParseArray(c: Bytes, o: nat, depth: nat): (r: Parsed<Value>)
    requires o < |c| && c[o] == OPEN_BRACKET
    ensures r.Ok? ==> o < r.next <= |c|
    decreases |c| - o, 1
  {
    if depth >= NESTING_LIMIT then Bad
    else
      var p := Skip(c, o + 1);
      if p == |c| then Bad
      else if c[p] == CLOSE_BRACKET then Ok(Arr([]), p + 1)
      else
        match ParseItems(c, p - 1, depth + 1)
        case Ok(items, n) => if n < |c| && c[n] == CLOSE_BRACKET then Ok(Arr(items), n + 1) else Bad
        case Bad => Bad
        case Outside => Outside
  }

  /** The elements after the byte at o, which is the bracket, a space or a comma; `next` is the byte
      that ends them. */
  function ParseItems(c: Bytes, o: nat, depth: nat): (r: Parsed<seq<Value>>)
    requires o < |c|
    ensures r.Ok? ==> o < r.next <= |c|
    decreases |c| - o, 0
  {
    match ParseValue(c, Skip(c, o + 1), depth)
    case Bad => Bad
    case Outside => Outside
    case Ok(v, n) =>
      var p := Skip(c, n);
      if p < |c| && c[p] == COMMA then
        match ParseItems(c, p, depth)
        case Ok(vs, q) => Ok([v] + vs, q)
        case Bad => Bad
        case Outside => Outside
      else Ok([v], p)
  }

  function ParseObject(c: Bytes, o: nat, depth: nat): (r: Parsed<Value>)
    requires o < |c| && c[o] == OPEN_BRACE
    ensures r.Ok? ==> o < r.next <= |c|
    decreases |c| - o, 1
  {
    if depth >= NESTING_LIMIT then Bad
    else
      var p := Skip(c, o + 1);
      if p == |c| then Bad
      else if c[p] == CLOSE_BRACE then Ok(Obj([]), p + 1)
      else
        match ParseFields(c, p - 1, depth + 1)
        case Ok(fields, n) => if n < |c| && c[n] == CLOSE_BRACE then Ok(Obj(fields), n + 1) else Bad
        case Bad => Bad
        case Outside => Outside
  }

  function ParseFields(c: Bytes, o: nat, depth: nat): (r: Parsed<seq<Field>>)
    requires o < |c|
    ensures r.Ok? ==> o < r.next <= |c|
    decreases |c| - o, 0
  {
    if o + 1 == |c| then Bad
    else
      match ParseField(c, o, depth)
      case Bad => Bad
      case Outside => Outside
      case Ok(f, n) =>
        var p := Skip(c, n);
        if p < |c| && c[p] == COMMA then
          match ParseFields(c, p, depth)
          case Ok(fs, q) => Ok([f] + fs, q)
          case Bad => Bad
          case Outside => Outside
        else Ok([f], p)
  }

  /** The name, the colon and the value after the byte at o. */
  function ParseField(c: Bytes, o: nat, depth: nat): (r: Parsed<Field>)
    requires o + 1 < |c|
    ensures r.Ok? ==> o + 1 < r.next <= |c|
    decreases |c| - o - 1, 3
  {
    match ParseString(c, Skip(c, o + 1))
    case Bad => Bad
    case Outside => Outside
    case Ok(name, n) =>
      var p := Skip(c, n);
      if p == |c| || c[p] != COLON then Bad
      else
        match ParseValue(c, Skip(c, p + 1), depth)
        case Ok(v, q) => Ok(Field(name, v), q)
        case Bad => Bad
        case Outside => Outside
  }

  /** skip_utf8_bom at offset 0. */
  function SkipBom(c: Bytes): (o: nat)
    ensures o <= |c|
  {
    if |c| > 4 && c[0] == 0xEF && c[1] == 0xBB && c[2] == 0xBF then 3 else 0
  }

  /** cJSON_ParseWithLengthOpts on a non-empty buffer, without its error position. */
  function ParseBuffer(c: Bytes, requireNul: bool): (r: Parsed<Value>)
    requires |c| > 0
  {
    match ParseValue(c, Skip(c, SkipBom(c)), 0)
    case Ok(v, n) =>
      var e := Skip(c, n);
      if requireNul && (e >= |c| || c[e] != NUL) then Bad else Ok(v, n)
    case Bad => Bad
    case Outside => Outside
  }

  /** cJSON_ParseWithOpts, which parses up to and with the terminating NUL. */
  function Parse(s: Bytes, requireNul: bool): Parsed<Value> {
    ParseBuffer(s + [NUL], requireNul)
  }
}
