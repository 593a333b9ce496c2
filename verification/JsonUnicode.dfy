/** \u escapes against section 2 of RFC 2781 and section 3 of RFC 3629 (src/utils/cJSON.c:665-820). */
module JsonUnicode {
  import opened Wrappers
  import opened JsonText
  import opened JsonParse

  /** The code points that text may hold: no surrogates. */
  predicate Scalar(cp: nat) { cp <= 0x10_FFFF && !(0xD800 <= cp <= 0xDFFF) }

  // ---- UTF-8, read back ----

  predicate Continues(b: byte) { 0x80 <= b < 0xC0 }

  /** The first character of a UTF-8 text and its length, by the table of section 3 of RFC 3629:
      overlong forms and surrogates are no characters. */
  function FirstOfUtf8(s: Bytes): Option<(nat, nat)> {
    if |s| >= 1 && s[0] < 0x80 then Some((s[0], 1))
    else if |s| >= 2 && 0xC0 <= s[0] < 0xE0 && Continues(s[1]) then
      var cp := (s[0] as int - 0xC0) * 64 + (s[1] as int - 0x80);
      if cp >= 0x80 then Some((cp, 2)) else None
    else if |s| >= 3 && 0xE0 <= s[0] < 0xF0 && Continues(s[1]) && Continues(s[2]) then
      var cp := ((s[0] as int - 0xE0) * 64 + (s[1] as int - 0x80)) * 64 + (s[2] as int - 0x80);
      if cp >= 0x800 && Scalar(cp) then Some((cp, 3)) else None
    else if |s| >= 4 && 0xF0 <= s[0] < 0xF8 && Continues(s[1]) && Continues(s[2]) && Continues(s[3]) then
      var cp := (((s[0] as int - 0xF0) * 64 + (s[1] as int - 0x80)) * 64 + (s[2] as int - 0x80)) * 64 +
          (s[3] as int - 0x80);
      if cp >= 0x1_0000 && Scalar(cp) then Some((cp, 4)) else None
    else None
  }

  lemma {:induction false} FourBytes(cp: nat)
    requires 0x1_0000 <= cp <= 0x10_FFFF
    ensures FirstOfUtf8(Utf8(cp)) == Some((cp, 4))
  {
    var a, b := cp / 64, cp / 4096;
    assert cp == a * 64 + cp % 64 && a == b * 64 + a % 64 && b == cp / 262144 * 64 + b % 64;
  }

  lemma {:induction false} ThreeBytes(cp: nat)
    requires 0x800 <= cp < 0x1_0000 && Scalar(cp)
    ensures FirstOfUtf8(Utf8(cp)) == Some((cp, 3))
  {
    var a := cp / 64;
    assert cp == a * 64 + cp % 64 && a == cp / 4096 * 64 + a % 64;
  }

  lemma {:induction false} TwoBytes(cp: nat)
    requires 0x80 <= cp < 0x800
    ensures FirstOfUtf8(Utf8(cp)) == Some((cp, 2))
  {
  }

  /** The bytes written for a code point are its UTF-8 form. */
  lemma {:induction false} Utf8Correct(cp: nat)
    requires Scalar(cp)
    ensures FirstOfUtf8(Utf8(cp)) == Some((cp, |Utf8(cp)|))
  {
    if cp >= 0x1_0000 { FourBytes(cp); }
    else if cp >= 0x800 { ThreeBytes(cp); }
    else if cp >= 0x80 { TwoBytes(cp); }
    hide Low6;
  }

  // ---- UTF-16 literals ----

  /** c[i..] spells the code unit u as \uXXXX, in either case of letters. */
  ghost predicate Spells(c: Bytes, i: nat, u: nat) {
    i + 6 <= |c| && c[i] == BACKSLASH && c[i + 1] == LOWER_U && HexSpells(c, i + 2, u)
  }

  ghost predicate IsHex(c: Bytes, i: nat)
    requires i + 4 <= |c|
  {
    forall k | i <= k < i + 4 :: HexValue(c[k]).Some?
  }

  ghost predicate HexSpells(c: Bytes, i: nat, u: nat)
    requires i + 4 <= |c|
  {
    && HexValue(c[i]).Some? && HexValue(c[i + 1]).Some? && HexValue(c[i + 2]).Some? && HexValue(c[i + 3]).Some?
    && u == ((HexValue(c[i]).value * 16 + HexValue(c[i + 1]).value) * 16 + HexValue(c[i + 2]).value) * 16 +
        HexValue(c[i + 3]).value
  }

  /** Section 2.1 of RFC 2781. */
  function High(cp: nat): nat { 0xD800 + (cp - 0x1_0000) / 0x400 }

  function LowSurrogate(cp: nat): nat { 0xDC00 + (cp - 0x1_0000) % 0x400 }

  lemma {:induction false} HexReads(c: Bytes, i: nat, u: nat)
    requires i + 4 <= |c| && HexSpells(c, i, u)
    ensures ParseHex4(c, i) == u
  {
  }

  lemma {:induction false} SpelledReads(c: Bytes, i: nat, u: nat)
    requires Spells(c, i, u)
    ensures i + 6 <= |c| && c[i] == BACKSLASH && c[i + 1] == LOWER_U && ParseHex4(c, i + 2) == u
  {
    HexReads(c, i + 2, u);
  }

  /** A code point below 0x10000 written as one literal. */
  lemma {:induction false} OneLiteral(c: Bytes, i: nat, end: nat, cp: nat)
    requires i + 6 <= end <= |c| && Scalar(cp) && cp < 0x1_0000 && Spells(c, i, cp)
    ensures Utf16Literal(c, i, end) == (6, Utf8(cp))
  {
    hide Spells, ParseHex4, Utf8;
    SpelledReads(c, i, cp);
  }

  lemma {:induction false} Halves(cp: nat)
    requires 0x1_0000 <= cp <= 0x10_FFFF
    ensures 0xD800 <= High(cp) <= 0xDBFF && 0xDC00 <= LowSurrogate(cp) <= 0xDFFF
    ensures 0x1_0000 + High(cp) % 0x400 * 0x400 + LowSurrogate(cp) % 0x400 == cp
  {
    var d := cp - 0x1_0000;
    assert High(cp) % 0x400 == d / 0x400 && LowSurrogate(cp) % 0x400 == d % 0x400;
  }

  lemma {:induction false} PairReads(c: Bytes, i: nat, end: nat, high: nat, low: nat)
    requires i + 12 <= end <= |c| && ParseHex4(c, i + 2) == high && ParseHex4(c, i + 8) == low
    requires 0xD800 <= high <= 0xDBFF && 0xDC00 <= low <= 0xDFFF && c[i + 6] == BACKSLASH && c[i + 7] == LOWER_U
    ensures var cp := 0x1_0000 + high % 0x400 * 0x400 + low % 0x400;
      cp <= 0x10_FFFF && Utf16Literal(c, i, end) == (12, Utf8(cp))
  {
    hide ParseHex4, Utf8;
  }

  /** One above written as a surrogate pair. */
  lemma {:induction false} PairOfLiterals(c: Bytes, i: nat, end: nat, cp: nat)
    requires i + 12 <= end <= |c| && 0x1_0000 <= cp <= 0x10_FFFF
    requires Spells(c, i, High(cp)) && Spells(c, i + 6, LowSurrogate(cp))
    ensures Utf16Literal(c, i, end) == (12, Utf8(cp))
  {
    hide Spells, Utf16Literal, ParseHex4, High, LowSurrogate, Utf8;
    SpelledReads(c, i, High(cp));
    SpelledReads(c, i + 6, LowSurrogate(cp));
    Halves(cp);
    PairReads(c, i, end, High(cp), LowSurrogate(cp));
  }

  ghost predicate SecondHalf(c: Bytes, i: nat, end: nat)
    requires end <= |c|
  {
    i + 6 <= end && c[i] == BACKSLASH && c[i + 1] == LOWER_U && 0xDC00 <= ParseHex4(c, i + 2) <= 0xDFFF
  }

  /** Exactly which literals are taken: the second half of a pair is checked, the digits of a single
      literal are not. Text that is not hexadecimal reads as code point 0. */
  lemma {:induction false} LiteralTaken(c: Bytes, i: nat, end: nat)
    requires i + 6 <= end <= |c| && c[i] == BACKSLASH && c[i + 1] == LOWER_U
    ensures var r := Utf16Literal(c, i, end); var first := ParseHex4(c, i + 2);
      && (r.0 == 6 <==> !(0xD800 <= first <= 0xDFFF))
      && (r.0 == 6 ==> r.1 == Utf8(first))
      && (r.0 == 12 <==> 0xD800 <= first <= 0xDBFF && SecondHalf(c, i + 6, end))
      && (!IsHex(c, i + 2) ==> first == 0 && r == (6, [NUL]))
      && (r.0 == 12 ==> IsHex(c, i + 2) && IsHex(c, i + 8))
  {
    HexOrZero(c, i + 2);
    if i + 12 <= end { HexOrZero(c, i + 8); }
    hide ParseHex4;
  }

  lemma {:induction false} HexOrZero(c: Bytes, i: nat)
    requires i + 4 <= |c|
    ensures !IsHex(c, i) ==> ParseHex4(c, i) == 0
  {
  }

  /** So a string with "\uZZZZ" is accepted, which section 7 of RFC 8259 does not allow, and what it
      holds ends there. */
  lemma {:induction false} BadDigitsAccepted()
    ensures var c := [QUOTE, 97, BACKSLASH, LOWER_U, 90, 90, 90, 90, 98, QUOTE, NUL];
      ParseBuffer(c, true) == Ok(Str([97]), 10)
  {
    var c: Bytes := [QUOTE, 97, BACKSLASH, LOWER_U, 90, 90, 90, 90, 98, QUOTE, NUL];
    assert FindEnd(c, 9) == Some(9);
    assert FindEnd(c, 4) == FindEnd(c, 5) == FindEnd(c, 6) == FindEnd(c, 7) == FindEnd(c, 8) == FindEnd(c, 9);
    assert FindEnd(c, 1) == FindEnd(c, 2) == FindEnd(c, 4);
    LiteralTaken(c, 2, 9);
    assert HexValue(c[4]).None?;
    assert c[8] == 98 && c[1] == 97;
    assert [98] + [] == [98] && [NUL] + [98] == [NUL, 98] && [97] + [NUL, 98] == [97, NUL, 98];
    assert Unescape(c, 9, 9) == Some([]);
    assert Unescape(c, 8, 9) == Some([98]);
    assert Unescape(c, 2, 9) == Some([NUL, 98]);
    assert Unescape(c, 1, 9) == Some([97, NUL, 98]);
    assert CString([NUL, 98]) == [];
    assert [97, NUL, 98][1..] == [NUL, 98] && [97] + [] == [97];
    assert CString([97, NUL, 98]) == [97];
    assert ParseString(c, 0) == Ok([97], 10);
    assert c[0] == QUOTE && SpaceEnd(c, 0) == 0 && SkipBom(c) == 0;
    assert !StartsWith(c, 0, NULL_TEXT) && !StartsWith(c, 0, FALSE_TEXT) && !StartsWith(c, 0, TRUE_TEXT) by {
      assert c[0..4][0] == QUOTE && c[0..5][0] == QUOTE;
    }
    assert ParseValue(c, 0, 0) == Ok(Str([97]), 10);
    assert SpaceEnd(c, 11) == 11 && SpaceEnd(c, 10) == 11;
  }
}
