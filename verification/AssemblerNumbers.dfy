/** Which number the digits of an operand denote (src/assembler/core/semantics_analyzer.c:11-122). */
module AssemblerNumbers {
  import opened Wrappers
  import opened Words
  import opened Alu
  import opened WordNumbers
  import opened Assembler

  // ---- digits ----

  function DigitValue(c: char): nat
    requires IsDigit(c) || IsHexLetter(c)
  {
    if IsDigit(c) then c as int - '0' as int else 10 + c as int - 'a' as int
  }

  function Power(base: nat, n: nat): nat { if n == 0 then 1 else base * Power(base, n - 1) }

  /** The positional value, the first digit counting most. */
  function Value(s: string, base: nat): nat
    requires AllHex(s)
  {
    if s == "" then 0 else DigitValue(s[0]) * Power(base, |s| - 1) + Value(s[1..], base)
  }

  lemma {:induction false} ValueSnoc(s: string, base: nat)
    requires AllHex(s) && s != ""
    ensures Value(s, base) == base * Value(s[..|s| - 1], base) + DigitValue(s[|s| - 1])
  {
    hide DigitValue;
    if |s| > 1 {
      var t := s[1..];
      var front := s[..|s| - 1];
      ValueSnoc(t, base);
      assert front[1..] == t[..|t| - 1] && t[|t| - 1] == s[|s| - 1] && front[0] == s[0];
      var d, p, v := DigitValue(s[0]), Power(base, |s| - 2), Value(t[..|t| - 1], base);
      assert Value(front, base) == d * p + v;
      Grouped(base, d, p, v);
    }
  }

  lemma Grouped(base: nat, d: nat, p: nat, v: nat)
    ensures d * (base * p) + base * v == base * (d * p + v)
  {
  }

  lemma DigitsAreWords(c: char)
    requires IsDigit(c) || IsHexLetter(c)
    ensures DigitWord(c) == AsWord(DigitValue(c))
  {
    UpTo8();
    UpTo16();
    hide AsWord;
  }

  lemma TenAndSixteen(w: Word, d: Word)
    ensures Appended(w, 10, d) == Plus(Plus(Two(Two(Two(w))), Two(w)), d)
    ensures Appended(w, 16, d) == Plus(Two(Two(Two(Two(w)))), d)
  {
    hide *;
    Doubles(w);
    Tens(w, d);
    Sixteens(w, d);
    Inner(8 * w, 2 * w);
  }

  lemma Doubles(w: Word)
    ensures Two(w) == 2 * w && Two(2 * w) == 4 * w && Two(4 * w) == 8 * w && Two(8 * w) == 16 * w
  {
  }

  lemma Tens(w: Word, d: Word)
    ensures Appended(w, 10, d) == Plus(8 * w + 2 * w, d)
  {
  }

  lemma Sixteens(w: Word, d: Word)
    ensures Appended(w, 16, d) == Plus(16 * w, d)
  {
  }

  lemma {:induction false} Shifted(v: nat, d: nat)
    ensures AsWord(10 * v + d) == Appended(AsWord(v), 10, AsWord(d))
    ensures AsWord(16 * v + d) == Appended(AsWord(v), 16, AsWord(d))
  {
    hide Plus, Appended, AsWord;
    TenAndSixteen(AsWord(v), AsWord(d));
    Sum(v, v);
    Sum(2 * v, 2 * v);
    Sum(4 * v, 4 * v);
    Sum(8 * v, 8 * v);
    Sum(8 * v, 2 * v);
    Sum(10 * v, d);
    Sum(16 * v, d);
  }

  /** atoi and strtol on digits: the positional value, modulo 2^32. */
  lemma {:induction false} NumberIsValue(s: string)
    requires AllHex(s)
    ensures AllDigits(s) ==> Number(s, 10) == AsWord(Value(s, 10))
    ensures Number(s, 16) == AsWord(Value(s, 16))
    decreases |s|
  {
    hide DigitWord, DigitValue, Appended, Plus;
    if s != "" {
      var front, c := s[..|s| - 1], s[|s| - 1];
      NumberIsValue(front);
      DigitsAreWords(c);
      ValueSnoc(s, 10);
      ValueSnoc(s, 16);
      Shifted(Value(front, 10), DigitValue(c));
      Shifted(Value(front, 16), DigitValue(c));
    }
  }

  // ---- signed numbers ----

  predicate IsNumeral(s: string) {
    var t := Unsigned(s);
    s != "" && if HasHexPrefix(t) then AllHex(t[2..]) else AllDigits(t)
  }

  function Magnitude(t: string): nat
    requires if HasHexPrefix(t) then AllHex(t[2..]) else AllDigits(t)
  {
    if HasHexPrefix(t) then Value(t[2..], 16) else Value(t, 10)
  }

  function Negated(minus: bool, n: int): int { if minus then -n else n }

  /** The number that a text denotes: decimal or hexadecimal, with a sign. */
  function IntOf(s: string): int
    requires IsNumeral(s)
  {
    Negated(s[0] == '-', Magnitude(Unsigned(s)))
  }

  lemma ReadNumberIs(s: string)
    ensures ReadNumber(s) == if IsNumeral(s) then Some(AsWord(IntOf(s))) else None
  {
    hide Number, Value, AsWord, WithSign;
    var t := Unsigned(s);
    if HasHexPrefix(t) {
      var d := t[2..];
      if AllHex(d) {
        NumberIsValue(d);
        SignIs(s, Value(d, 16));
        assert ReadHex(s) == Some(WithSign(s, Number(d, 16)));
      } else {
        assert ReadHex(s) == None;
      }
    } else if s != "" && AllDigits(t) {
      NumberIsValue(t);
      SignIs(s, Value(t, 10));
      assert ReadDec(s) == Some(WithSign(s, Number(t, 10)));
    } else {
      assert ReadDec(s) == None;
    }
  }

  lemma SignIs(s: string, n: nat)
    ensures WithSign(s, AsWord(n)) == AsWord(Negated(s != "" && s[0] == '-', n))
  {
    Opposite(n);
    hide AsWord;
  }

  lemma WithinIs(v: int, least: int, most: int)
    requires InRange(least) && InRange(most)
    ensures Between(AsWord(v), AsWord(least), AsWord(most)) <==> least <= Wrap(v) <= most
  {
    hide AsWord, SignedLess;
    WrapIs(v);
    SignedOrder(Wrap(v), least);
    SignedOrder(most, Wrap(v));
  }

  // ---- what the readers accept ----

  lemma Bounds()
    ensures AsWord(2047) == 2047 && AsWord(-2048) == 0xFFFF_F800 && AsWord(0) == 0 && AsWord(31) == 31
    ensures AsWord(1048575) == 1048575
  {
    UpTo8();
    UpTo16();
    LowPowers();
    HighPowers();
    CountedDown(2048);
    CountedDown(32);
    CountedDown(0x10_0000);
    Opposite(2048);
    hide AsWord;
  }

  predicate Denotes(s: string, least: int, most: int) { IsNumeral(s) && least <= Wrap(IntOf(s)) <= most }

  lemma CheckedIs(s: string, least: int, most: int)
    requires InRange(least) && InRange(most)
    ensures Checked(ReadNumber(s), AsWord(least), AsWord(most)) ==
        if Denotes(s, least, most) then Some(AsWord(IntOf(s))) else None
  {
    hide AsWord, ReadNumber, IsNumeral, IntOf, Between;
    ReadNumberIs(s);
    if IsNumeral(s) { WithinIs(IntOf(s), least, most); }
  }

  /** read_i, read_s and read_u. */
  lemma ImmediateRead(s: string)
    ensures ReadI(s) == if Denotes(s, -2048, 2047) then Some(AsWord(IntOf(s))) else None
    ensures ReadS(s) == if Denotes(s, 0, 31) then Some(AsWord(IntOf(s))) else None
    ensures ReadU(s) == if Denotes(s, 0, 1048575) && !(s[0] == '-' && HasHexPrefix(s[1..])) then Some(AsWord(IntOf(s)))
        else None
  {
    hide AsWord, ReadNumber, IntOf, Checked, AllHex, AllDigits;
    Bounds();
    CheckedIs(s, -2048, 2047);
    CheckedIs(s, 0, 31);
    CheckedIs(s, 0, 1048575);
  }

  predicate IsRegister(s: string) { s != "" && s[0] == 'r' && Denotes(s[1..], 0, 31) }

  function RegisterIn(s: string): RegNo
    requires IsRegister(s)
  {
    Wrap(IntOf(s[1..]))
  }

  lemma RegisterRead(s: string)
    ensures ReadR(s).Some? <==> IsRegister(s)
    ensures IsRegister(s) ==> ReadR(s) == Some(AsWord(RegisterIn(s)))
  {
    hide AsWord, ReadNumber, IsNumeral, IntOf, Checked, Wrap;
    Bounds();
    if s != "" {
      CheckedIs(s[1..], 0, 31);
      if IsRegister(s) { WrapIs(IntOf(s[1..])); }
    }
  }
  /** The register field of the word of n is n. */
  lemma FieldOfRegister(n: RegNo)
    ensures RegisterField(AsWord(n), 0) == n
  {
    hide AsWord;
    UpTo8();
    UpTo16();
    UpTo31();
    hide RegisterField;
    LowFields();
    HighFields();
  }

  lemma LowFields()
    ensures RegisterField(0, 0) == 0 && RegisterField(1, 0) == 1 && RegisterField(2, 0) == 2 && RegisterField(3, 0) == 3
    ensures RegisterField(4, 0) == 4 && RegisterField(5, 0) == 5 && RegisterField(6, 0) == 6 && RegisterField(7, 0) == 7
    ensures RegisterField(8, 0) == 8 && RegisterField(9, 0) == 9 && RegisterField(10, 0) == 10
        && RegisterField(11, 0) == 11
    ensures RegisterField(12, 0) == 12 && RegisterField(13, 0) == 13 && RegisterField(14, 0) == 14
        && RegisterField(15, 0) == 15
  {
  }

  lemma HighFields()
    ensures RegisterField(16, 0) == 16 && RegisterField(17, 0) == 17 && RegisterField(18, 0) == 18
        && RegisterField(19, 0) == 19
    ensures RegisterField(20, 0) == 20 && RegisterField(21, 0) == 21 && RegisterField(22, 0) == 22
        && RegisterField(23, 0) == 23
    ensures RegisterField(24, 0) == 24 && RegisterField(25, 0) == 25 && RegisterField(26, 0) == 26
        && RegisterField(27, 0) == 27
    ensures RegisterField(28, 0) == 28 && RegisterField(29, 0) == 29 && RegisterField(30, 0) == 30
        && RegisterField(31, 0) == 31
  {
  }

  // ---- offset(register) ----

  /** What stands before the parenthesis, and between the two. */
  function OffsetText(s: string): string { s[..IndexOf(s, '(')] }

  function BaseText(s: string): string {
    var rest := After(s, IndexOf(s, '('));
    rest[..IndexOf(rest, ')')]
  }

  function After(s: string, i: nat): string { if i < |s| then s[i + 1..] else "" }

  /** The operand is offset(register), in buffers of 32 and 8 characters. */
  predicate IsAddress(s: string) {
    && '(' in s && ')' in After(s, IndexOf(s, '(')) && |OffsetText(s)| < 32 && |BaseText(s)| < 8
    && Denotes(OffsetText(s), -2048, 2047) && IsRegister(BaseText(s))
  }

  lemma AddressRead(s: string)
    ensures ReadA(s) ==
        if IsAddress(s) then Some((AsWord(IntOf(OffsetText(s))), AsWord(RegisterIn(BaseText(s))))) else None
  {
    hide AsWord, ReadI, ReadR, IntOf, Denotes, IsRegister, RegisterIn;
    ImmediateRead(OffsetText(s));
    RegisterRead(BaseText(s));
  }

  /** However an address is written, it is read as that offset and that register. */
  lemma AddressParts(offset: string, reg: string, more: string)
    requires '(' !in offset && ')' !in reg
    ensures OffsetText(offset + "(" + reg + ")" + more) == offset && BaseText(offset + "(" + reg + ")" + more) == reg
  {
    var s := offset + "(" + reg + ")" + more;
    assert s == offset + ['('] + (reg + ")" + more);
    FirstAt(offset, '(', reg + ")" + more);
    assert After(s, |offset|) == reg + [')'] + more;
    FirstAt(reg, ')', more);
  }

  lemma {:induction false} FirstAt(before: string, c: char, more: string)
    requires c !in before
    ensures IndexOf(before + [c] + more, c) == |before|
  {
    var s := before + [c] + more;
    if before != "" {
      assert s[0] == before[0] && s[1..] == before[1..] + [c] + more;
      FirstAt(before[1..], c, more);
    }
  }
}
