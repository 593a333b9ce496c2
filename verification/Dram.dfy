/** Little-endian access to the simulated RAM and the segment limits that guard it
    (the completing halves of the ports in src/memory/memory.c). */
module Dram {
  import opened Words
  import opened Control

  /** The RAM array. */
  type Ram = seq<Byte>

  /** Last valid byte addresses of the code and read-only data segments. */
  datatype Limits = Limits(text: nat, rodata: nat)

  function ByteAt(ram: Ram, i: nat): Byte {
    if i < |ram| then ram[i] else 0
  }

  function HalfAt(ram: Ram, i: nat): Word {
    ByteAt(ram, i) as Word | ((ByteAt(ram, i + 1) as Word) << 8)
  }

  function WordAt(ram: Ram, i: nat): Word {
    HalfAt(ram, i) | (HalfAt(ram, i + 2) << 16)
  }

  function SetByte(ram: Ram, i: nat, b: Byte): (r: Ram)
    ensures |r| == |ram|
    ensures forall j: nat {:trigger ByteAt(r, j)} :: j != i ==> ByteAt(r, j) == ByteAt(ram, j)
    ensures i < |ram| ==> ByteAt(r, i) == b
  {
    if i < |ram| then ram[i := b] else ram
  }

  predicate FetchAllowed(limits: Limits, addr: nat) {
    addr <= limits.text && addr % 4 == 0
  }

  predicate LoadAllowed(ram: Ram, addr: nat, op: LoadOp) {
    addr < |ram|
    && match op
       case LoadByte => true
       case LoadByteUnsigned => true
       case LoadHalf => addr % 2 == 0
       case LoadHalfUnsigned => addr % 2 == 0
       case LoadWord => addr % 4 == 0
  }

  predicate StoreAllowed(limits: Limits, ram: Ram, addr: nat, op: StoreOp) {
    limits.text < addr && limits.rodata < addr < |ram|
    && match op
       case StoreByte => true
       case StoreHalf => addr % 2 == 0
       case StoreWord => addr % 4 == 0
  }

  function SignExtendByte(b: Word): Word {
    if b & 0x80 != 0 then b | 0xFFFF_FF00 else b
  }

  function SignExtendHalf(h: Word): Word {
    if h & 0x8000 != 0 then h | 0xFFFF_0000 else h
  }

  function LoadValue(ram: Ram, addr: nat, op: LoadOp): Word {
    match op
    case LoadByte => SignExtendByte(ByteAt(ram, addr) as Word)
    case LoadByteUnsigned => ByteAt(ram, addr) as Word
    case LoadHalf => SignExtendHalf(HalfAt(ram, addr))
    case LoadHalfUnsigned => HalfAt(ram, addr)
    case LoadWord => WordAt(ram, addr)
  }

  function ByteOf(w: Word, shift: bv6): Byte
    requires shift <= 24
  {
    ((w >> shift) & 0xFF) as Byte
  }

  function SetHalf(ram: Ram, i: nat, w: Word): (r: Ram)
    ensures |r| == |ram|
  {
    SetByte(SetByte(ram, i, ByteOf(w, 0)), i + 1, ByteOf(w, 8))
  }

  function StoreValue(ram: Ram, addr: nat, data: Word, op: StoreOp): (r: Ram)
    ensures |r| == |ram|
    ensures forall j: nat {:trigger ByteAt(r, j)} :: j < addr ==> ByteAt(r, j) == ByteAt(ram, j)
  {
    match op
    case StoreByte => SetByte(ram, addr, ByteOf(data, 0))
    case StoreHalf => SetHalf(ram, addr, data)
    case StoreWord => SetHalf(SetHalf(ram, addr, data), addr + 2, data >> 16)
  }

  /** The text limit is the last byte of an instruction word. */
  predicate WordAlignedText(limits: Limits) {
    limits.text % 4 == 3
  }

  /** An allowed store never changes an instruction word. */
  lemma StoreKeepsText(limits: Limits, ram: Ram, addr: nat, data: Word, op: StoreOp, pc: nat)
    requires WordAlignedText(limits) && StoreAllowed(limits, ram, addr, op) && FetchAllowed(limits, pc)
    ensures WordAt(StoreValue(ram, addr, data, op), pc) == WordAt(ram, pc)
  {
    assert pc + 3 <= limits.text;
  }

  /** Joining the bytes of a word gives the word back. */
  lemma JoinBytes(w: Word)
    ensures (ByteOf(w, 0) as Word | ((ByteOf(w, 8) as Word) << 8)) == w & 0xFFFF
    ensures (w & 0xFFFF) | ((w >> 16) << 16) == w
  {
  }

  lemma SetThenHalf(ram: Ram, i: nat, w: Word)
    requires i + 1 < |ram|
    ensures HalfAt(SetHalf(ram, i, w), i) == w & 0xFFFF
  {
    JoinBytes(w);
  }

  /** Writing the upper half leaves the lower one alone. */
  lemma SetThenLowerHalf(ram: Ram, i: nat, w: Word)
    ensures HalfAt(SetHalf(ram, i + 2, w), i) == HalfAt(ram, i)
  {
  }

  lemma SplitWord(w: Word)
    ensures (w & 0xFFFF) | (((w >> 16) & 0xFFFF) << 16) == w
  {
  }

  /** What a store writes, a load of the same width reads back: its low bits, extended by zeros or by
      the sign, which shifting up and arithmetically down again gives. */
  lemma StoreThenLoad(ram: Ram, addr: nat, data: Word)
    requires addr + 3 < |ram|
    ensures LoadValue(StoreValue(ram, addr, data, StoreWord), addr, LoadWord) == data
    ensures LoadValue(StoreValue(ram, addr, data, StoreHalf), addr, LoadHalfUnsigned) == data & 0xFFFF
    ensures LoadValue(StoreValue(ram, addr, data, StoreByte), addr, LoadByteUnsigned) == data & 0xFF
    ensures LoadValue(StoreValue(ram, addr, data, StoreHalf), addr, LoadHalf) == ShiftRightArithmetic(data << 16, 16)
    ensures LoadValue(StoreValue(ram, addr, data, StoreByte), addr, LoadByte) == ShiftRightArithmetic(data << 24, 24)
  {
    StoreThenLoadWord(ram, addr, data);
    SetThenHalf(ram, addr, data);
    assert ByteAt(SetByte(ram, addr, ByteOf(data, 0)), addr) == ByteOf(data, 0);
    ByteOfLow(data);
    Extends(data);
    hide SignExtendByte, SignExtendHalf, ShiftRightArithmetic;
  }

  /** Sign extension of the low byte and half by shifts. */
  lemma Extends(w: Word)
    ensures SignExtendByte(w & 0xFF) == ShiftRightArithmetic(w << 24, 24)
    ensures SignExtendHalf(w & 0xFFFF) == ShiftRightArithmetic(w << 16, 16)
  {
  }

  lemma ByteOfLow(w: Word)
    ensures ByteOf(w, 0) as Word == w & 0xFF
  {
  }

  lemma StoreThenLoadWord(ram: Ram, addr: nat, data: Word)
    requires addr + 3 < |ram|
    ensures WordAt(StoreValue(ram, addr, data, StoreWord), addr) == data
  {
    var low := SetHalf(ram, addr, data);
    var hi := data >> 16;
    SetThenHalf(ram, addr, data);
    SetThenHalf(low, addr + 2, hi);
    SetThenLowerHalf(low, addr, hi);
    SplitWord(data);
  }

  // ---- byte order ----

  function ByteAsWord(b: Byte): Word { b as Word }

  /** The k-th byte of a word, the least significant first. */
  function NthByte(w: Word, k: nat): Word {
    if k == 0 then w & 0xFF else if k == 1 then (w >> 8) & 0xFF else if k == 2 then (w >> 16) & 0xFF else w >> 24
  }

  function Width(op: StoreOp): nat {
    match op
    case StoreByte => 1
    case StoreHalf => 2
    case StoreWord => 4
  }

  lemma BytesOf(w: Word)
    ensures ByteAsWord(ByteOf(w, 0)) == NthByte(w, 0) && ByteAsWord(ByteOf(w, 8)) == NthByte(w, 1)
  {
  }

  lemma UpperBytesOf(w: Word)
    ensures ByteAsWord(ByteOf(w >> 16, 0)) == NthByte(w, 2) && ByteAsWord(ByteOf(w >> 16, 8)) == NthByte(w, 3)
  {
  }

  lemma SetHalfAt(ram: Ram, i: nat, w: Word, j: nat)
    requires i + 1 < |ram|
    ensures ByteAt(SetHalf(ram, i, w), j) ==
        if j == i then ByteOf(w, 0) else if j == i + 1 then ByteOf(w, 8) else ByteAt(ram, j)
  {
    hide ByteOf;
  }

  /** A store puts the low bytes of the data at the address and after it, the least significant first, and every
      other byte stays. */
  lemma StoredBytes(ram: Ram, addr: nat, data: Word, op: StoreOp, j: nat)
    requires addr + Width(op) <= |ram|
    ensures LoadValue(StoreValue(ram, addr, data, op), j, LoadByteUnsigned) ==
        if addr <= j < addr + Width(op) then NthByte(data, j - addr) else LoadValue(ram, j, LoadByteUnsigned)
  {
    hide ByteOf, NthByte, SetHalf, SetByte, ByteAt, ByteAsWord;
    BytesOf(data);
    UpperBytesOf(data);
    LoadedByte(ram, j);
    LoadedByte(StoreValue(ram, addr, data, op), j);
    match op
    case StoreByte => SetByteAt(ram, addr, ByteOf(data, 0), j);
    case StoreHalf => SetHalfAt(ram, addr, data, j);
    case StoreWord =>
      SetHalfAt(ram, addr, data, j);
      SetHalfAt(SetHalf(ram, addr, data), addr + 2, data >> 16, j);
  }

  lemma LoadedByte(ram: Ram, j: nat)
    ensures LoadValue(ram, j, LoadByteUnsigned) == ByteAsWord(ByteAt(ram, j))
  {
  }

  lemma SetByteAt(ram: Ram, i: nat, b: Byte, j: nat)
    requires i < |ram|
    ensures ByteAt(SetByte(ram, i, b), j) == if j == i then b else ByteAt(ram, j)
  {
  }

  function TwoBytes(a: Word, b: Word): Word { a | (b << 8) }

  function FourBytes(a: Word, b: Word, c: Word, d: Word): Word { a | (b << 8) | (c << 16) | (d << 24) }

  /** A load of a half or a word joins the bytes that lie there, the least significant first. */
  lemma LoadedBytes(ram: Ram, addr: nat)
    ensures LoadValue(ram, addr, LoadHalfUnsigned)
            == TwoBytes(LoadValue(ram, addr, LoadByteUnsigned), LoadValue(ram, addr + 1, LoadByteUnsigned))
    ensures LoadValue(ram, addr, LoadWord)
            == FourBytes(LoadValue(ram, addr, LoadByteUnsigned), LoadValue(ram, addr + 1, LoadByteUnsigned),
                         LoadValue(ram, addr + 2, LoadByteUnsigned), LoadValue(ram, addr + 3, LoadByteUnsigned))
  {
    hide HalfAt, WordAt, ByteAt, ByteAsWord, TwoBytes, FourBytes;
    LoadedByte(ram, addr);
    LoadedByte(ram, addr + 1);
    LoadedByte(ram, addr + 2);
    LoadedByte(ram, addr + 3);
    HalfIs(ram, addr);
    HalfIs(ram, addr + 2);
    WordIs(ram, addr);
    JoinHalves(ByteAsWord(ByteAt(ram, addr)), ByteAsWord(ByteAt(ram, addr + 1)), ByteAsWord(ByteAt(ram, addr + 2)),
        ByteAsWord(ByteAt(ram, addr + 3)));
  }

  lemma HalfIs(ram: Ram, i: nat)
    ensures HalfAt(ram, i) == TwoBytes(ByteAsWord(ByteAt(ram, i)), ByteAsWord(ByteAt(ram, i + 1)))
  {
  }

  function TwoHalves(a: Word, b: Word): Word { a | (b << 16) }

  lemma WordIs(ram: Ram, i: nat)
    ensures WordAt(ram, i) == TwoHalves(HalfAt(ram, i), HalfAt(ram, i + 2))
  {
  }

  lemma JoinHalves(a: Word, b: Word, c: Word, d: Word)
    ensures TwoHalves(TwoBytes(a, b), TwoBytes(c, d)) == FourBytes(a, b, c, d)
  {
  }
}
