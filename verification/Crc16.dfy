/** The Modbus CRC: the table-driven loop of the gateway against the bit-by-bit division
    of section 6.2.2 of the MODBUS over Serial Line Specification and Implementation Guide
    V1.02, and the errors the checksum detects in messages of any length. */
module Crc16 {
  // ---------------------------------------------------------------- the tables

  /** Entry k of a row of sixteen. */
  function Pick(k: bv8, e0: bv8, e1: bv8, e2: bv8, e3: bv8, e4: bv8, e5: bv8, e6: bv8, e7: bv8, e8: bv8, e9: bv8, e10: bv8, e11: bv8, e12: bv8, e13: bv8, e14: bv8, e15: bv8): bv8 {
    match k
    case 0 => e0 case 1 => e1 case 2 => e2 case 3 => e3
    case 4 => e4 case 5 => e5 case 6 => e6 case 7 => e7
    case 8 => e8 case 9 => e9 case 10 => e10 case 11 => e11
    case 12 => e12 case 13 => e13 case 14 => e14 case _ => e15
  }

  function TableHigh(i: bv8): bv8 {
    match i >> 4
    case 0x0 => Pick(i & 0xF, 0x00, 0xC1, 0x81, 0x40, 0x01, 0xC0, 0x80, 0x41, 0x01, 0xC0, 0x80, 0x41, 0x00, 0xC1, 0x81, 0x40)
    case 0x1 => Pick(i & 0xF, 0x01, 0xC0, 0x80, 0x41, 0x00, 0xC1, 0x81, 0x40, 0x00, 0xC1, 0x81, 0x40, 0x01, 0xC0, 0x80, 0x41)
    case 0x2 => Pick(i & 0xF, 0x01, 0xC0, 0x80, 0x41, 0x00, 0xC1, 0x81, 0x40, 0x00, 0xC1, 0x81, 0x40, 0x01, 0xC0, 0x80, 0x41)
    case 0x3 => Pick(i & 0xF, 0x00, 0xC1, 0x81, 0x40, 0x01, 0xC0, 0x80, 0x41, 0x01, 0xC0, 0x80, 0x41, 0x00, 0xC1, 0x81, 0x40)
    case 0x4 => Pick(i & 0xF, 0x01, 0xC0, 0x80, 0x41, 0x00, 0xC1, 0x81, 0x40, 0x00, 0xC1, 0x81, 0x40, 0x01, 0xC0, 0x80, 0x41)
    case 0x5 => Pick(i & 0xF, 0x00, 0xC1, 0x81, 0x40, 0x01, 0xC0, 0x80, 0x41, 0x01, 0xC0, 0x80, 0x41, 0x00, 0xC1, 0x81, 0x40)
    case 0x6 => Pick(i & 0xF, 0x00, 0xC1, 0x81, 0x40, 0x01, 0xC0, 0x80, 0x41, 0x01, 0xC0, 0x80, 0x41, 0x00, 0xC1, 0x81, 0x40)
    case 0x7 => Pick(i & 0xF, 0x01, 0xC0, 0x80, 0x41, 0x00, 0xC1, 0x81, 0x40, 0x00, 0xC1, 0x81, 0x40, 0x01, 0xC0, 0x80, 0x41)
    case 0x8 => Pick(i & 0xF, 0x01, 0xC0, 0x80, 0x41, 0x00, 0xC1, 0x81, 0x40, 0x00, 0xC1, 0x81, 0x40, 0x01, 0xC0, 0x80, 0x41)
    case 0x9 => Pick(i & 0xF, 0x00, 0xC1, 0x81, 0x40, 0x01, 0xC0, 0x80, 0x41, 0x01, 0xC0, 0x80, 0x41, 0x00, 0xC1, 0x81, 0x40)
    case 0xA => Pick(i & 0xF, 0x00, 0xC1, 0x81, 0x40, 0x01, 0xC0, 0x80, 0x41, 0x01, 0xC0, 0x80, 0x41, 0x00, 0xC1, 0x81, 0x40)
    case 0xB => Pick(i & 0xF, 0x01, 0xC0, 0x80, 0x41, 0x00, 0xC1, 0x81, 0x40, 0x00, 0xC1, 0x81, 0x40, 0x01, 0xC0, 0x80, 0x41)
    case 0xC => Pick(i & 0xF, 0x00, 0xC1, 0x81, 0x40, 0x01, 0xC0, 0x80, 0x41, 0x01, 0xC0, 0x80, 0x41, 0x00, 0xC1, 0x81, 0x40)
    case 0xD => Pick(i & 0xF, 0x01, 0xC0, 0x80, 0x41, 0x00, 0xC1, 0x81, 0x40, 0x00, 0xC1, 0x81, 0x40, 0x01, 0xC0, 0x80, 0x41)
    case 0xE => Pick(i & 0xF, 0x01, 0xC0, 0x80, 0x41, 0x00, 0xC1, 0x81, 0x40, 0x00, 0xC1, 0x81, 0x40, 0x01, 0xC0, 0x80, 0x41)
    case _ => Pick(i & 0xF, 0x00, 0xC1, 0x81, 0x40, 0x01, 0xC0, 0x80, 0x41, 0x01, 0xC0, 0x80, 0x41, 0x00, 0xC1, 0x81, 0x40)
  }

  function TableLow(i: bv8): bv8 {
    match i >> 4
    case 0x0 => Pick(i & 0xF, 0x00, 0xC0, 0xC1, 0x01, 0xC3, 0x03, 0x02, 0xC2, 0xC6, 0x06, 0x07, 0xC7, 0x05, 0xC5, 0xC4, 0x04)
    case 0x1 => Pick(i & 0xF, 0xCC, 0x0C, 0x0D, 0xCD, 0x0F, 0xCF, 0xCE, 0x0E, 0x0A, 0xCA, 0xCB, 0x0B, 0xC9, 0x09, 0x08, 0xC8)
    case 0x2 => Pick(i & 0xF, 0xD8, 0x18, 0x19, 0xD9, 0x1B, 0xDB, 0xDA, 0x1A, 0x1E, 0xDE, 0xDF, 0x1F, 0xDD, 0x1D, 0x1C, 0xDC)
    case 0x3 => Pick(i & 0xF, 0x14, 0xD4, 0xD5, 0x15, 0xD7, 0x17, 0x16, 0xD6, 0xD2, 0x12, 0x13, 0xD3, 0x11, 0xD1, 0xD0, 0x10)
    case 0x4 => Pick(i & 0xF, 0xF0, 0x30, 0x31, 0xF1, 0x33, 0xF3, 0xF2, 0x32, 0x36, 0xF6, 0xF7, 0x37, 0xF5, 0x35, 0x34, 0xF4)
    case 0x5 => Pick(i & 0xF, 0x3C, 0xFC, 0xFD, 0x3D, 0xFF, 0x3F, 0x3E, 0xFE, 0xFA, 0x3A, 0x3B, 0xFB, 0x39, 0xF9, 0xF8, 0x38)
    case 0x6 => Pick(i & 0xF, 0x28, 0xE8, 0xE9, 0x29, 0xEB, 0x2B, 0x2A, 0xEA, 0xEE, 0x2E, 0x2F, 0xEF, 0x2D, 0xED, 0xEC, 0x2C)
    case 0x7 => Pick(i & 0xF, 0xE4, 0x24, 0x25, 0xE5, 0x27, 0xE7, 0xE6, 0x26, 0x22, 0xE2, 0xE3, 0x23, 0xE1, 0x21, 0x20, 0xE0)
    case 0x8 => Pick(i & 0xF, 0xA0, 0x60, 0x61, 0xA1, 0x63, 0xA3, 0xA2, 0x62, 0x66, 0xA6, 0xA7, 0x67, 0xA5, 0x65, 0x64, 0xA4)
    case 0x9 => Pick(i & 0xF, 0x6C, 0xAC, 0xAD, 0x6D, 0xAF, 0x6F, 0x6E, 0xAE, 0xAA, 0x6A, 0x6B, 0xAB, 0x69, 0xA9, 0xA8, 0x68)
    case 0xA => Pick(i & 0xF, 0x78, 0xB8, 0xB9, 0x79, 0xBB, 0x7B, 0x7A, 0xBA, 0xBE, 0x7E, 0x7F, 0xBF, 0x7D, 0xBD, 0xBC, 0x7C)
    case 0xB => Pick(i & 0xF, 0xB4, 0x74, 0x75, 0xB5, 0x77, 0xB7, 0xB6, 0x76, 0x72, 0xB2, 0xB3, 0x73, 0xB1, 0x71, 0x70, 0xB0)
    case 0xC => Pick(i & 0xF, 0x50, 0x90, 0x91, 0x51, 0x93, 0x53, 0x52, 0x92, 0x96, 0x56, 0x57, 0x97, 0x55, 0x95, 0x94, 0x54)
    case 0xD => Pick(i & 0xF, 0x9C, 0x5C, 0x5D, 0x9D, 0x5F, 0x9F, 0x9E, 0x5E, 0x5A, 0x9A, 0x9B, 0x5B, 0x99, 0x59, 0x58, 0x98)
    case 0xE => Pick(i & 0xF, 0x88, 0x48, 0x49, 0x89, 0x4B, 0x8B, 0x8A, 0x4A, 0x4E, 0x8E, 0x8F, 0x4F, 0x8D, 0x4D, 0x4C, 0x8C)
    case _ => Pick(i & 0xF, 0x44, 0x84, 0x85, 0x45, 0x87, 0x47, 0x46, 0x86, 0x82, 0x42, 0x43, 0x83, 0x41, 0x81, 0x80, 0x40)
  }

  // ---------------------------------------------------------------- bit by bit

  /** One step of the division by the reflected polynomial. */
  function ShiftBit(x: bv16): bv16 {
    if x & 1 == 1 then (x >> 1) ^ 0xA001 else x >> 1
  }

  function ShiftByte(x: bv16): bv16 {
    ShiftBit(ShiftBit(ShiftBit(ShiftBit(ShiftBit(ShiftBit(ShiftBit(ShiftBit(x))))))))
  }

  /** The register after one more byte. */
  function Fold(r: bv16, b: bv8): bv16 {
    ShiftByte(r ^ (b as bv16))
  }

  /** The register after the bytes, from a given register. */
  function Register(r: bv16, bytes: seq<bv8>): bv16
    decreases |bytes|
  {
    if bytes == [] then r else Register(Fold(r, bytes[0]), bytes[1..])
  }

  function Word(high: bv8, low: bv8): bv16 {
    ((high as bv16) << 8) | (low as bv16)
  }

  function Swap(x: bv16): bv16 {
    (x << 8) | (x >> 8)
  }

  /** The checksum: the register for initial value 0xFFFF with its bytes swapped, so that
      the low byte is the one sent first. */
  function Checksum(bytes: seq<bv8>): bv16 {
    Swap(Register(0xFFFF, bytes))
  }

  // ---------------------------------------------------------------- linearity

  function Add(x: bv16, y: bv16): bv16 {
    x ^ y
  }

  predicate Low(x: bv16) {
    x & 1 == 1
  }

  function Rest(x: bv16): bv16 {
    x >> 1
  }

  lemma ShiftBitParts(x: bv16)
    ensures ShiftBit(x) == if Low(x) then Add(Rest(x), 0xA001) else Rest(x)
  {
  }

  lemma AddBits(x: bv16, y: bv16)
    ensures Rest(Add(x, y)) == Add(Rest(x), Rest(y))
    ensures Low(Add(x, y)) == (Low(x) != Low(y))
  {
  }

  lemma AddIsXor(x: bv16, y: bv16)
    ensures Add(x, y) == x ^ y
  {
  }

  lemma AddAssociates(a: bv16, b: bv16, c: bv16)
    ensures Add(Add(a, b), c) == Add(a, Add(b, c))
  {
  }

  lemma AddCommutes(a: bv16, b: bv16)
    ensures Add(a, b) == Add(b, a)
  {
  }

  lemma AddCancels(a: bv16)
    ensures Add(a, a) == 0 && Add(a, 0) == a
  {
  }

  lemma AddPolynomial(a: bv16, b: bv16, p: bv16)
    ensures Add(Add(a, p), b) == Add(Add(a, b), p)
    ensures Add(a, Add(b, p)) == Add(Add(a, b), p)
    ensures Add(Add(a, p), Add(b, p)) == Add(a, b)
  {
    hide Add;
    AddAssociates(a, p, b);
    AddAssociates(a, b, p);
    AddCommutes(p, b);
    AddAssociates(Add(a, b), p, p);
    AddAssociates(Add(a, p), b, p);
    AddCancels(p);
    AddCancels(Add(a, b));
  }

  /** The division is linear: the sum of two registers moves on as the sum of their moves. */
  lemma ShiftBitLinear(x: bv16, y: bv16)
    ensures ShiftBit(Add(x, y)) == Add(ShiftBit(x), ShiftBit(y))
  {
    hide Add, Low, Rest, ShiftBit;
    ShiftBitParts(Add(x, y));
    ShiftBitParts(x);
    ShiftBitParts(y);
    AddBits(x, y);
    AddPolynomial(Rest(x), Rest(y), 0xA001);
  }

  lemma ShiftByteLinear(x: bv16, y: bv16)
    ensures ShiftByte(Add(x, y)) == Add(ShiftByte(x), ShiftByte(y))
  {
    hide ShiftBit, Add;
    var x1, y1 := ShiftBit(x), ShiftBit(y);
    var x2, y2 := ShiftBit(x1), ShiftBit(y1);
    var x3, y3 := ShiftBit(x2), ShiftBit(y2);
    var x4, y4 := ShiftBit(x3), ShiftBit(y3);
    var x5, y5 := ShiftBit(x4), ShiftBit(y4);
    var x6, y6 := ShiftBit(x5), ShiftBit(y5);
    var x7, y7 := ShiftBit(x6), ShiftBit(y6);
    ShiftBitLinear(x, y);
    ShiftBitLinear(x1, y1);
    ShiftBitLinear(x2, y2);
    ShiftBitLinear(x3, y3);
    ShiftBitLinear(x4, y4);
    ShiftBitLinear(x5, y5);
    ShiftBitLinear(x6, y6);
    ShiftBitLinear(x7, y7);
  }

  // ---------------------------------------------------------------- the tables hold byte steps

  predicate EntryOk(i: bv8) {
    ShiftByte(i as bv16) == Word(TableLow(i), TableHigh(i))
  }

  lemma EntriesRow0(i: bv8) requires i >> 4 == 0x0 ensures EntryOk(i) {}
  lemma EntriesRow1(i: bv8) requires i >> 4 == 0x1 ensures EntryOk(i) {}
  lemma EntriesRow2(i: bv8) requires i >> 4 == 0x2 ensures EntryOk(i) {}
  lemma EntriesRow3(i: bv8) requires i >> 4 == 0x3 ensures EntryOk(i) {}
  lemma EntriesRow4(i: bv8) requires i >> 4 == 0x4 ensures EntryOk(i) {}
  lemma EntriesRow5(i: bv8) requires i >> 4 == 0x5 ensures EntryOk(i) {}
  lemma EntriesRow6(i: bv8) requires i >> 4 == 0x6 ensures EntryOk(i) {}
  lemma EntriesRow7(i: bv8) requires i >> 4 == 0x7 ensures EntryOk(i) {}
  lemma EntriesRow8(i: bv8) requires i >> 4 == 0x8 ensures EntryOk(i) {}
  lemma EntriesRow9(i: bv8) requires i >> 4 == 0x9 ensures EntryOk(i) {}
  lemma EntriesRowA(i: bv8) requires i >> 4 == 0xA ensures EntryOk(i) {}
  lemma EntriesRowB(i: bv8) requires i >> 4 == 0xB ensures EntryOk(i) {}
  lemma EntriesRowC(i: bv8) requires i >> 4 == 0xC ensures EntryOk(i) {}
  lemma EntriesRowD(i: bv8) requires i >> 4 == 0xD ensures EntryOk(i) {}
  lemma EntriesRowE(i: bv8) requires i >> 4 == 0xE ensures EntryOk(i) {}
  lemma EntriesRowF(i: bv8) requires i >> 4 == 0xF ensures EntryOk(i) {}

  /** Every entry of the two tables is eight bit steps from its index. */
  lemma TablesHoldByteSteps(i: bv8)
    ensures EntryOk(i)
  {
    hide EntryOk;
    match i >> 4 {
      case 0x0 => EntriesRow0(i);
      case 0x1 => EntriesRow1(i);
      case 0x2 => EntriesRow2(i);
      case 0x3 => EntriesRow3(i);
      case 0x4 => EntriesRow4(i);
      case 0x5 => EntriesRow5(i);
      case 0x6 => EntriesRow6(i);
      case 0x7 => EntriesRow7(i);
      case 0x8 => EntriesRow8(i);
      case 0x9 => EntriesRow9(i);
      case 0xA => EntriesRowA(i);
      case 0xB => EntriesRowB(i);
      case 0xC => EntriesRowC(i);
      case 0xD => EntriesRowD(i);
      case 0xE => EntriesRowE(i);
      case _ => EntriesRowF(i);
    }
  }

  lemma ShiftHighByte(high: bv8)
    ensures ShiftByte((high as bv16) << 8) == high as bv16
  {
  }

  lemma WordParts(high: bv8, low: bv8, b: bv8)
    ensures Word(high, low) ^ (b as bv16) == Add((high as bv16) << 8, (low ^ b) as bv16)
  {
  }

  /** Only the low byte of the register decides what is folded in. */
  lemma FoldWord(high: bv8, low: bv8, b: bv8)
    ensures Fold(Word(high, low), b) == (high as bv16) ^ ShiftByte((low ^ b) as bv16)
  {
    hide ShiftByte, Word;
    WordParts(high, low, b);
    ShiftByteLinear((high as bv16) << 8, (low ^ b) as bv16);
    ShiftHighByte(high);
    AddIsXor(high as bv16, ShiftByte((low ^ b) as bv16));
  }

  lemma WordXor(a: bv8, high: bv8, low: bv8)
    ensures (a as bv16) ^ Word(high, low) == Word(high, a ^ low)
  {
  }

  lemma Refold(lo: bv8, hi: bv8, crcH: bv8, crcL: bv8, b: bv8)
    requires ShiftByte((crcH ^ b) as bv16) == Word(lo, hi)
    ensures Word(lo, crcL ^ hi) == Fold(Word(crcL, crcH), b)
  {
    hide Fold, ShiftByte;
    FoldWord(crcL, crcH, b);
    WordXor(crcL, lo, hi);
  }

  /** One turn of the loop is one byte of the division; the source's crcH is the low byte
      of the register and its crcL the high byte. */
  lemma TableStep(crcH: bv8, crcL: bv8, b: bv8)
    ensures Word(TableLow(crcH ^ b), crcL ^ TableHigh(crcH ^ b)) == Fold(Word(crcL, crcH), b)
  {
    hide Fold;
    TablesHoldByteSteps(crcH ^ b);
    Refold(TableLow(crcH ^ b), TableHigh(crcH ^ b), crcH, crcL, b);
  }

  lemma {:induction false} RegisterAppend(r: bv16, a: seq<bv8>, b: seq<bv8>)
    ensures Register(r, a + b) == Register(Register(r, a), b)
    decreases |a|
  {
    hide Fold;
    if a == [] {
      assert a + b == b;
    } else {
      assert (a + b)[1..] == a[1..] + b;
      RegisterAppend(Fold(r, a[0]), a[1..], b);
    }
  }

  lemma RegisterNext(r: bv16, a: seq<bv8>, b: bv8)
    ensures Register(r, a + [b]) == Fold(Register(r, a), b)
  {
    hide Fold;
    RegisterAppend(r, a, [b]);
    assert [b][1..] == [];
  }

  lemma LoopStep(done: seq<bv8>, crcH: bv8, crcL: bv8, b: bv8)
    requires Word(crcL, crcH) == Register(0xFFFF, done)
    ensures Word(TableLow(crcH ^ b), crcL ^ TableHigh(crcH ^ b)) == Register(0xFFFF, done + [b])
  {
    hide Fold, TableLow, TableHigh, Register, Word;
    TableStep(crcH, crcL, b);
    RegisterNext(0xFFFF, done, b);
  }

  lemma SwapWord(high: bv8, low: bv8)
    ensures Swap(Word(high, low)) == Word(low, high)
  {
  }

  lemma RegisterNone()
    ensures Register(0xFFFF, []) == Word(0xFF, 0xFF)
  {
  }

  /** The loop of crc16 computes the checksum of the bit-by-bit division. */
  method Crc16(buf: array<bv8>, len: nat) returns (crc: bv16)
    requires len <= buf.Length
    ensures crc == Checksum(buf[..len])
  {
    hide Register, TableLow, TableHigh, Word, Swap;
    var crcH: bv8 := 0xFF;
    var crcL: bv8 := 0xFF;
    var i := 0;
    RegisterNone();
    while i < len
      invariant i <= len
      invariant Word(crcL, crcH) == Register(0xFFFF, buf[..i])
    {
      var idx := crcH ^ buf[i];
      LoopStep(buf[..i], crcH, crcL, buf[i]);
      assert buf[..i + 1] == buf[..i] + [buf[i]];
      crcH := crcL ^ TableHigh(idx);
      crcL := TableLow(idx);
      i := i + 1;
    }
    SwapWord(crcL, crcH);
    return Word(crcH, crcL);
  }

  // ---------------------------------------------------------------- what the checksum detects

  lemma SwapInjective(x: bv16, y: bv16)
    requires Swap(x) == Swap(y)
    ensures x == y
  {
  }

  lemma ZeroesRegister(r: bv16)
    ensures Fold(Fold(r, (Swap(r) >> 8) as bv8), (Swap(r) & 0xFF) as bv8) == 0
    ensures Swap(0) == 0
  {
  }

  /** A message followed by its checksum, high byte first, has checksum 0. */
  lemma ChecksumOfSealedMessage(bytes: seq<bv8>)
    ensures Checksum(bytes + [(Checksum(bytes) >> 8) as bv8] + [(Checksum(bytes) & 0xFF) as bv8]) == 0
  {
    hide Fold, Register, Swap;
    var r := Register(0xFFFF, bytes);
    var hi, lo := (Swap(r) >> 8) as bv8, (Swap(r) & 0xFF) as bv8;
    RegisterNext(0xFFFF, bytes, hi);
    RegisterNext(0xFFFF, bytes + [hi], lo);
    ZeroesRegister(r);
  }

  lemma Inverted(m: bv8)
    ensures m ^ (m ^ 0xFF) == 0xFF
  {
  }

  lemma StartDifference()
    ensures Add(0xFFFF, 0) == 0xFFFF && Fold(0xFFFF, 0xFF) == 0xFF && Fold(0xFF, 0xFF) == 0
  {
    ShiftHighByte(0xFF);
    ShiftHighByte(0);
    assert 0xFFFF ^ ((0xFF as bv8) as bv16) == ((0xFF as bv8) as bv16) << 8;
    assert 0xFF ^ ((0xFF as bv8) as bv16) == ((0 as bv8) as bv16) << 8;
  }

  lemma FirstBytes(m0: bv8, m1: bv8)
    ensures Fold(Fold(0xFFFF, m0), m1) == Fold(Fold(0, m0 ^ 0xFF), m1 ^ 0xFF)
  {
    hide Fold, Add;
    Inverted(m0);
    Inverted(m1);
    StartDifference();
    FoldDifference(0xFFFF, 0, m0, m0 ^ 0xFF);
    FoldDifference(Fold(0xFFFF, m0), Fold(0, m0 ^ 0xFF), m1, m1 ^ 0xFF);
    AddZero(Fold(Fold(0xFFFF, m0), m1), Fold(Fold(0, m0 ^ 0xFF), m1 ^ 0xFF));
  }

  /** The initial value is the complement of the first two bytes: a register that starts at 0
      with these bytes inverted ends at the same checksum. */
  lemma InitialValueInverts(m: seq<bv8>)
    requires |m| >= 2
    ensures Checksum(m) == Swap(Register(0, [m[0] ^ 0xFF, m[1] ^ 0xFF] + m[2..]))
  {
    hide Fold, Swap;
    var inverted := [m[0] ^ 0xFF, m[1] ^ 0xFF] + m[2..];
    assert m[..] == m && m[0..] == m && inverted[0..] == inverted;
    RegisterTwo(0xFFFF, m, 0);
    RegisterTwo(0, inverted, 0);
    assert inverted[2..] == m[2..];
    FirstBytes(m[0], m[1]);
  }

  lemma ZeroMovesStart()
    ensures Fold(0xFFFF, 0) != 0xFFFF && Register(0xFFFF, []) == 0xFFFF && Swap(0xFFFF) == 0xFFFF
  {
    FoldWord(0xFF, 0xFF, 0);
    TablesHoldByteSteps(0xFF);
    assert Word(0xFF, 0xFF) == 0xFFFF && (0xFF as bv8) ^ 0 == 0xFF;
    assert TableLow(0xFF) == 0x40 && TableHigh(0xFF) == 0x40;
  }

  /** An extra zero byte in front of a message is detected, and the empty message has checksum
      0xFFFF: what starting from 0 would not give. */
  lemma LeadingZeroDetected(m: seq<bv8>)
    ensures Checksum([0] + m) != Checksum(m)
    ensures Checksum([]) == 0xFFFF
  {
    hide Fold, Swap;
    ZeroMovesStart();
    assert ([0] + m)[1..] == m;
    if Checksum([0] + m) == Checksum(m) {
      SwapInjective(Register(0xFFFF, [0] + m), Register(0xFFFF, m));
      RegisterInjective(Fold(0xFFFF, 0), 0xFFFF, m);
    }
  }

  lemma ShiftInjective(x: bv16, y: bv16)
    requires ShiftByte(x) == ShiftByte(y)
    ensures x == y
  {
  }

  lemma FoldInjective(r: bv16, q: bv16, b: bv8)
    requires Fold(r, b) == Fold(q, b)
    ensures r == q
  {
    ShiftInjective(r ^ (b as bv16), q ^ (b as bv16));
  }

  /** The same bytes keep different registers different. */
  lemma {:induction false} RegisterInjective(r: bv16, q: bv16, bytes: seq<bv8>)
    requires Register(r, bytes) == Register(q, bytes)
    ensures r == q
    decreases |bytes|
  {
    hide Fold;
    if bytes != [] {
      RegisterInjective(Fold(r, bytes[0]), Fold(q, bytes[0]), bytes[1..]);
      FoldInjective(r, q, bytes[0]);
    }
  }

  /** The low table is a permutation of the bytes. */
  lemma LowTablePermutes(i: bv8, j: bv8)
    requires TableLow(i) == TableLow(j)
    ensures i == j
  {
    hide TableLow, TableHigh, ShiftByte;
    TablesHoldByteSteps(i);
    TablesHoldByteSteps(j);
    WordHigh(TableLow(i), TableHigh(i));
    WordHigh(TableLow(j), TableHigh(j));
    HighBytePermutes(i, j);
  }

  lemma WordHigh(high: bv8, low: bv8)
    ensures Word(high, low) >> 8 == high as bv16
  {
  }

  lemma HighBytePermutes(i: bv8, j: bv8)
    requires ShiftByte(i as bv16) >> 8 == ShiftByte(j as bv16) >> 8
    ensures i == j
  {
  }

  /** Two bytes span the register: different pairs lead to different registers. */
  lemma PairInjective(r: bv16, a0: bv8, a1: bv8, b0: bv8, b1: bv8)
    requires Fold(Fold(r, a0), a1) == Fold(Fold(r, b0), b1)
    ensures a0 == b0 && a1 == b1
  {
    ShiftInjective(Fold(r, a0) ^ (a1 as bv16), Fold(r, b0) ^ (b1 as bv16));
  }

  lemma RegisterSplit(r: bv16, bytes: seq<bv8>, i: nat)
    requires i <= |bytes|
    ensures Register(r, bytes) == Register(Register(r, bytes[..i]), bytes[i..])
  {
    RegisterAppend(r, bytes[..i], bytes[i..]);
    assert bytes == bytes[..i] + bytes[i..];
  }

  lemma RegisterTwo(r: bv16, bytes: seq<bv8>, i: nat)
    requires i + 2 <= |bytes|
    ensures Register(r, bytes[i..]) == Register(Fold(Fold(r, bytes[i]), bytes[i + 1]), bytes[i + 2..])
  {
    hide Fold;
    assert bytes[i..][1..] == bytes[i + 1..] && bytes[i + 1..][1..] == bytes[i + 2..];
  }

  /** Two-byte bursts: messages of one length that agree outside two adjacent bytes and
      have the same checksum are the same. */
  lemma TwoByteBurstDetected(a: seq<bv8>, b: seq<bv8>, i: nat)
    requires |a| == |b| && i + 2 <= |a|
    requires a[..i] == b[..i] && a[i + 2..] == b[i + 2..]
    requires Checksum(a) == Checksum(b)
    ensures a == b
  {
    hide Fold, Swap;
    SwapInjective(Register(0xFFFF, a), Register(0xFFFF, b));
    var r := Register(0xFFFF, a[..i]);
    RegisterSplit(0xFFFF, a, i);
    RegisterSplit(0xFFFF, b, i);
    RegisterTwo(r, a, i);
    RegisterTwo(r, b, i);
    RegisterInjective(Fold(Fold(r, a[i]), a[i + 1]), Fold(Fold(r, b[i]), b[i + 1]), a[i + 2..]);
    PairInjective(r, a[i], a[i + 1], b[i], b[i + 1]);
    assert a == a[..i] + [a[i]] + [a[i + 1]] + a[i + 2..];
    assert b == b[..i] + [b[i]] + [b[i + 1]] + b[i + 2..];
  }

  lemma Shuffle(r: bv16, q: bv16, a: bv8, b: bv8)
    ensures Add(r ^ (a as bv16), q ^ (b as bv16)) == Add(r, q) ^ ((a ^ b) as bv16)
  {
  }

  /** A difference between two registers moves on by itself. */
  lemma FoldDifference(r: bv16, q: bv16, a: bv8, b: bv8)
    ensures Add(Fold(r, a), Fold(q, b)) == Fold(Add(r, q), a ^ b)
  {
    hide ShiftByte, Add;
    ShiftByteLinear(r ^ (a as bv16), q ^ (b as bv16));
    Shuffle(r, q, a, b);
  }

  /** A burst of up to sixteen bits over three bytes, d0 without the low bits of the mask and
      d2 with none but those, never cancels itself. */
  lemma BurstSurvives(d0: bv8, d1: bv8, d2: bv8, mask: bv8)
    requires mask & (mask + 1) == 0 && d0 & mask == 0 && d2 & !mask == 0
    requires Fold(Fold(Fold(0, d0), d1), d2) == 0
    ensures d0 == 0 && d1 == 0 && d2 == 0
  {
    ShiftInjective(Fold(Fold(0, d0), d1) ^ (d2 as bv16), 0);
  }

  lemma AddZero(x: bv16, y: bv16)
    ensures Add(x, x) == 0
    ensures Add(x, y) == 0 ==> x == y
  {
  }

  lemma XorZero(x: bv8, y: bv8)
    ensures x ^ y == 0 ==> x == y
  {
  }

  lemma RegisterThree(r: bv16, bytes: seq<bv8>, i: nat)
    requires i + 3 <= |bytes|
    ensures Register(r, bytes[i..]) == Register(Fold(Fold(Fold(r, bytes[i]), bytes[i + 1]), bytes[i + 2]), bytes[i + 3..])
  {
    hide Fold;
    RegisterTwo(r, bytes, i);
    assert bytes[i + 2..][1..] == bytes[i + 3..];
  }

  lemma TripleInjective(r: bv16, a0: bv8, a1: bv8, a2: bv8, b0: bv8, b1: bv8, b2: bv8, mask: bv8)
    requires mask & (mask + 1) == 0 && (a0 ^ b0) & mask == 0 && (a2 ^ b2) & !mask == 0
    requires Fold(Fold(Fold(r, a0), a1), a2) == Fold(Fold(Fold(r, b0), b1), b2)
    ensures a0 == b0 && a1 == b1 && a2 == b2
  {
    hide Fold, Add;
    AddZero(r, r);
    AddZero(Fold(Fold(Fold(r, a0), a1), a2), Fold(Fold(Fold(r, b0), b1), b2));
    FoldDifference(r, r, a0, b0);
    FoldDifference(Fold(r, a0), Fold(r, b0), a1, b1);
    FoldDifference(Fold(Fold(r, a0), a1), Fold(Fold(r, b0), b1), a2, b2);
    BurstSurvives(a0 ^ b0, a1 ^ b1, a2 ^ b2, mask);
    XorZero(a0, b0);
    XorZero(a1, b1);
    XorZero(a2, b2);
  }

  /** Sixteen-bit bursts that straddle three bytes are detected as well: bits leave the
      serial line low bit first, so the burst ends within the low bits of the third byte
      that it skips in the first. */
  lemma SixteenBitBurstDetected(a: seq<bv8>, b: seq<bv8>, i: nat, mask: bv8)
    requires |a| == |b| && i + 3 <= |a|
    requires a[..i] == b[..i] && a[i + 3..] == b[i + 3..]
    requires mask & (mask + 1) == 0 && (a[i] ^ b[i]) & mask == 0 && (a[i + 2] ^ b[i + 2]) & !mask == 0
    requires Checksum(a) == Checksum(b)
    ensures a == b
  {
    hide Fold, Swap;
    SwapInjective(Register(0xFFFF, a), Register(0xFFFF, b));
    var r := Register(0xFFFF, a[..i]);
    RegisterSplit(0xFFFF, a, i);
    RegisterSplit(0xFFFF, b, i);
    RegisterThree(r, a, i);
    RegisterThree(r, b, i);
    RegisterInjective(Fold(Fold(Fold(r, a[i]), a[i + 1]), a[i + 2]),
                      Fold(Fold(Fold(r, b[i]), b[i + 1]), b[i + 2]), a[i + 3..]);
    TripleInjective(r, a[i], a[i + 1], a[i + 2], b[i], b[i + 1], b[i + 2], mask);
    assert a == a[..i] + [a[i]] + [a[i + 1]] + [a[i + 2]] + a[i + 3..];
    assert b == b[..i] + [b[i]] + [b[i + 1]] + [b[i + 2]] + b[i + 3..];
  }

  // ---------------------------------------------------------------- parity

  /** The number of ones among the low k bits. */
  function Ones(x: bv16, k: nat): nat {
    if k == 0 then 0 else (if Low(x) then 1 else 0) + Ones(Rest(x), k - 1)
  }

  predicate Odd(x: bv16) {
    Ones(x, 16) % 2 == 1
  }

  lemma {:induction false} OnesOfSum(x: bv16, y: bv16, k: nat)
    ensures Ones(Add(x, y), k) % 2 == (Ones(x, k) + Ones(y, k)) % 2
    decreases k
  {
    hide Low, Rest, Add;
    if k > 0 {
      AddBits(x, y);
      OnesOfSum(Rest(x), Rest(y), k - 1);
      ParityStep(Low(x), Low(y), Ones(Rest(Add(x, y)), k - 1), Ones(Rest(x), k - 1), Ones(Rest(y), k - 1));
    }
  }

  lemma ParityStep(p: bool, q: bool, sum: nat, m: nat, n: nat)
    requires sum % 2 == (m + n) % 2
    ensures ((if p != q then 1 else 0) + sum) % 2 == ((if p then 1 else 0) + m + (if q then 1 else 0) + n) % 2
  {
  }

  lemma ParityOfSum(x: bv16, y: bv16)
    ensures Odd(Add(x, y)) == (Odd(x) != Odd(y))
  {
    hide Ones, Add;
    OnesOfSum(x, y, 16);
    SumParity(Ones(x, 16), Ones(y, 16));
  }

  /** No ones beyond the low k bits. */
  predicate Fits(x: bv16, k: nat) {
    if k == 0 then x == 0 else Fits(Rest(x), k - 1)
  }

  lemma {:induction false} OnesFit(x: bv16, k: nat)
    requires Fits(x, k)
    ensures Ones(x, k + 1) == Ones(x, k)
    decreases k
  {
    if k > 0 {
      hide Low, Rest;
      OnesFit(Rest(x), k - 1);
    }
  }

  lemma RestFits(x: bv16)
    ensures Fits(Rest(x), 15)
  {
    var x1, x2, x3, x4 := x >> 1, x >> 2, x >> 3, x >> 4;
    var x5, x6, x7, x8 := x >> 5, x >> 6, x >> 7, x >> 8;
    var x9, x10, x11, x12 := x >> 9, x >> 10, x >> 11, x >> 12;
    var x13, x14, x15, x16 := x >> 13, x >> 14, x >> 15, 0 as bv16;
    assert Fits(x16, 0); assert Fits(x15, 1); assert Fits(x14, 2); assert Fits(x13, 3);
    assert Fits(x12, 4); assert Fits(x11, 5); assert Fits(x10, 6); assert Fits(x9, 7);
    assert Fits(x8, 8); assert Fits(x7, 9); assert Fits(x6, 10); assert Fits(x5, 11);
    assert Fits(x4, 12); assert Fits(x3, 13); assert Fits(x2, 14); assert Fits(x1, 15);
  }

  lemma PolynomialIsOdd()
    ensures Odd(0xA001) && !Odd(0xFFFF)
  {
    assert Ones(0x2, 2) == 1; assert Ones(0xA, 4) == 2;
    assert Ones(0x28, 6) == 2; assert Ones(0xA0, 8) == 2;
    assert Ones(0x280, 10) == 2; assert Ones(0xA00, 12) == 2;
    assert Ones(0x2800, 14) == 2; assert Ones(0xA001, 16) == 3;
    assert Ones(0x3, 2) == 2; assert Ones(0xF, 4) == 4;
    assert Ones(0x3F, 6) == 6; assert Ones(0xFF, 8) == 8;
    assert Ones(0x3FF, 10) == 10; assert Ones(0xFFF, 12) == 12;
    assert Ones(0x3FFF, 14) == 14; assert Ones(0xFFFF, 16) == 16;
  }

  lemma ShiftBitParity(x: bv16)
    ensures Odd(ShiftBit(x)) == Odd(x)
  {
    hide Add, Low, Rest, Ones, Fits, ShiftBit;
    RestFits(x);
    OnesFit(Rest(x), 15);
    PolynomialIsOdd();
    ParityOfSum(Rest(x), 0xA001);
    ShiftBitParts(x);
    OnesStep(x, 15);
  }

  lemma OnesStep(x: bv16, k: nat)
    ensures Ones(x, k + 1) == (if Low(x) then 1 else 0) + Ones(Rest(x), k)
  {
  }

  /** The division keeps the parity of the register. */
  lemma ShiftByteParity(x: bv16)
    ensures Odd(ShiftByte(x)) == Odd(x)
  {
    hide ShiftBit, Odd;
    var x1 := ShiftBit(x);
    var x2 := ShiftBit(x1);
    var x3 := ShiftBit(x2);
    var x4 := ShiftBit(x3);
    var x5 := ShiftBit(x4);
    var x6 := ShiftBit(x5);
    var x7 := ShiftBit(x6);
    ShiftBitParity(x);
    ShiftBitParity(x1);
    ShiftBitParity(x2);
    ShiftBitParity(x3);
    ShiftBitParity(x4);
    ShiftBitParity(x5);
    ShiftBitParity(x6);
    ShiftBitParity(x7);
  }

  lemma FoldParity(r: bv16, b: bv8)
    ensures Odd(Fold(r, b)) == (Odd(r) != Odd(b as bv16))
  {
    hide ShiftByte, Odd;
    ShiftByteParity(r ^ (b as bv16));
    ParityOfSum(r, b as bv16);
  }

  predicate OddByte(b: bv8) {
    Odd(b as bv16)
  }

  predicate OddMessage(bytes: seq<bv8>) {
    bytes != [] && OddByte(bytes[0]) != OddMessage(bytes[1..])
  }

  lemma {:induction false} RegisterParity(r: bv16, bytes: seq<bv8>)
    ensures Odd(Register(r, bytes)) == (Odd(r) != OddMessage(bytes))
    decreases |bytes|
  {
    hide Fold, Odd;
    if bytes != [] {
      FoldParity(r, bytes[0]);
      RegisterParity(Fold(r, bytes[0]), bytes[1..]);
    }
  }

  /** The number of bits in which two messages of one length differ. */
  function BitDistance(a: seq<bv8>, b: seq<bv8>): nat
    requires |a| == |b|
  {
    if a == [] then 0 else ByteDistance(a[0], b[0]) + BitDistance(a[1..], b[1..])
  }

  function ByteDistance(x: bv8, y: bv8): nat {
    Ones((x ^ y) as bv16, 16)
  }

  lemma ByteParity(x: bv8, y: bv8)
    ensures Odd((x ^ y) as bv16) == (Odd(x as bv16) != Odd(y as bv16))
  {
    hide Odd;
    assert (x ^ y) as bv16 == Add(x as bv16, y as bv16);
    ParityOfSum(x as bv16, y as bv16);
  }

  lemma ByteDistanceParity(x: bv8, y: bv8)
    ensures ByteDistance(x, y) % 2 == 1 <==> OddByte(x) != OddByte(y)
  {
    ByteParity(x, y);
  }

  lemma {:induction false} DistanceParity(a: seq<bv8>, b: seq<bv8>)
    requires |a| == |b|
    ensures BitDistance(a, b) % 2 == 1 <==> OddMessage(a) != OddMessage(b)
    decreases |a|
  {
    hide ByteDistance, OddByte;
    if a != [] {
      ByteDistanceParity(a[0], b[0]);
      DistanceParity(a[1..], b[1..]);
      SumParity(ByteDistance(a[0], b[0]), BitDistance(a[1..], b[1..]));
    }
  }

  lemma SumParity(m: nat, n: nat)
    ensures (m + n) % 2 == 1 <==> (m % 2 == 1) != (n % 2 == 1)
  {
  }

  /** Messages of one length with the same checksum differ in an even number of bits: every
      error in an odd number of bits is detected, wherever the bits are. */
  lemma OddErrorsDetected(a: seq<bv8>, b: seq<bv8>)
    requires |a| == |b| && Checksum(a) == Checksum(b)
    ensures BitDistance(a, b) % 2 == 0
  {
    hide Odd, Register, Swap;
    SwapInjective(Register(0xFFFF, a), Register(0xFFFF, b));
    RegisterParity(0xFFFF, a);
    RegisterParity(0xFFFF, b);
    DistanceParity(a, b);
  }
}
