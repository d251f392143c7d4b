/** Double errors: how far the bits of a message can be apart that the Modbus checksum tells
    a pair of flipped bits from none. The answer is the period of the polynomial. */
module TwoBitErrors {
  import opened Crc16

  // ---------------------------------------------------------------- the register bit by bit

  /** The byte without its low j bits. */
  function Drop(b: bv8, j: nat): bv8 {
    if j == 0 then b else Drop(b, j - 1) >> 1
  }

  predicate ByteBit(b: bv8, j: nat) {
    Drop(b, j) & 1 == 1
  }

  /** Bit k of a message, in the order in which a serial line sends it: low bit first. */
  predicate Bit(bytes: seq<bv8>, k: nat)
    requires k < 8 * |bytes|
  {
    ByteBit(bytes[k / 8], k % 8)
  }

  /** The register after one more bit. */
  function TakeBit(r: bv16, bit: bool): bv16 {
    ShiftBit(if bit then Add(r, 1) else r)
  }

  function Serial(r: bv16, bytes: seq<bv8>, k: nat): bv16
    requires k <= 8 * |bytes|
  {
    if k == 0 then r else TakeBit(Serial(r, bytes, k - 1), Bit(bytes, k - 1))
  }

  lemma LowBitApart(r: bv16, c: bv8)
    ensures r ^ (c as bv16) == Add(if c & 1 == 1 then Add(r, 1) else r, (c & 0xFE) as bv16)
  {
  }

  lemma EvenShift(c: bv8)
    ensures ShiftBit((c & 0xFE) as bv16) == (c >> 1) as bv16
  {
  }

  function Mix(r: bv16, b: bv8): bv16 {
    r ^ (b as bv16)
  }

  lemma TakeLowBit(r: bv16, c: bv8)
    ensures ShiftBit(Mix(r, c)) == Mix(TakeBit(r, c & 1 == 1), c >> 1)
  {
    hide ShiftBit, Add;
    LowBitApart(r, c);
    EvenShift(c);
    ShiftBitLinear(if c & 1 == 1 then Add(r, 1) else r, (c & 0xFE) as bv16);
    AddIsXor(TakeBit(r, c & 1 == 1), (c >> 1) as bv16);
  }

  /** The register after the low j bits of a byte. */
  function TakeByte(r: bv16, b: bv8, j: nat): bv16 {
    if j == 0 then r else TakeBit(TakeByte(r, b, j - 1), ByteBit(b, j - 1))
  }

  lemma {:induction false} StepsTakeBits(r: bv16, b: bv8, j: nat)
    ensures Power(j, Mix(r, b)) == Mix(TakeByte(r, b, j), Drop(b, j))
  {
    hide ShiftBit, TakeBit, Mix;
    if j > 0 {
      StepsTakeBits(r, b, j - 1);
      TakeLowBit(TakeByte(r, b, j - 1), Drop(b, j - 1));
    }
  }

  lemma EightSteps(x: bv16)
    ensures Power(8, x) == ShiftByte(x)
  {
    hide ShiftBit;
    assert Power(1, x) == ShiftBit(Power(0, x));
    assert Power(2, x) == ShiftBit(Power(1, x));
    assert Power(3, x) == ShiftBit(Power(2, x));
    assert Power(4, x) == ShiftBit(Power(3, x));
    assert Power(5, x) == ShiftBit(Power(4, x));
    assert Power(6, x) == ShiftBit(Power(5, x));
    assert Power(7, x) == ShiftBit(Power(6, x));
    assert Power(8, x) == ShiftBit(Power(7, x));
  }

  lemma DropAll(b: bv8)
    ensures Drop(b, 8) == 0
  {
    assert Drop(b, 1) == b >> 1;
    assert Drop(b, 2) == b >> 2;
    assert Drop(b, 3) == b >> 3;
    assert Drop(b, 4) == b >> 4;
    assert Drop(b, 5) == b >> 5;
    assert Drop(b, 6) == b >> 6;
    assert Drop(b, 7) == b >> 7;
  }

  /** A byte step takes the eight bits of the byte. */
  lemma FoldTakesBits(r: bv16, b: bv8)
    ensures Fold(r, b) == TakeByte(r, b, 8)
  {
    hide ShiftByte, Power, TakeByte, Drop;
    StepsTakeBits(r, b, 8);
    EightSteps(Mix(r, b));
    DropAll(b);
  }

  lemma {:induction false} SerialPrefix(r: bv16, bytes: seq<bv8>, b: bv8, k: nat)
    requires k <= 8 * |bytes|
    ensures Serial(r, bytes + [b], k) == Serial(r, bytes, k)
  {
    if k > 0 {
      SerialPrefix(r, bytes, b, k - 1);
      assert (bytes + [b])[(k - 1) / 8] == bytes[(k - 1) / 8];
    }
  }

  lemma {:induction false} SerialByte(r: bv16, bytes: seq<bv8>, b: bv8, j: nat)
    requires j <= 8
    ensures Serial(r, bytes + [b], 8 * |bytes| + j) == TakeByte(Serial(r, bytes, 8 * |bytes|), b, j)
  {
    hide TakeBit;
    if j == 0 {
      SerialPrefix(r, bytes, b, 8 * |bytes|);
    } else {
      SerialByte(r, bytes, b, j - 1);
      var k := 8 * |bytes| + j - 1;
      assert k / 8 == |bytes| && k % 8 == j - 1;
    }
  }

  /** The division by bytes is the division by bits. */
  lemma {:induction false} RegisterIsSerial(r: bv16, bytes: seq<bv8>)
    ensures Register(r, bytes) == Serial(r, bytes, 8 * |bytes|)
    decreases |bytes|
  {
    hide Fold, TakeBit;
    if bytes != [] {
      var n := |bytes| - 1;
      var init, b := bytes[..n], bytes[n];
      assert bytes == init + [b];
      RegisterIsSerial(r, init);
      RegisterNext(r, init, b);
      SerialByte(r, init, b, 8);
      FoldTakesBits(Register(r, init), b);
    }
  }

  // ---------------------------------------------------------------- powers of a bit step

  /** k bit steps; in terms of polynomials, multiplication by the k-th power of x. */
  function Power(k: nat, x: bv16): bv16 {
    if k == 0 then x else ShiftBit(Power(k - 1, x))
  }

  lemma {:induction false} PowerSum(j: nat, k: nat, x: bv16)
    ensures Power(j + k, x) == Power(j, Power(k, x))
  {
    if j > 0 { PowerSum(j - 1, k, x); }
  }

  lemma BitInjective(x: bv16, y: bv16)
    requires ShiftBit(x) == ShiftBit(y)
    ensures x == y
  {
  }

  lemma {:induction false} PowerInjective(k: nat, x: bv16, y: bv16)
    requires Power(k, x) == Power(k, y)
    ensures x == y
  {
    hide ShiftBit;
    if k > 0 {
      BitInjective(Power(k - 1, x), Power(k - 1, y));
      PowerInjective(k - 1, x, y);
    }
  }

  lemma {:induction false} PowerZero(k: nat)
    ensures Power(k, 0) == 0
  {
    if k > 0 { PowerZero(k - 1); }
  }

  /** How the difference of two registers moves on. */
  lemma TakeDifference(r: bv16, s: bv16, x: bool, y: bool)
    ensures Add(TakeBit(r, x), TakeBit(s, y)) == ShiftBit(if x != y then Add(Add(r, s), 1) else Add(r, s))
  {
    hide ShiftBit, Add;
    ShiftBitLinear(if x then Add(r, 1) else r, if y then Add(s, 1) else s);
    AddPolynomial(r, s, 1);
  }

  /** The messages differ in bits p and q and nowhere else. */
  ghost predicate DifferAt(a: seq<bv8>, b: seq<bv8>, p: nat, q: nat) {
    |a| == |b| && p < q < 8 * |a| &&
    forall k :: 0 <= k < 8 * |a| ==> (Bit(a, k) != Bit(b, k) <==> k == p || k == q)
  }

  /** The difference of the registers after k bits. */
  function Trace(p: nat, q: nat, k: nat): bv16
    requires p < q
  {
    if k <= p then 0
    else if k <= q then Power(k - p, 1)
    else Power(k - q, Add(Power(q - p, 1), 1))
  }

  lemma TraceStep(p: nat, q: nat, k: nat)
    requires p < q
    ensures Trace(p, q, k + 1) == ShiftBit(if k == p || k == q then Add(Trace(p, q, k), 1) else Trace(p, q, k))
  {
    assert Add(0, 1) == 1 && ShiftBit(0) == 0;
    hide ShiftBit, Add;
    assert Power(0, 1) == 1;
    assert Power(1, 1) == ShiftBit(Power(0, 1));
    var x := Add(Power(q - p, 1), 1);
    assert Power(1, x) == ShiftBit(Power(0, x));
  }

  lemma {:induction false} SerialDifference(r: bv16, a: seq<bv8>, b: seq<bv8>, p: nat, q: nat, k: nat)
    requires DifferAt(a, b, p, q) && k <= 8 * |a|
    ensures Add(Serial(r, a, k), Serial(r, b, k)) == Trace(p, q, k)
  {
    if k == 0 {
      AddZero(r, r);
    } else {
      hide ShiftBit, Add, Trace, TakeBit;
      SerialDifference(r, a, b, p, q, k - 1);
      TakeDifference(Serial(r, a, k - 1), Serial(r, b, k - 1), Bit(a, k - 1), Bit(b, k - 1));
      TraceStep(p, q, k - 1);
    }
  }

  // ---------------------------------------------------------------- the period

  /** The polynomial 1; the register keeps the highest power in its lowest bit. */
  const ONE: bv16 := 0x8000

  predicate Period(k: nat) {
    Power(k, ONE) == ONE
  }

  lemma PowersOfOne()
    ensures Power(0, ONE) == 0x8000 && Power(2, ONE) == 0x2000 && Power(4, ONE) == 0x0800 && Power(6, ONE) == 0x0200
    ensures Power(8, ONE) == 0x0080 && Power(10, ONE) == 0x0020 && Power(12, ONE) == 0x0008 && Power(14, ONE) == 0x0002
    ensures Power(16, ONE) == 0xA001 && Power(18, ONE) == 0xD801 && Power(20, ONE) == 0xC601 && Power(22, ONE) == 0xC181
    ensures Power(24, ONE) == 0xC061 && Power(26, ONE) == 0xC019 && Power(28, ONE) == 0xC007 && Power(30, ONE) == 0x6001
    ensures Power(32, ONE) == 0xE801 && Power(15, ONE) == 1
  {
    assert Power(0, ONE) == 0x8000; assert Power(1, ONE) == 0x4000; assert Power(2, ONE) == 0x2000; assert Power(3, ONE) == 0x1000;
    assert Power(4, ONE) == 0x0800; assert Power(5, ONE) == 0x0400; assert Power(6, ONE) == 0x0200; assert Power(7, ONE) == 0x0100;
    assert Power(8, ONE) == 0x0080; assert Power(9, ONE) == 0x0040; assert Power(10, ONE) == 0x0020; assert Power(11, ONE) == 0x0010;
    assert Power(12, ONE) == 0x0008; assert Power(13, ONE) == 0x0004; assert Power(14, ONE) == 0x0002; assert Power(15, ONE) == 0x0001;
    assert Power(16, ONE) == 0xA001; assert Power(17, ONE) == 0xF001; assert Power(18, ONE) == 0xD801; assert Power(19, ONE) == 0xCC01;
    assert Power(20, ONE) == 0xC601; assert Power(21, ONE) == 0xC301; assert Power(22, ONE) == 0xC181; assert Power(23, ONE) == 0xC0C1;
    assert Power(24, ONE) == 0xC061; assert Power(25, ONE) == 0xC031; assert Power(26, ONE) == 0xC019; assert Power(27, ONE) == 0xC00D;
    assert Power(28, ONE) == 0xC007; assert Power(29, ONE) == 0xC002; assert Power(30, ONE) == 0x6001; assert Power(31, ONE) == 0x9001;
    assert Power(32, ONE) == 0xE801;
  }

  /** Squaring: bit 0 of a stands for the i-th power of x, and x to the i becomes x to the 2i. */
  function SquareFrom(a: bv16, i: nat): bv16 {
    Add(if Low(a) then Power(2 * i, ONE) else 0, if i == 0 then 0 else SquareFrom(Rest(a), i - 1))
  }

  lemma AddShuffle(a: bv16, b: bv16, c: bv16, d: bv16)
    ensures Add(Add(a, b), Add(c, d)) == Add(Add(a, c), Add(b, d))
    ensures Add(a, 0) == a && Add(0, a) == a && Add(a, a) == 0
  {
  }

  lemma {:induction false} SquareLinear(a: bv16, b: bv16, i: nat)
    ensures SquareFrom(Add(a, b), i) == Add(SquareFrom(a, i), SquareFrom(b, i))
    decreases i
  {
    hide Add, Low, Rest, Power;
    AddBits(a, b);
    var x := Power(2 * i, ONE);
    AddShuffle(x, x, 0, 0);
    var a0, b0 := if Low(a) then x else 0, if Low(b) then x else 0;
    if i == 0 {
      AddShuffle(a0, 0, b0, 0);
      AddShuffle(0, 0, 0, 0);
      AddShuffle(Add(a0, b0), 0, 0, 0);
    } else {
      SquareLinear(Rest(a), Rest(b), i - 1);
      AddShuffle(a0, SquareFrom(Rest(a), i - 1), b0, SquareFrom(Rest(b), i - 1));
    }
  }

  function Twice(x: bv16): bv16 {
    ShiftBit(ShiftBit(x))
  }

  lemma TwiceLinear(x: bv16, y: bv16)
    ensures Twice(Add(x, y)) == Add(Twice(x), Twice(y)) && Twice(0) == 0
  {
    assert ShiftBit(0) == 0;
    hide Add, ShiftBit;
    ShiftBitLinear(x, y);
    ShiftBitLinear(ShiftBit(x), ShiftBit(y));
  }

  lemma PowerTwice(k: nat, x: bv16)
    ensures Power(k + 2, x) == Twice(Power(k, x))
  {
  }

  /** Raising every power by one squares to two more bit steps. */
  lemma {:induction false} SquareUp(a: bv16, i: nat)
    requires Fits(a, i + 1)
    ensures SquareFrom(a, i + 1) == Twice(SquareFrom(a, i))
    decreases i
  {
    PowerTwice(2 * i, ONE);
    var x := if Low(a) then Power(2 * i, ONE) else 0;
    if i == 0 {
      assert Rest(a) == 0 && !Low(0);
      hide Add, Low, Rest, Twice, Power;
      TwiceLinear(x, 0);
      AddShuffle(0, 0, 0, 0);
    } else {
      hide Add, Low, Rest, Twice, Power;
      SquareUp(Rest(a), i - 1);
      TwiceLinear(x, SquareFrom(Rest(a), i - 1));
    }
  }

  function Square(a: bv16): bv16 {
    SquareFrom(a, 15)
  }

  predicate Has(a: bv16, mask: bv16) {
    a & mask != 0
  }

  function Plus(a: bv16, mask: bv16, v: bv16, rest: bv16): bv16 {
    if Has(a, mask) then v ^ rest else rest
  }

  /** The square bit by bit, with the powers worked out. */
  function SquareParts(a: bv16): bv16 {
    Plus(a, 0x0001, 0x6001, Plus(a, 0x0002, 0xC007,
    Plus(a, 0x0004, 0xC019, Plus(a, 0x0008, 0xC061,
    Plus(a, 0x0010, 0xC181, Plus(a, 0x0020, 0xC601,
    Plus(a, 0x0040, 0xD801, Plus(a, 0x0080, 0xA001,
    HighParts(a)))))))))
  }

  function HighParts(a: bv16): bv16 {
    Plus(a, 0x0100, 0x0002, Plus(a, 0x0200, 0x0008,
    Plus(a, 0x0400, 0x0020, Plus(a, 0x0800, 0x0080,
    Plus(a, 0x1000, 0x0200, Plus(a, 0x2000, 0x0800,
    Plus(a, 0x4000, 0x2000, Plus(a, 0x8000, 0x8000,
    0))))))))
  }

  lemma LowByteBits(a: bv16)
    ensures Low(a >> 0) == Has(a, 0x0001) && Low(a >> 1) == Has(a, 0x0002)
    ensures Low(a >> 2) == Has(a, 0x0004) && Low(a >> 3) == Has(a, 0x0008)
    ensures Low(a >> 4) == Has(a, 0x0010) && Low(a >> 5) == Has(a, 0x0020)
    ensures Low(a >> 6) == Has(a, 0x0040) && Low(a >> 7) == Has(a, 0x0080)
    ensures Rest(a >> 0) == a >> 1 && Rest(a >> 1) == a >> 2
    ensures Rest(a >> 2) == a >> 3 && Rest(a >> 3) == a >> 4
    ensures Rest(a >> 4) == a >> 5 && Rest(a >> 5) == a >> 6
    ensures Rest(a >> 6) == a >> 7 && Rest(a >> 7) == a >> 8
  {
  }

  lemma HighByteBits(a: bv16)
    ensures Low(a >> 8) == Has(a, 0x0100) && Low(a >> 9) == Has(a, 0x0200)
    ensures Low(a >> 10) == Has(a, 0x0400) && Low(a >> 11) == Has(a, 0x0800)
    ensures Low(a >> 12) == Has(a, 0x1000) && Low(a >> 13) == Has(a, 0x2000)
    ensures Low(a >> 14) == Has(a, 0x4000) && Low(a >> 15) == Has(a, 0x8000)
    ensures Rest(a >> 8) == a >> 9 && Rest(a >> 9) == a >> 10
    ensures Rest(a >> 10) == a >> 11 && Rest(a >> 11) == a >> 12
    ensures Rest(a >> 12) == a >> 13 && Rest(a >> 13) == a >> 14
    ensures Rest(a >> 14) == a >> 15 && Rest(a >> 15) == a >> 16
  {
  }

  lemma PlusIsAdd(a: bv16, mask: bv16, v: bv16, rest: bv16)
    ensures Plus(a, mask, v, rest) == Add(if Has(a, mask) then v else 0, rest)
  {
    hide Add, Has;
    AddShuffle(rest, 0, 0, 0);
    AddIsXor(v, rest);
  }

  lemma SquareLevel(a: bv16, x: bv16, i: nat, mask: bv16, v: bv16)
    requires Low(x) == Has(a, mask) && Power(2 * i, ONE) == v
    ensures SquareFrom(x, i) == Plus(a, mask, v, if i == 0 then 0 else SquareFrom(Rest(x), i - 1))
  {
    hide Add, Low, Rest, Power, Plus, Has;
    PlusIsAdd(a, mask, v, if i == 0 then 0 else SquareFrom(Rest(x), i - 1));
  }

  lemma HighIsParts(a: bv16)
    ensures SquareFrom(a >> 8, 7) == HighParts(a)
  {
    PowersOfOne();
    HighByteBits(a);
    hide Add, Low, Rest, Power, Plus, SquareFrom, Has;
    SquareLevel(a, a >> 8, 7, 0x0100, 0x0002);
    SquareLevel(a, a >> 9, 6, 0x0200, 0x0008);
    SquareLevel(a, a >> 10, 5, 0x0400, 0x0020);
    SquareLevel(a, a >> 11, 4, 0x0800, 0x0080);
    SquareLevel(a, a >> 12, 3, 0x1000, 0x0200);
    SquareLevel(a, a >> 13, 2, 0x2000, 0x0800);
    SquareLevel(a, a >> 14, 1, 0x4000, 0x2000);
    SquareLevel(a, a >> 15, 0, 0x8000, 0x8000);
  }

  lemma SquareIsParts(a: bv16)
    ensures Square(a) == SquareParts(a)
  {
    hide SquareFrom, SquareParts;
    LowIsParts(a);
    assert a >> 0 == a;
  }

  lemma LowIsParts(a: bv16)
    ensures SquareFrom(a >> 0, 15) == SquareParts(a)
  {
    PowersOfOne();
    LowByteBits(a);
    HighIsParts(a);
    hide Add, Low, Rest, Power, Plus, SquareFrom, Has, HighParts;
    SquareLevel(a, a >> 0, 15, 0x0001, 0x6001);
    SquareLevel(a, a >> 1, 14, 0x0002, 0xC007);
    SquareLevel(a, a >> 2, 13, 0x0004, 0xC019);
    SquareLevel(a, a >> 3, 12, 0x0008, 0xC061);
    SquareLevel(a, a >> 4, 11, 0x0010, 0xC181);
    SquareLevel(a, a >> 5, 10, 0x0020, 0xC601);
    SquareLevel(a, a >> 6, 9, 0x0040, 0xD801);
    SquareLevel(a, a >> 7, 8, 0x0080, 0xA001);
  }

  lemma ConstantSquares()
    ensures Square(ONE) == ONE && Square(0xA001) == Power(32, ONE)
  {
    PowersOfOne();
    SquareIsParts(ONE);
    SquareIsParts(0xA001);
  }

  lemma SquareShift(a: bv16)
    ensures Square(ShiftBit(a)) == Twice(Square(a))
  {
    ShiftBitParts(a);
    RestFits(a);
    hide Fits, Add, Low, Rest, Twice, Power, ShiftBit;
    ConstantSquares();
    SquareUp(Rest(a), 14);
    var x := if Low(a) then Power(30, ONE) else 0;
    TwiceLinear(x, SquareFrom(Rest(a), 14));
    PowerTwice(30, ONE);
    SquareLinear(Rest(a), 0xA001, 15);
    AddShuffle(Square(Rest(a)), 0, 0, Power(32, ONE));
    AddShuffle(0, Square(Rest(a)), Power(32, ONE), 0);
    AddShuffle(Square(Rest(a)), 0, 0, 0);
    AddCommutes(Square(Rest(a)), Power(32, ONE));
  }

  /** Doubling the number of bit steps squares the register. */
  lemma {:induction false} PowerSquare(k: nat)
    ensures Power(2 * k, ONE) == Square(Power(k, ONE))
  {
    hide ShiftBit, Square;
    ConstantSquares();
    if k > 0 {
      PowerSquare(k - 1);
      SquareShift(Power(k - 1, ONE));
      PowerTwice(2 * k - 2, ONE);
    }
  }

  lemma Double(k: nat, x: bv16, y: bv16)
    requires Power(k, ONE) == x && SquareParts(x) == y
    ensures Power(2 * k, ONE) == y
  {
    hide SquareParts, Square, Power;
    PowerSquare(k);
    SquareIsParts(x);
  }

  lemma DoubleAndOne(k: nat, x: bv16, y: bv16, z: bv16)
    requires Power(k, ONE) == x && SquareParts(x) == y
    requires (if y & 1 == 1 then (y >> 1) ^ 0xA001 else y >> 1) == z
    ensures Power(2 * k + 1, ONE) == z
  {
    hide SquareParts, Square;
    Double(k, x, y);
  }

  lemma Power6()
    ensures Power(6, ONE) == 0x0200
  {
    assert Power(0, ONE) == ONE && Power(1, ONE) == 0x4000;
    hide Power;
    DoubleAndOne(1, 0x4000, 0x2000, 0x1000);
    Double(3, 0x1000, 0x0200);
  }

  lemma Power27()
    ensures Power(27, ONE) == 0xC00D
  {
    hide Power;
    Power6();
    DoubleAndOne(6, 0x0200, 0x0008, 0x0004);
    DoubleAndOne(13, 0x0004, 0xC019, 0xC00D);
  }

  lemma Power108()
    ensures Power(108, ONE) == 0xDFE1
  {
    hide Power;
    Power27();
    Double(27, 0xC00D, 0xC079);
    Double(54, 0xC079, 0xDFE1);
  }

  lemma Power217()
    ensures Power(217, ONE) == 0x3E55
  {
    hide Power;
    Power108();
    DoubleAndOne(108, 0xDFE1, 0x7CAA, 0x3E55);
  }

  lemma Power4()
    ensures Power(4, ONE) == 0x0800
  {
    assert Power(0, ONE) == ONE && Power(1, ONE) == 0x4000;
    hide Power;
    Double(1, 0x4000, 0x2000);
    Double(2, 0x2000, 0x0800);
  }

  lemma Power16()
    ensures Power(16, ONE) == 0xA001
  {
    hide Power;
    Power4();
    Double(4, 0x0800, 0x0080);
    Double(8, 0x0080, 0xA001);
  }

  lemma Power66()
    ensures Power(66, ONE) == 0xC221
  {
    hide Power;
    Power16();
    DoubleAndOne(16, 0xA001, 0xE801, 0xD401);
    Double(33, 0xD401, 0xC221);
  }

  lemma Power264()
    ensures Power(264, ONE) == 0xC049
  {
    hide Power;
    Power66();
    Double(66, 0xC221, 0x0608);
    Double(132, 0x0608, 0xC049);
  }

  lemma Power1057()
    ensures Power(1057, ONE) == 0xCE41
  {
    hide Power;
    Power264();
    Double(264, 0xC049, 0xD861);
    DoubleAndOne(528, 0xD861, 0xDC81, 0xCE41);
  }

  lemma Power18()
    ensures Power(18, ONE) == 0xD801
  {
    hide Power;
    Power4();
    DoubleAndOne(4, 0x0800, 0x0080, 0x0040);
    Double(9, 0x0040, 0xD801);
  }

  lemma Power73()
    ensures Power(73, ONE) == 0x3004
  {
    hide Power;
    Power18();
    Double(18, 0xD801, 0xC281);
    DoubleAndOne(36, 0xC281, 0x6008, 0x3004);
  }

  lemma Power292()
    ensures Power(292, ONE) == 0xC169
  {
    hide Power;
    Power73();
    Double(73, 0x3004, 0xCA19);
    Double(146, 0xCA19, 0xC169);
  }

  lemma Power1170()
    ensures Power(1170, ONE) == 0x672B
  {
    hide Power;
    Power292();
    DoubleAndOne(292, 0xC169, 0x1E62, 0x0F31);
    Double(585, 0x0F31, 0x672B);
  }

  lemma Power4681()
    ensures Power(4681, ONE) == 0x8C69
  {
    hide Power;
    Power1170();
    Double(1170, 0x672B, 0x8E4C);
    DoubleAndOne(2340, 0x8E4C, 0x58D1, 0x8C69);
  }

  lemma Power7()
    ensures Power(7, ONE) == 0x0100
  {
    assert Power(0, ONE) == ONE && Power(1, ONE) == 0x4000;
    hide Power;
    DoubleAndOne(1, 0x4000, 0x2000, 0x1000);
    DoubleAndOne(3, 0x1000, 0x0200, 0x0100);
  }

  lemma Power31()
    ensures Power(31, ONE) == 0x9001
  {
    hide Power;
    Power7();
    DoubleAndOne(7, 0x0100, 0x0002, 0x0001);
    DoubleAndOne(15, 0x0001, 0x6001, 0x9001);
  }

  lemma Power127()
    ensures Power(127, ONE) == 0xC100
  {
    hide Power;
    Power31();
    DoubleAndOne(31, 0x9001, 0xE201, 0xD101);
    DoubleAndOne(63, 0xD101, 0xC203, 0xC100);
  }

  lemma Power511()
    ensures Power(511, ONE) == 0x8101
  {
    hide Power;
    Power127();
    DoubleAndOne(127, 0xC100, 0xA002, 0x5001);
    DoubleAndOne(255, 0x5001, 0x4201, 0x8101);
  }

  lemma Power2047()
    ensures Power(2047, ONE) == 0x5100
  {
    hide Power;
    Power511();
    DoubleAndOne(511, 0x8101, 0xE003, 0xD000);
    DoubleAndOne(1023, 0xD000, 0xA200, 0x5100);
  }

  lemma Power8191()
    ensures Power(8191, ONE) == 0x9100
  {
    hide Power;
    Power2047();
    DoubleAndOne(2047, 0x5100, 0x2202, 0x1101);
    DoubleAndOne(4095, 0x1101, 0x6203, 0x9100);
  }

  lemma Power32767()
    ensures Power(32767, ONE) == 0x8000
  {
    hide Power;
    Power8191();
    DoubleAndOne(8191, 0x9100, 0x8202, 0x4101);
    DoubleAndOne(16383, 0x4101, 0x4003, 0x8000);
  }

  lemma {:induction false} PeriodTimes(k: nat, m: nat)
    requires Period(k)
    ensures Period(m * k)
  {
    if m > 0 {
      PeriodTimes(k, m - 1);
      assert m * k == (m - 1) * k + k;
      PowerSum((m - 1) * k, k, ONE);
    }
  }

  lemma PeriodMinus(j: nat, k: nat)
    requires Period(j) && Period(j + k)
    ensures Period(k)
  {
    PowerSum(j, k, ONE);
    PowerInjective(j, Power(k, ONE), ONE);
  }

  lemma TimesMinus(m: nat, a: nat, b: nat)
    requires b <= a
    ensures m * a == m * b + m * (a - b)
  {
  }

  /** Euclid: two multiples of m that are periods have a common divisor g with m * g a period. */
  lemma {:induction false} CommonPeriod(m: nat, a: nat, b: nat) returns (g: nat, x: nat, y: nat)
    requires a > 0 && b > 0 && Period(m * a) && Period(m * b)
    ensures g > 0 && a == g * x && b == g * y && Period(m * g)
    decreases a + b
  {
    if a == b {
      g, x, y := a, 1, 1;
    } else if a > b {
      TimesMinus(m, a, b);
      PeriodMinus(m * b, m * (a - b));
      g, x, y := CommonPeriod(m, a - b, b);
      TimesSum(g, x, y);
      x := x + y;
    } else {
      TimesMinus(m, b, a);
      PeriodMinus(m * a, m * (b - a));
      g, x, y := CommonPeriod(m, a, b - a);
      TimesSum(g, y, x);
      y := y + x;
    }
  }

  lemma TimesSum(g: nat, x: nat, y: nat)
    ensures g * (x + y) == g * x + g * y
  {
  }

  ghost predicate Prime(q: nat) {
    q > 1 && forall g, y :: 0 < g < q ==> Times(g, y) == q ==> g == 1
  }

  function Times(g: nat, y: nat): nat {
    g * y
  }

  /** With m * q a period and q prime, every period is a multiple of q unless m is one too. */
  lemma PrimeDividesOrPeriod(d: nat, m: nat, q: nat)
    requires Prime(q) && Period(m * q) && Period(d) && d % q != 0
    ensures Period(m)
  {
    var r, z := d % q, d / q;
    PeriodTimes(d, m);
    PeriodTimes(m * q, z);
    assert d == q * z + r;
    TimesSplit(m, q, z, r);
    PeriodMinus(z * (m * q), m * r);
    var g, x, y := CommonPeriod(m, r, q);
    DivisorSmall(g, x, r);
    assert Times(g, y) == q;
    assert m * 1 == m;
  }

  lemma TimesSplit(m: nat, q: nat, z: nat, r: nat)
    ensures m * (q * z + r) == z * (m * q) + m * r
  {
    assert m * (q * z + r) == m * (q * z) + m * r;
    assert m * (q * z) == z * (m * q);
  }

  lemma DivisorSmall(g: nat, x: nat, r: nat)
    requires r == g * x && r > 0
    ensures g <= r
  {
    if x >= 1 { assert g * x >= g * 1; }
  }

  lemma TwoBig(g: nat, y: nat)
    ensures g > 12 && y > 12 ==> Times(g, y) >= 169
  {
    if g > 12 && y > 12 { assert g * y >= 13 * y; }
  }

  lemma SmallFactor(q: nat, g: nat, y: nat)
    requires q in {7, 31, 151} && Times(g, y) == q && 0 < g < q
    ensures g == 1
  {
    TwoBig(g, y);
    match if g <= 12 then g else y {
      case 1 =>
      case 2 =>
      case 3 =>
      case 4 =>
      case 5 =>
      case 6 =>
      case 7 =>
      case 8 =>
      case 9 =>
      case 10 =>
      case 11 =>
      case 12 =>
      case _ =>
    }
  }

  lemma IsPrime(q: nat)
    requires q in {7, 31, 151}
    ensures Prime(q)
  {
    forall g: nat, y: nat | 0 < g < q && Times(g, y) == q ensures g == 1 {
      SmallFactor(q, g, y);
    }
  }

  lemma DivisibleByAll(d: nat)
    requires d % 7 == 0 && d % 31 == 0 && d % 151 == 0
    ensures d % 32767 == 0
  {
    var a, b, c := d / 7, d / 31, d / 151;
    var z := 3 * a + -10 * b + -16 * c;
    assert d == 7 * a && d == 31 * b && d == 151 * c;
    assert 32767 * a == 4681 * d && 32767 * b == 1057 * d && 32767 * c == 217 * d;
    assert 32767 * z == d;
  }

  /** A pair of bits far apart comes back to the same register exactly at multiples of 32767. */
  lemma PeriodIff(d: nat)
    ensures Period(d) <==> d % 32767 == 0
  {
    Power217();
    Power1057();
    Power4681();
    Power32767();
    hide Power;
    if Period(d) {
      IsPrime(7);
      IsPrime(31);
      IsPrime(151);
      if d % 7 != 0 { PrimeDividesOrPeriod(d, 4681, 7); }
      if d % 31 != 0 { PrimeDividesOrPeriod(d, 1057, 31); }
      if d % 151 != 0 { PrimeDividesOrPeriod(d, 217, 151); }
      DivisibleByAll(d);
    }
    if d % 32767 == 0 {
      PeriodTimes(32767, d / 32767);
    }
  }

  // ---------------------------------------------------------------- the detection

  lemma LastBitsCancelIff(d: nat)
    ensures Power(d, 1) == 1 <==> Period(d)
  {
    PowersOfOne();
    hide ShiftBit;
    PowerSum(d, 15, ONE);
    PowerSum(15, d, ONE);
    assert d + 15 == 15 + d;
    if Power(d, 1) == 1 {
      PowerInjective(15, Power(d, ONE), ONE);
    }
  }

  lemma TraceVanishesIff(p: nat, q: nat, n: nat)
    requires p < q < n
    ensures Trace(p, q, n) == 0 <==> Period(q - p)
  {
    var x := Add(Power(q - p, 1), 1);
    PowerZero(n - q);
    if Power(n - q, x) == 0 { PowerInjective(n - q, x, 0); }
    AddZero(Power(q - p, 1), 1);
    LastBitsCancelIff(q - p);
  }

  /** Double errors, at any length: messages that differ in two bits have the same checksum
      exactly when the bits are a multiple of 32767 apart. */
  lemma TwoBitErrorsIff(a: seq<bv8>, b: seq<bv8>, p: nat, q: nat)
    requires DifferAt(a, b, p, q)
    ensures Checksum(a) == Checksum(b) <==> (q - p) % 32767 == 0
  {
    hide Register, Serial, Trace, Swap, Power;
    var n := 8 * |a|;
    RegisterIsSerial(0xFFFF, a);
    RegisterIsSerial(0xFFFF, b);
    SerialDifference(0xFFFF, a, b, p, q, n);
    AddZero(Register(0xFFFF, a), Register(0xFFFF, b));
    TraceVanishesIff(p, q, n);
    PeriodIff(q - p);
    if Checksum(a) == Checksum(b) { SwapInjective(Register(0xFFFF, a), Register(0xFFFF, b)); }
  }

  /** In particular every double error in a message of up to 4095 bytes is detected; a frame
      on a serial line has at most 256. */
  lemma TwoBitErrorsDetected(a: seq<bv8>, b: seq<bv8>, p: nat, q: nat)
    requires DifferAt(a, b, p, q) && |a| <= 4095
    ensures Checksum(a) != Checksum(b)
  {
    TwoBitErrorsIff(a, b, p, q);
  }

  // ---------------------------------------------------------------- up to three errors

  /** How many of the first k bits differ. */
  function Differing(a: seq<bv8>, b: seq<bv8>, k: nat): nat
    requires |a| == |b| && k <= 8 * |a|
  {
    if k == 0 then 0
    else Differing(a, b, k - 1) + if Bit(a, k - 1) != Bit(b, k - 1) then 1 else 0
  }

  function ByteDiffering(x: bv8, y: bv8, j: nat): nat {
    if j == 0 then 0
    else ByteDiffering(x, y, j - 1) + if ByteBit(x, j - 1) != ByteBit(y, j - 1) then 1 else 0
  }

  function Diff(x: bv8, y: bv8): bv8 {
    x ^ y
  }

  function Halve(x: bv8): bv8 {
    x >> 1
  }

  lemma DropOne(b: bv8, j: nat)
    ensures Drop(b, j + 1) == Halve(Drop(b, j)) && Drop(b, 0) == b
  {
  }

  lemma DiffBits(x: bv8, y: bv8)
    ensures Halve(Diff(x, y)) == Diff(Halve(x), Halve(y))
    ensures Diff(x, y) & 1 == 1 <==> (x & 1 == 1) != (y & 1 == 1)
  {
  }

  lemma {:induction false} DropsDiff(x: bv8, y: bv8, j: nat)
    ensures Drop(Diff(x, y), j) == Diff(Drop(x, j), Drop(y, j))
    ensures ByteBit(Diff(x, y), j) <==> ByteBit(x, j) != ByteBit(y, j)
  {
    hide Diff, Halve, Drop;
    DropOne(x, 0);
    DropOne(y, 0);
    DropOne(Diff(x, y), 0);
    DiffBits(Drop(x, j), Drop(y, j));
    if j > 0 {
      DropsDiff(x, y, j - 1);
      DiffBits(Drop(x, j - 1), Drop(y, j - 1));
      DropOne(x, j - 1);
      DropOne(y, j - 1);
      DropOne(Diff(x, y), j - 1);
    }
  }

  lemma WideBits(b: bv8)
    ensures Low(b as bv16) <==> b & 1 == 1
    ensures Rest(b as bv16) == (b >> 1) as bv16
  {
  }

  lemma {:induction false} OnesOfNone(k: nat)
    ensures Ones(0, k) == 0
  {
    assert !Low(0) && Rest(0) == 0;
    if k > 0 { OnesOfNone(k - 1); }
  }

  lemma OnesOfByte(b: bv8, k: nat)
    ensures Ones(b as bv16, k + 1) == (if b & 1 == 1 then 1 else 0) + Ones(Halve(b) as bv16, k)
  {
    hide Low, Rest;
    WideBits(b);
  }

  lemma {:induction false} OnesAfter(x: bv8, y: bv8, j: nat)
    requires j <= 16
    ensures Ones(Diff(x, y) as bv16, 16) == ByteDiffering(x, y, j) + Ones(Drop(Diff(x, y), j) as bv16, 16 - j)
  {
    hide Diff, Halve, Drop, Ones;
    if j == 0 {
      DropOne(Diff(x, y), 0);
    } else {
      OnesAfter(x, y, j - 1);
      DropsDiff(x, y, j - 1);
      DropOne(Diff(x, y), j - 1);
      OnesOfByte(Drop(Diff(x, y), j - 1), 16 - j);
    }
  }

  lemma ByteDistanceCounts(x: bv8, y: bv8)
    ensures ByteDistance(x, y) == ByteDiffering(x, y, 8)
  {
    hide Ones, Drop;
    OnesAfter(x, y, 8);
    DropAll(Diff(x, y));
    OnesOfNone(8);
  }

  lemma {:induction false} DistanceNext(a: seq<bv8>, b: seq<bv8>, x: bv8, y: bv8)
    requires |a| == |b|
    ensures BitDistance(a + [x], b + [y]) == BitDistance(a, b) + ByteDistance(x, y)
    decreases |a|
  {
    hide ByteDistance;
    if a == [] {
      assert a + [x] == [x] && b + [y] == [y] && [x][1..] == [] && [y][1..] == [];
    } else {
      DistanceNext(a[1..], b[1..], x, y);
      assert (a + [x])[1..] == a[1..] + [x] && (b + [y])[1..] == b[1..] + [y];
    }
  }

  lemma {:induction false} DifferingPrefix(a: seq<bv8>, b: seq<bv8>, x: bv8, y: bv8, k: nat)
    requires |a| == |b| && k <= 8 * |a|
    ensures Differing(a + [x], b + [y], k) == Differing(a, b, k)
  {
    if k > 0 {
      DifferingPrefix(a, b, x, y, k - 1);
      assert (a + [x])[(k - 1) / 8] == a[(k - 1) / 8] && (b + [y])[(k - 1) / 8] == b[(k - 1) / 8];
    }
  }

  lemma {:induction false} DifferingByte(a: seq<bv8>, b: seq<bv8>, x: bv8, y: bv8, j: nat)
    requires |a| == |b| && j <= 8
    ensures Differing(a + [x], b + [y], 8 * |a| + j) == Differing(a, b, 8 * |a|) + ByteDiffering(x, y, j)
  {
    hide ByteBit;
    if j == 0 {
      DifferingPrefix(a, b, x, y, 8 * |a|);
    } else {
      DifferingByte(a, b, x, y, j - 1);
      var k := 8 * |a| + j - 1;
      assert k / 8 == |a| && k % 8 == j - 1;
    }
  }

  /** The distance of two messages is the number of bits in which they differ. */
  lemma {:induction false} DistanceCounts(a: seq<bv8>, b: seq<bv8>)
    requires |a| == |b|
    ensures BitDistance(a, b) == Differing(a, b, 8 * |a|)
    decreases |a|
  {
    hide Bit;
    if a != [] {
      var n := |a| - 1;
      var a0, b0 := a[..n], b[..n];
      assert a == a0 + [a[n]] && b == b0 + [b[n]];
      hide ByteDistance, ByteDiffering;
      DistanceCounts(a0, b0);
      DistanceNext(a0, b0, a[n], b[n]);
      DifferingByte(a0, b0, a[n], b[n], 8);
      ByteDistanceCounts(a[n], b[n]);
    }
  }

  lemma {:induction false} NoneDiffer(a: seq<bv8>, b: seq<bv8>, k: nat)
    requires |a| == |b| && k <= 8 * |a| && Differing(a, b, k) == 0
    ensures forall i :: 0 <= i < k ==> Bit(a, i) == Bit(b, i)
  {
    hide Bit;
    if k > 0 { NoneDiffer(a, b, k - 1); }
  }

  lemma {:induction false} OneDiffers(a: seq<bv8>, b: seq<bv8>, k: nat) returns (p: nat)
    requires |a| == |b| && k <= 8 * |a| && Differing(a, b, k) == 1
    ensures p < k && forall i :: 0 <= i < k ==> (Bit(a, i) != Bit(b, i) <==> i == p)
  {
    hide Bit;
    if Bit(a, k - 1) != Bit(b, k - 1) {
      NoneDiffer(a, b, k - 1);
      p := k - 1;
    } else {
      p := OneDiffers(a, b, k - 1);
    }
  }

  lemma {:induction false} TwoDiffer(a: seq<bv8>, b: seq<bv8>, k: nat) returns (p: nat, q: nat)
    requires |a| == |b| && k <= 8 * |a| && Differing(a, b, k) == 2
    ensures p < q < k && forall i :: 0 <= i < k ==> (Bit(a, i) != Bit(b, i) <==> i == p || i == q)
  {
    hide Bit;
    if Bit(a, k - 1) != Bit(b, k - 1) {
      p := OneDiffers(a, b, k - 1);
      q := k - 1;
    } else {
      p, q := TwoDiffer(a, b, k - 1);
    }
  }

  lemma SameByte(x: bv8, y: bv8)
    requires forall j :: 0 <= j < 8 ==> ByteBit(x, j) == ByteBit(y, j)
    ensures x == y
  {
    assert forall j :: 0 <= j < 8 ==> ByteBit(x, j) == ByteBit(y, j);
    NoByteDiffers(x, y, 8);
    ByteDistanceCounts(x, y);
    NoOnes(x ^ y);
    XorZero(x, y);
  }

  lemma {:induction false} NoByteDiffers(x: bv8, y: bv8, j: nat)
    requires j <= 8 && forall i :: 0 <= i < 8 ==> ByteBit(x, i) == ByteBit(y, i)
    ensures ByteDiffering(x, y, j) == 0
  {
    hide ByteBit;
    if j > 0 { NoByteDiffers(x, y, j - 1); }
  }

  lemma {:induction false} NoneLeft(x: bv16, k: nat)
    requires Ones(x, k) == 0 && Fits(x, k)
    ensures x == 0
  {
    if k > 0 {
      NoneLeft(Rest(x), k - 1);
      LastBit(x);
    }
  }

  lemma LastBit(x: bv16)
    ensures Rest(x) == 0 && !Low(x) ==> x == 0
  {
  }

  lemma NoOnes(z: bv8)
    requires Ones(z as bv16, 16) == 0
    ensures z == 0
  {
    var x := z as bv16;
    AllFit(x);
    hide Ones, Fits;
    NoneLeft(x, 16);
  }

  lemma AllFit(x: bv16)
    ensures Fits(x, 16)
  {
    RestFits(x);
  }

  /** Messages at distance 0 are equal. */
  lemma NoDistance(a: seq<bv8>, b: seq<bv8>)
    requires |a| == |b| && BitDistance(a, b) == 0
    ensures a == b
  {
    DistanceCounts(a, b);
    NoneDiffer(a, b, 8 * |a|);
    forall i | 0 <= i < |a| ensures a[i] == b[i] {
      forall j | 0 <= j < 8 ensures ByteBit(a[i], j) == ByteBit(b[i], j) {
        assert (8 * i + j) / 8 == i && (8 * i + j) % 8 == j;
        assert Bit(a, 8 * i + j) == Bit(b, 8 * i + j);
      }
      SameByte(a[i], b[i]);
    }
  }

  /** Different messages of one length, up to 4095 bytes, with the same checksum differ in at
      least four bits: every error in one, two or three bits is detected, wherever they are. */
  lemma FourBitsApart(a: seq<bv8>, b: seq<bv8>)
    requires |a| == |b| <= 4095 && a != b && Checksum(a) == Checksum(b)
    ensures BitDistance(a, b) >= 4
  {
    hide Checksum, BitDistance, Bit;
    OddErrorsDetected(a, b);
    DistanceCounts(a, b);
    if BitDistance(a, b) == 0 {
      NoDistance(a, b);
    } else if BitDistance(a, b) == 2 {
      var p, q := TwoDiffer(a, b, 8 * |a|);
      TwoBitErrorsDetected(a, b, p, q);
    }
  }
}
