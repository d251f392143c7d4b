/** Brightness on its way to the KNX bus and back: the cloud counts from 0 to a configured
    maximum, the bus from 0 to 255. */
module Dimmer {
  /** Multiply, then divide: the shape of both conversions. */
  function Scale(x: nat, num: nat, den: nat): nat
    requires den > 0
  {
    x * num / den
  }

  /** Knx_DimmerCtrl: integer division, kept in 8 bits. */
  function Control(v: nat, max: nat): nat
    requires max > 0
  {
    Scale(v, 255, max) % 256
  }

  /** Knx_DimmerReport: division by 255.0, truncated, kept in 16 bits. */
  function Report(c: nat, max: nat): nat {
    ((c * max) as real / 255.0).Floor % 65536
  }

  lemma DivideExact(x: int, den: int)
    requires den > 0
    ensures x == x / den * den + x % den && 0 <= x % den < den
  {
  }

  lemma QuotientIs(x: int, den: int, q: int)
    requires den > 0 && q * den <= x < q * den + den
    ensures x / den == q
  {
    DivideExact(x, den);
    var d := x / den;
    TimesStep(d, q, den);
    TimesStep(q, d, den);
  }

  lemma TimesStep(x: int, y: int, den: int)
    requires den > 0
    ensures x < y ==> x * den + den <= y * den
  {
    if x < y { assert (x + 1) * den <= y * den; }
  }

  lemma ScaleMonotone(x: nat, y: nat, num: nat, den: nat)
    requires den > 0 && x <= y
    ensures Scale(x, num, den) <= Scale(y, num, den)
  {
    assert x * num <= y * num;
    DivideExact(x * num, den);
    DivideExact(y * num, den);
    TimesStep(y * num / den, x * num / den, den);
  }

  /** Scaling there and back loses the remainder of the first division, measured in units of
      the second and rounded up; nothing else. */
  lemma ScaleBack(x: nat, num: nat, den: nat)
    requires num > 0 && den > 0
    ensures Scale(Scale(x, num, den), den, num) == x - (x * num % den + num - 1) / num
  {
    var q, r := Scale(x, num, den), x * num % den;
    DivideExact(x * num, den);
    var loss := (r + num - 1) / num;
    DivideExact(r + num - 1, num);
    assert q * den == x * num - r;
    assert (x - loss) * num == x * num - loss * num;
    QuotientIs(q * den, num, x - loss);
  }

  /** The division in binary64 may be off by less than 1/255 and is exact for multiples of
      255; truncation then gives the integer quotient. */
  lemma TruncatedQuotient(n: nat, q: real)
    requires (n as real) / 255.0 - 1.0 / 255.0 < q < (n as real) / 255.0 + 1.0 / 255.0
    requires n % 255 == 0 ==> q == (n as real) / 255.0
    ensures q.Floor == n / 255
  {
    var d, r := n / 255, n % 255;
    assert n as real == 255.0 * (d as real) + r as real;
    assert (n as real) / 255.0 == d as real + r as real / 255.0;
    assert d as real <= q < d as real + 1.0;
  }

  lemma ReportIsFloor(c: nat, max: nat)
    ensures Report(c, max) == Scale(c, max, 255) % 65536
  {
    TruncatedQuotient(c * max, (c * max) as real / 255.0);
  }

  lemma ScaleBound(x: nat, num: nat, den: nat)
    requires den > 0 && x <= den
    ensures Scale(x, num, den) <= num && Scale(den, num, den) == num && Scale(0, num, den) == 0
  {
    QuotientIs(den * num, den, num);
    ScaleMonotone(x, den, num, den);
  }

  /** In range neither conversion is cut off by its width. */
  lemma NoWrap(v: nat, max: nat)
    requires 0 < max <= 65535 && v <= max
    ensures Control(v, max) == Scale(v, 255, max) <= 255
    ensures Report(Control(v, max), max) == Scale(Control(v, max), max, 255) <= max
  {
    ScaleBound(v, 255, max);
    ReportIsFloor(Control(v, max), max);
    ScaleBound(Control(v, max), max, 255);
  }

  /** A brightness that goes out to the bus and is reported back never grows, and what it
      loses is the remainder of v * 255 by max in units of 255, rounded up. */
  lemma RoundTrip(v: nat, max: nat)
    requires 0 < max <= 65535 && v <= max
    ensures var w := Report(Control(v, max), max);
            && w <= v
            && v - w == (v * 255 % max + 254) / 255
            && 255 * (v - w) < max + 255
            && (w == v <==> v * 255 % max == 0)
  {
    NoWrap(v, max);
    ScaleBack(v, 255, max);
    DivideExact(v * 255, max);
    DivideExact(v * 255 % max + 254, 255);
  }

  /** Reported and set again: the same, from the bus's side. */
  lemma RoundTripFromBus(c: nat, max: nat)
    requires 0 < max <= 65535 && c <= 255
    ensures Control(Report(c, max), max) == c - (c * max % 255 + max - 1) / max
    ensures Control(Report(c, max), max) == c <==> c * max % 255 == 0
    ensures max >= 255 ==> c - 1 <= Control(Report(c, max), max) <= c
  {
    ReportIsFloor(c, max);
    ScaleBound(c, max, 255);
    var w := Report(c, max);
    ScaleBound(w, 255, max);
    ScaleBack(c, max, 255);
    var r := c * max % 255;
    if r == 0 {
      QuotientIs(max - 1, max, 0);
    } else {
      DivideExact(r + max - 1, max);
      if r <= max { QuotientIs(r + max - 1, max, 1); }
    }
  }

  lemma RoundTripMonotone(u: nat, v: nat, max: nat)
    requires 0 < max <= 65535 && u <= v <= max
    ensures Control(u, max) <= Control(v, max)
    ensures Report(Control(u, max), max) <= Report(Control(v, max), max)
    ensures Report(Control(0, max), max) == 0 && Report(Control(max, max), max) == max
  {
    NoWrap(u, max);
    NoWrap(v, max);
    NoWrap(0, max);
    NoWrap(max, max);
    ScaleMonotone(u, v, 255, max);
    ScaleMonotone(Control(u, max), Control(v, max), max, 255);
    ScaleBound(max, 255, max);
    ScaleBound(255, max, 255);
  }

  // ---------------------------------------------------------------- the telegram

  newtype Byte = n: int | 0 <= n < 256

  /** The payload of one or two bytes, most significant byte first. */
  function Decode(payload: seq<Byte>): nat {
    if payload == [] then 0
    else Decode(payload[..|payload| - 1]) * 256 + payload[|payload| - 1] as nat
  }

  /** Writes the value into the buffer from `at` on: one byte when it fits, else two. What a
      reader decodes is the value, and a dimmer's byte is the payload itself. */
  method ReadBlock(buf: array<Byte>, at: nat, value: nat) returns (len: nat)
    requires value < 65536 && at + (if value < 256 then 1 else 2) <= buf.Length
    modifies buf
    ensures len == (if value < 256 then 1 else 2)
    ensures Decode(buf[at..at + len]) == value
    ensures value < 256 ==> buf[at] as nat == value
    ensures forall k :: 0 <= k < buf.Length && !(at <= k < at + len) ==> buf[k] == old(buf[k])
  {
    len := if value / 256 != 0 then 2 else 1;
    if len == 2 {
      buf[at] := (value / 256) as Byte;
      buf[at + 1] := (value % 256) as Byte;
      assert buf[at..at + 2][..1] == buf[at..at + 1];
    } else {
      buf[at] := (value % 256) as Byte;
    }
    assert Decode(buf[at..at + 1]) == buf[at] as nat;
  }
}
