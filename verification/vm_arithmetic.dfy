/** Adding and subtracting numbers of many bytes, one byte at a time, through the carry. */
module LongArithmetic {
  import opened Bits
  import opened OpcodeTable
  import opened Machine
  import opened Execution

  datatype Radix = Binary | Decimal

  function Base(radix: Radix): nat {
    match radix case Binary => 256 case Decimal => 100
  }

  /** In decimal, both digits of a byte are below ten. */
  predicate ValidByte(radix: Radix, b: byte) {
    radix == Decimal ==> b / 16 < 10 && b % 16 < 10
  }

  function ByteValue(radix: Radix, b: byte): nat {
    match radix
    case Binary => b
    case Decimal => 10 * (b / 16) + b % 16
  }

  predicate ValidNumber(radix: Radix, xs: seq<byte>) {
    forall i | 0 <= i < |xs| :: ValidByte(radix, xs[i])
  }

  /** The number written with its lowest byte first. */
  function Value(radix: Radix, xs: seq<byte>): nat {
    if xs == [] then 0 else ByteValue(radix, xs[0]) + Base(radix) * Value(radix, xs[1..])
  }

  function Power(base: nat, n: nat): nat {
    if n == 0 then 1 else base * Power(base, n - 1)
  }

  /** What a subtraction borrows. */
  function Borrow(s: Status): nat { Weight(!s.c, 1) }

  datatype Result = Result(bytes: seq<byte>, cpu: Cpu)

  /** `LDA x`, `ADC y` or `SBC y`, for each byte in turn. */
  function Chain(operation: Mnemonic, cpu: Cpu, xs: seq<byte>, ys: seq<byte>): Result
    requires |xs| == |ys|
    decreases |xs|
  {
    hide Reads;
    if xs == [] then Result([], cpu)
    else
      var next := Reads(operation, Reads(LDA, cpu, xs[0]), ys[0]);
      var rest := Chain(operation, next, xs[1..], ys[1..]);
      Result([next.a] + rest.bytes, rest.cpu)
  }

  // --- One byte ---------------------------------------------------------------------

  lemma AddedDigits(x: nat, y: nat, carry: nat)
    requires x < 10 && y < 10 && carry <= 1
    ensures var d := AddDigits(x, y, carry);
            d % 16 < 10 && x + y + carry == d % 16 + (if d > 15 then 10 else 0) && d < 32
  {
  }

  lemma SubtractedDigits(x: nat, y: nat, borrow: nat)
    requires x < 10 && y < 10 && borrow <= 1
    ensures var d := SubDigits(x, y, borrow);
            && d % 16 < 10 && x - y - borrow == d % 16 - 10 * (d / 16 % 2)
            && (d / 16 % 2 == 1 <==> d > 15)
  {
    if x < y + borrow {
      var n := x - y - borrow + 0x1_0000;
      assert Wrap16(x - y - borrow) == n && n / 16 == 0xfff;
      hide Wrap16;
      assert SubDigits(x, y, borrow) == Wrap16(n - 6);
      assert Wrap16(n - 6) == n - 6 by { InWord(n - 6); }
    }
  }

  lemma InWord(n: word)
    ensures Wrap16(n) == n
  {
  }

  lemma DigitsOf(hi: nat, lo: nat)
    requires lo < 16
    ensures var r := Wrap8(lo + 16 * hi);
            r % 16 == lo && r / 16 == hi % 16
  {
  }

  lemma AdcDecimalByte(a: byte, t: byte, s: Status)
    requires s.d && ValidByte(Decimal, a) && ValidByte(Decimal, t)
    ensures var r := AdcDecimal(a, t, s);
            && ByteValue(Decimal, r.a) + 100 * Carry(r.s)
               == ByteValue(Decimal, a) + ByteValue(Decimal, t) + Carry(s)
            && ValidByte(Decimal, r.a) && r.s.d
  {
    hide AddDigits, Wrap8;
    var lo := AddDigits(a % 16, t % 16, Carry(s));
    var carry := if lo > 15 then 1 else 0;
    var hi := AddDigits(a / 16, t / 16, carry);
    AddedDigits(a % 16, t % 16, Carry(s));
    AddedDigits(a / 16, t / 16, carry);
    DigitsOf(hi, lo % 16);
  }

  lemma SbcDecimalByte(a: byte, t: byte, s: Status)
    requires s.d && ValidByte(Decimal, a) && ValidByte(Decimal, t)
    ensures var r := SbcDecimal(a, t, s);
            && ByteValue(Decimal, r.a)
               == ByteValue(Decimal, a) - ByteValue(Decimal, t) - Borrow(s) + 100 * Borrow(r.s)
            && ValidByte(Decimal, r.a) && r.s.d
  {
    hide SubDigits, Wrap8;
    var lo := SubDigits(a % 16, t % 16, Borrow(s));
    var borrow := lo / 16 % 2;
    var hi := SubDigits(a / 16, t / 16, borrow);
    SubtractedDigits(a % 16, t % 16, Borrow(s));
    SubtractedDigits(a / 16, t / 16, borrow);
    DigitsOf(hi, lo % 16);
  }

  /** One byte of a sum: nothing is lost but the carry. */
  lemma AdcByte(radix: Radix, a: byte, t: byte, s: Status)
    requires s.d == (radix == Decimal) && ValidByte(radix, a) && ValidByte(radix, t)
    ensures var r := Adc(a, t, s);
            && ByteValue(radix, r.a) + Base(radix) * Carry(r.s)
               == ByteValue(radix, a) + ByteValue(radix, t) + Carry(s)
            && ValidByte(radix, r.a) && r.s.d == s.d
  {
    if s.d {
      AdcDecimalByte(a, t, s);
      hide AdcDecimal, AdcBinary;
    }
  }

  lemma SbcByte(radix: Radix, a: byte, t: byte, s: Status)
    requires s.d == (radix == Decimal) && ValidByte(radix, a) && ValidByte(radix, t)
    ensures var r := Sbc(a, t, s);
            && ByteValue(radix, r.a)
               == ByteValue(radix, a) - ByteValue(radix, t) - Borrow(s) + Base(radix) * Borrow(r.s)
            && ValidByte(radix, r.a) && r.s.d == s.d
  {
    hide SbcDecimal;
    if s.d {
      SbcDecimalByte(a, t, s);
    } else {
      hide Wrap8, Wrap16;
      WrapDown(a - t - Borrow(s));
    }
  }

  // --- Many bytes -------------------------------------------------------------------

  /** Whether the flags choose this radix. */
  predicate Works(radix: Radix, cpu: Cpu) {
    cpu.s.d == (radix == Decimal)
  }

  lemma AdcStep(radix: Radix, cpu: Cpu, x: byte, y: byte)
    requires Works(radix, cpu) && ValidByte(radix, x) && ValidByte(radix, y)
    ensures var next := Reads(ADC, Reads(LDA, cpu, x), y);
            && ByteValue(radix, next.a) + Base(radix) * Carry(next.s)
               == ByteValue(radix, x) + ByteValue(radix, y) + Carry(cpu.s)
            && ValidByte(radix, next.a) && Works(radix, next)
  {
    hide Adc, Sbc, And, Or, Xor, Compare, ByteValue, ValidByte;
    var s1 := SetNZ(cpu.s, x);
    assert s1.c == cpu.s.c && s1.d == cpu.s.d;
    AdcByte(radix, x, y, s1);
    hide SetNZ;
  }

  lemma SbcStep(radix: Radix, cpu: Cpu, x: byte, y: byte)
    requires Works(radix, cpu) && ValidByte(radix, x) && ValidByte(radix, y)
    ensures var next := Reads(SBC, Reads(LDA, cpu, x), y);
            && ByteValue(radix, next.a)
               == ByteValue(radix, x) - ByteValue(radix, y) - Borrow(cpu.s) + Base(radix) * Borrow(next.s)
            && ValidByte(radix, next.a) && Works(radix, next)
  {
    hide Adc, Sbc, And, Or, Xor, Compare, ByteValue, ValidByte;
    var s1 := SetNZ(cpu.s, x);
    assert s1.c == cpu.s.c && s1.d == cpu.s.d;
    SbcByte(radix, x, y, s1);
    hide SetNZ;
  }

  lemma Distribute(base: nat, a: int, b: int, c: int)
    ensures base * (a + b) == base * a + base * b
    ensures base * (a + b + c) == base * a + base * b + base * c
    ensures base * (a - b - c) == base * a - base * b - base * c
  {
  }

  lemma PowerStep(base: nat, n: nat, carry: nat)
    requires n > 0
    ensures Power(base, n) * carry == base * (Power(base, n - 1) * carry)
  {
  }

  lemma {:induction false} ValueBelow(radix: Radix, xs: seq<byte>)
    requires ValidNumber(radix, xs)
    ensures Value(radix, xs) < Power(Base(radix), |xs|)
  {
    if xs != [] {
      ValueBelow(radix, xs[1..]);
      var p, v := Power(Base(radix), |xs| - 1), Value(radix, xs[1..]);
      assert ByteValue(radix, xs[0]) < Base(radix);
      assert Base(radix) * v <= Base(radix) * (p - 1);
    }
  }

  /** Chaining ADC over two numbers of `n` bytes gives their sum, modulo the base to the power `n`, and leaves
      the rest in the carry: in binary, and in decimal for valid digits. */
  lemma {:induction false} LongSum(radix: Radix, cpu: Cpu, xs: seq<byte>, ys: seq<byte>)
    requires |xs| == |ys| && Works(radix, cpu) && ValidNumber(radix, xs) && ValidNumber(radix, ys)
    ensures var r := Chain(ADC, cpu, xs, ys);
            && |r.bytes| == |xs| && ValidNumber(radix, r.bytes) && Works(radix, r.cpu)
            && Value(radix, r.bytes) + Power(Base(radix), |xs|) * Carry(r.cpu.s)
               == Value(radix, xs) + Value(radix, ys) + Carry(cpu.s)
    decreases |xs|
  {
    hide Reads, ByteValue, ValidByte, Carry, Works;
    if xs != [] {
      var base := Base(radix);
      var next := Reads(ADC, Reads(LDA, cpu, xs[0]), ys[0]);
      AdcStep(radix, cpu, xs[0], ys[0]);
      LongSum(radix, next, xs[1..], ys[1..]);
      var rest := Chain(ADC, next, xs[1..], ys[1..]);
      var r := Chain(ADC, cpu, xs, ys);
      assert r.bytes[1..] == rest.bytes;
      PowerStep(base, |xs|, Carry(r.cpu.s));
      Distribute(base, Value(radix, rest.bytes), Power(base, |xs| - 1) * Carry(r.cpu.s), 0);
      Distribute(base, Value(radix, xs[1..]), Value(radix, ys[1..]), Carry(next.s));
    }
  }

  /** The same for SBC: the difference, and the borrow. */
  lemma {:induction false} LongDifference(radix: Radix, cpu: Cpu, xs: seq<byte>, ys: seq<byte>)
    requires |xs| == |ys| && Works(radix, cpu) && ValidNumber(radix, xs) && ValidNumber(radix, ys)
    ensures var r := Chain(SBC, cpu, xs, ys);
            && |r.bytes| == |xs| && ValidNumber(radix, r.bytes) && Works(radix, r.cpu)
            && Value(radix, r.bytes)
               == Value(radix, xs) - Value(radix, ys) - Borrow(cpu.s) + Power(Base(radix), |xs|) * Borrow(r.cpu.s)
    decreases |xs|
  {
    hide Reads, ByteValue, ValidByte, Borrow, Works;
    if xs != [] {
      var base := Base(radix);
      var next := Reads(SBC, Reads(LDA, cpu, xs[0]), ys[0]);
      SbcStep(radix, cpu, xs[0], ys[0]);
      LongDifference(radix, next, xs[1..], ys[1..]);
      var rest := Chain(SBC, next, xs[1..], ys[1..]);
      var r := Chain(SBC, cpu, xs, ys);
      assert r.bytes[1..] == rest.bytes;
      PowerStep(base, |xs|, Borrow(r.cpu.s));
      Distribute(base, Value(radix, rest.bytes), Borrow(next.s), 0);
      Distribute(base, Value(radix, xs[1..]), Value(radix, ys[1..]), Borrow(next.s));
      Distribute(base, Value(radix, xs[1..]) - Value(radix, ys[1..]) - Borrow(next.s),
                 Power(base, |xs| - 1) * Borrow(r.cpu.s), 0);
    }
  }

  lemma AtLeast(p: nat, d: int)
    ensures d >= 1 ==> p * d >= p
    ensures d <= -1 ==> p * d + p <= 0
  {
  }

  lemma Remainder(v: nat, p: nat, k: int, x: int)
    requires v < p && x == v + p * k
    ensures x % p == v
  {
    var q, m := x / p, x % p;
    assert x == p * q + m;
    Distribute(p, k, -q, 0);
    assert p * (k - q) == m - v;
    AtLeast(p, k - q);
  }

  /** From carry clear: the sum modulo the base to the power `n`, and the carry says whether it went past. */
  lemma SumModulo(radix: Radix, cpu: Cpu, xs: seq<byte>, ys: seq<byte>)
    requires |xs| == |ys| && Works(radix, cpu) && ValidNumber(radix, xs) && ValidNumber(radix, ys) && !cpu.s.c
    ensures var r, p := Chain(ADC, cpu, xs, ys), Power(Base(radix), |xs|);
            && p > 0 && Value(radix, r.bytes) == (Value(radix, xs) + Value(radix, ys)) % p
            && (r.cpu.s.c <==> Value(radix, xs) + Value(radix, ys) >= p)
  {
    hide Chain, Value;
    var r, p := Chain(ADC, cpu, xs, ys), Power(Base(radix), |xs|);
    LongSum(radix, cpu, xs, ys);
    ValueBelow(radix, r.bytes);
    Remainder(Value(radix, r.bytes), p, Carry(r.cpu.s), Value(radix, xs) + Value(radix, ys));
  }

  /** From carry set: the difference modulo the base to the power `n`, and the carry says that nothing was
      borrowed. */
  lemma DifferenceModulo(radix: Radix, cpu: Cpu, xs: seq<byte>, ys: seq<byte>)
    requires |xs| == |ys| && Works(radix, cpu) && ValidNumber(radix, xs) && ValidNumber(radix, ys) && cpu.s.c
    ensures var r, p := Chain(SBC, cpu, xs, ys), Power(Base(radix), |xs|);
            && p > 0 && Value(radix, r.bytes) == (Value(radix, xs) - Value(radix, ys)) % p
            && (r.cpu.s.c <==> Value(radix, xs) >= Value(radix, ys))
  {
    hide Chain, Value;
    var r, p := Chain(SBC, cpu, xs, ys), Power(Base(radix), |xs|);
    LongDifference(radix, cpu, xs, ys);
    ValueBelow(radix, r.bytes);
    var k: int := Borrow(r.cpu.s);
    Remainder(Value(radix, r.bytes), p, -k, Value(radix, xs) - Value(radix, ys));
  }

  // --- Signed numbers ---------------------------------------------------------------

  /** The two's complement number of one or more bytes. */
  function SignedValue(xs: seq<byte>): int
    requires xs != []
  {
    if |xs| == 1 then Signed(xs[0]) else xs[0] + 256 * SignedValue(xs[1..])
  }

  predicate InRange(v: int, n: nat)
    requires n > 0
  {
    -128 * Power(256, n - 1) <= v < 128 * Power(256, n - 1)
  }

  lemma RangeStep(low: byte, v: int, n: nat)
    requires n > 0
    ensures InRange(low + 256 * v, n + 1) <==> InRange(v, n)
  {
    var p := Power(256, n - 1);
    assert Power(256, n) == 256 * p;
  }

  lemma AddOverflow(a: byte, t: byte, s: Status)
    requires !s.d
    ensures Adc(a, t, s).s.v <==> !(-128 <= Signed(a) + Signed(t) + Carry(s) < 128)
  {
    hide AdcDecimal, SetNZ, Wrap8;
    var t16 := a + t + Carry(s);
    assert Wrap8(t16) == if t16 < 256 then t16 else t16 - 256 by { WrapUp(t16); }
  }

  lemma SubtractOverflow(a: byte, t: byte, s: Status)
    requires !s.d
    ensures Sbc(a, t, s).s.v <==> !(-128 <= Signed(a) - Signed(t) - Borrow(s) < 128)
  {
    hide SbcDecimal, SetNZ, Wrap8, Wrap16;
    var d := a - t - Borrow(s);
    WrapDown(d);
  }

  /** After a binary subtraction N and V together tell the sign of the true signed difference, which V says does not
      fit in a byte, and the carry tells the unsigned order. */
  lemma SbcDecidesSigned(a: byte, t: byte, s: Status)
    requires !s.d
    ensures var f, d := Sbc(a, t, s).s, Signed(a) - Signed(t) - Borrow(s);
            && (f.n != f.v <==> d < 0)
            && (f.v <==> !(-128 <= d < 128))
            && (f.c <==> a >= t + Borrow(s))
  {
    SubtractOverflow(a, t, s);
    hide SbcDecimal, Wrap8, Wrap16;
    WrapDown(a - t - Borrow(s));
  }

  lemma WrapUp(n: nat)
    requires n < 512
    ensures Wrap8(n) == if n < 256 then n else n - 256
  {
  }

  lemma WrapDown(d: int)
    requires -256 <= d < 256
    ensures Wrap8(Wrap16(d)) == if d < 0 then d + 256 else d
    ensures Wrap16(d) < 256 <==> d >= 0
  {
  }

  lemma OverflowStep(cpu: Cpu, x: byte, y: byte)
    requires Works(Binary, cpu)
    ensures Reads(ADC, Reads(LDA, cpu, x), y).s.v <==> !InRange(Signed(x) + Signed(y) + Carry(cpu.s), 1)
  {
    hide Adc, Sbc, And, Or, Xor, Compare;
    AddOverflow(x, y, SetNZ(cpu.s, x));
    assert Power(256, 0) == 1;
  }

  /** In binary, the overflow flag after the last byte says whether the signed numbers of `n` bytes add up to
      one that does not fit in `n` bytes. */
  lemma {:induction false} LongOverflow(cpu: Cpu, xs: seq<byte>, ys: seq<byte>)
    requires |xs| == |ys| > 0 && Works(Binary, cpu)
    ensures Chain(ADC, cpu, xs, ys).cpu.s.v
       <==> !InRange(SignedValue(xs) + SignedValue(ys) + Carry(cpu.s), |xs|)
    decreases |xs|
  {
    hide InRange, Reads, Works, Carry;
    var next := Reads(ADC, Reads(LDA, cpu, xs[0]), ys[0]);
    if |xs| == 1 {
      OverflowStep(cpu, xs[0], ys[0]);
    } else {
      AdcStep(Binary, cpu, xs[0], ys[0]);
      LongOverflow(next, xs[1..], ys[1..]);
      var high := SignedValue(xs[1..]) + SignedValue(ys[1..]) + Carry(next.s);
      RangeStep(next.a, high, |xs| - 1);
      assert SignedValue(xs) + SignedValue(ys) + Carry(cpu.s) == next.a + 256 * high;
    }
  }

  // --- Subtraction as addition ------------------------------------------------------

  /** In binary, subtracting `m` is adding `255 - m`: the same result and the same four flags. */
  lemma SbcIsAdcOfComplement(a: byte, m: byte, s: Status)
    requires !s.d
    ensures Sbc(a, m, s) == Adc(a, 255 - m, s)
  {
    hide SbcDecimal, AdcDecimal, SetNZ, Wrap8, Wrap16;
    WrapUp(a + (255 - m) + Weight(s.c, 1));
    WrapDown(a - m - Weight(!s.c, 1));
  }

  function Complement(ys: seq<byte>): (r: seq<byte>)
    ensures |r| == |ys|
  {
    if ys == [] then [] else [255 - ys[0]] + Complement(ys[1..])
  }

  lemma {:induction false} SignedComplement(ys: seq<byte>)
    requires ys != []
    ensures SignedValue(Complement(ys)) == -1 - SignedValue(ys)
  {
    if |ys| > 1 {
      SignedComplement(ys[1..]);
      assert Complement(ys)[1..] == Complement(ys[1..]);
    }
  }

  lemma SbcStepIsAdc(cpu: Cpu, x: byte, y: byte)
    requires Works(Binary, cpu)
    ensures var loaded := Reads(LDA, cpu, x);
            Reads(SBC, loaded, y) == Reads(ADC, loaded, 255 - y) && Works(Binary, Reads(SBC, loaded, y))
  {
    SbcStep(Binary, cpu, x, y);
    hide Adc, Sbc, And, Or, Xor, Compare;
    SbcIsAdcOfComplement(x, y, SetNZ(cpu.s, x));
  }

  lemma {:induction false} DifferenceIsSumOfComplement(cpu: Cpu, xs: seq<byte>, ys: seq<byte>)
    requires |xs| == |ys| && Works(Binary, cpu)
    ensures Chain(SBC, cpu, xs, ys) == Chain(ADC, cpu, xs, Complement(ys))
    decreases |xs|
  {
    hide Reads, Works;
    if xs != [] {
      SbcStepIsAdc(cpu, xs[0], ys[0]);
      var next := Reads(SBC, Reads(LDA, cpu, xs[0]), ys[0]);
      DifferenceIsSumOfComplement(next, xs[1..], ys[1..]);
      assert Complement(ys)[1..] == Complement(ys[1..]);
    }
  }

  /** After subtracting, the overflow flag says whether the signed difference does not fit. */
  lemma LongDifferenceOverflow(cpu: Cpu, xs: seq<byte>, ys: seq<byte>)
    requires |xs| == |ys| > 0 && Works(Binary, cpu)
    ensures Chain(SBC, cpu, xs, ys).cpu.s.v
       <==> !InRange(SignedValue(xs) - SignedValue(ys) - Borrow(cpu.s), |xs|)
  {
    hide Chain, InRange;
    DifferenceIsSumOfComplement(cpu, xs, ys);
    SignedComplement(ys);
    LongOverflow(cpu, xs, Complement(ys));
  }
}
