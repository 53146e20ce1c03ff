/** Bytes, words and the bitwise operators of C on them, over unbounded integers. */
module Bits {
  type byte = x: int | 0 <= x < 256
  type word = x: int | 0 <= x < 0x1_0000

  datatype BitOp = BitAnd | BitOr | BitXor

  function OnBit(op: BitOp, a: nat, b: nat): (r: nat)
    ensures r <= 1
  {
    match op
    case BitAnd => if a == 1 && b == 1 then 1 else 0
    case BitOr => if a == 1 || b == 1 then 1 else 0
    case BitXor => if a != b then 1 else 0
  }

  /** The operator applied bit by bit, least significant bit first. */
  function Bitwise(op: BitOp, a: nat, b: nat): nat {
    if a == 0 && b == 0 then 0 else OnBit(op, a % 2, b % 2) + 2 * Bitwise(op, a / 2, b / 2)
  }

  predicate PowerOfTwo(p: nat) {
    p == 1 || (p > 0 && p % 2 == 0 && PowerOfTwo(p / 2))
  }

  lemma {:induction false} BitwiseBelow(op: BitOp, a: nat, b: nat, p: nat)
    requires PowerOfTwo(p) && a < p && b < p
    ensures Bitwise(op, a, b) < p
  {
    if a != 0 || b != 0 {
      BitwiseBelow(op, a / 2, b / 2, p / 2);
    }
  }

  function OnBytes(op: BitOp, a: byte, b: byte): byte {
    assert PowerOfTwo(256);
    BitwiseBelow(op, a, b, 256);
    Bitwise(op, a, b)
  }

  function And(a: byte, b: byte): byte { OnBytes(BitAnd, a, b) }
  function Or(a: byte, b: byte): byte { OnBytes(BitOr, a, b) }
  function Xor(a: byte, b: byte): byte { OnBytes(BitXor, a, b) }

  function BitAt(a: nat, i: nat): (r: nat)
    ensures r <= 1
  {
    if i == 0 then a % 2 else BitAt(a / 2, i - 1)
  }

  /** `1 << i` */
  function Pow2(i: nat): (p: nat)
    ensures p > 0
  {
    if i == 0 then 1 else 2 * Pow2(i - 1)
  }

  /** The number made of the lowest `i` bits. */
  function LowBits(a: nat, i: nat): nat {
    if i == 0 then 0 else a % 2 + 2 * LowBits(a / 2, i - 1)
  }

  lemma {:induction false} LowBitsStep(a: nat, i: nat)
    ensures LowBits(a, i) < Pow2(i)
    ensures LowBits(a, i + 1) == LowBits(a, i) + (if BitAt(a, i) == 1 then Pow2(i) else 0)
  {
    if i > 0 {
      LowBitsStep(a / 2, i - 1);
    }
  }

  lemma {:induction false} LowBitsAll(a: nat, i: nat)
    requires a < Pow2(i)
    ensures LowBits(a, i) == a
  {
    if i > 0 {
      LowBitsAll(a / 2, i - 1);
    }
  }

  /** Setting a bit above all others adds its weight. */
  lemma {:induction false} OrAddsBit(a: nat, i: nat)
    requires a < Pow2(i)
    ensures Bitwise(BitOr, a, Pow2(i)) == a + Pow2(i)
  {
    if i > 0 {
      assert Pow2(i) % 2 == 0 && Pow2(i) / 2 == Pow2(i - 1);
      OrAddsBit(a / 2, i - 1);
    } else {
      assert Bitwise(BitOr, 0, 1) == 1 + 2 * Bitwise(BitOr, 0, 0);
    }
  }

  lemma {:induction false} Pow2Below(i: nat, j: nat)
    requires i <= j
    ensures Pow2(i) <= Pow2(j)
    decreases j - i
  {
    if i < j {
      Pow2Below(i, j - 1);
    }
  }

  /** Bit `i` of the result depends on bit `i` of the operands only. */
  lemma {:induction false} BitOfBitwise(op: BitOp, a: nat, b: nat, i: nat)
    ensures BitAt(Bitwise(op, a, b), i) == OnBit(op, BitAt(a, i), BitAt(b, i))
  {
    if a == 0 && b == 0 {
      BitOfZero(i);
    } else {
      var half := Bitwise(op, a / 2, b / 2);
      assert Bitwise(op, a, b) / 2 == half;
      if i > 0 {
        BitOfBitwise(op, a / 2, b / 2, i - 1);
      }
    }
  }

  lemma {:induction false} BitOfZero(i: nat)
    ensures BitAt(0, i) == 0
  {
    if i > 0 {
      BitOfZero(i - 1);
    }
  }

  lemma {:induction false} XorZero(b: nat)
    ensures Bitwise(BitXor, 0, b) == b
  {
    if b != 0 {
      XorZero(b / 2);
    }
  }

  lemma {:induction false} XorCommutes(a: nat, b: nat)
    ensures Bitwise(BitXor, a, b) == Bitwise(BitXor, b, a)
  {
    if a != 0 || b != 0 {
      XorCommutes(a / 2, b / 2);
    }
  }

  lemma {:induction false} XorInjective(a: nat, b: nat, c: nat)
    requires Bitwise(BitXor, a, c) == Bitwise(BitXor, b, c)
    ensures a == b
  {
    if a != b {
      BitwiseHalves(BitXor, a, c);
      BitwiseHalves(BitXor, b, c);
      hide Bitwise;
      XorInjective(a / 2, b / 2, c / 2);
    }
  }

  lemma BitwiseHalves(op: BitOp, a: nat, b: nat)
    ensures Bitwise(op, a, b) % 2 == OnBit(op, a % 2, b % 2)
    ensures Bitwise(op, a, b) / 2 == Bitwise(op, a / 2, b / 2)
  {
  }

  lemma ZeroXor(b: byte)
    ensures Xor(0, b) == b
  {
    XorZero(b);
  }

  /** Changing either operand changes the XOR. */
  lemma XorDetects(a: byte, b: byte, c: byte)
    requires b != c
    ensures Xor(a, b) != Xor(a, c) && Xor(b, a) != Xor(c, a)
  {
    XorCommutes(a, b);
    XorCommutes(a, c);
    if Xor(b, a) == Xor(c, a) {
      XorInjective(b, c, a);
    }
  }

  function Low(w: word): byte { w % 256 }
  function High(w: word): byte { w / 256 }

  /** `addr16` on two bytes. */
  function Word(lo: byte, hi: byte): word { lo + 256 * hi }

  lemma WordOfHalves(w: word)
    ensures Word(Low(w), High(w)) == w
  {
  }

  lemma HalvesOfWord(lo: byte, hi: byte)
    ensures Low(Word(lo, hi)) == lo && High(Word(lo, hi)) == hi
  {
  }

  /** `(int8_t)`. */
  function Signed(b: byte): int { if b < 128 then b else b - 256 }

  function Wrap8(x: int): byte { x % 256 }
  function Wrap16(x: int): word { x % 0x1_0000 }
}
