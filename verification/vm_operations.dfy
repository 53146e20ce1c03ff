/** What the single operations of the machine mean for a program. */
module Operations {
  import opened Bits
  import opened OpcodeTable
  import opened Machine
  import opened Execution
  import OpcodeLayout

  /** After a comparison the branches decide by the unsigned order of the two bytes. */
  lemma CompareDecides(cpu: Cpu, t: byte)
    ensures var s := Reads(CMP, cpu, t).s;
            && (Taken(BCC, s) <==> cpu.a < t) && (Taken(BCS, s) <==> cpu.a >= t)
            && (Taken(BEQ, s) <==> cpu.a == t) && (Taken(BNE, s) <==> cpu.a != t)
    ensures var s := Reads(CPX, cpu, t).s;
            && (Taken(BCC, s) <==> cpu.x < t) && (Taken(BEQ, s) <==> cpu.x == t)
    ensures var s := Reads(CPY, cpu, t).s;
            && (Taken(BCC, s) <==> cpu.y < t) && (Taken(BEQ, s) <==> cpu.y == t)
  {
    ZeroDifference(cpu.a, t);
    ZeroDifference(cpu.x, t);
    ZeroDifference(cpu.y, t);
    hide Wrap8, Adc, Sbc, And, Or, Xor;
  }

  lemma ZeroDifference(a: byte, t: byte)
    ensures Wrap8(a - t) == 0 <==> a == t
  {
  }

  lemma {:induction false} XorTwice(a: nat, b: nat)
    ensures Bitwise(BitXor, Bitwise(BitXor, a, b), b) == a
    decreases a + b
  {
    if a != 0 || b != 0 {
      XorTwice(a / 2, b / 2);
      var x := Bitwise(BitXor, a, b);
      assert x % 2 == OnBit(BitXor, a % 2, b % 2) && x / 2 == Bitwise(BitXor, a / 2, b / 2);
      if x == 0 && b == 0 {
        XorZero(a);
        XorCommutes(0, a);
      }
    }
  }

  /** EOR with the same byte twice gives the accumulator back. */
  lemma EorTwice(cpu: Cpu, t: byte)
    ensures Reads(EOR, Reads(EOR, cpu, t), t).a == cpu.a
  {
    XorTwice(cpu.a, t);
    hide Bitwise, SetNZ, Adc, Sbc;
  }

  /** AND keeps and ORA sets exactly the bits of the operand. */
  lemma MaskBits(cpu: Cpu, t: byte, i: nat)
    requires i < 8
    ensures BitAt(Reads(AND, cpu, t).a, i) == 1 <==> BitAt(cpu.a, i) == 1 && BitAt(t, i) == 1
    ensures BitAt(Reads(ORA, cpu, t).a, i) == 1 <==> BitAt(cpu.a, i) == 1 || BitAt(t, i) == 1
    ensures BitAt(Reads(EOR, cpu, t).a, i) == 1 <==> BitAt(cpu.a, i) != BitAt(t, i)
  {
    BitOfBitwise(BitAnd, cpu.a, t, i);
    BitOfBitwise(BitOr, cpu.a, t, i);
    BitOfBitwise(BitXor, cpu.a, t, i);
    hide Bitwise, BitAt, SetNZ, Adc, Sbc;
  }

  // --- Flags and branches -----------------------------------------------------------

  /** What the branches tell about the last result. */
  predicate TellsResult(s: Status, r: byte) {
    && (Taken(BMI, s) <==> Signed(r) < 0) && (Taken(BPL, s) <==> Signed(r) >= 0)
    && (Taken(BEQ, s) <==> r == 0) && (Taken(BNE, s) <==> r != 0)
  }

  /** The carry, overflow, decimal, interrupt and two other flags are the same. */
  predicate OtherFlags(s: Status, was: Status) {
    s.v == was.v && s.u == was.u && s.b == was.b && s.d == was.d && s.i == was.i && s.c == was.c
  }

  lemma NZTell(s: Status, r: byte)
    ensures TellsResult(SetNZ(s, r), r) && OtherFlags(SetNZ(s, r), s)
  {
  }

  /** A load brings the byte to its own register, the branches tell its sign and whether it is zero, and nothing else
      changes. */
  lemma LoadsTell(cpu: Cpu, t: byte)
    ensures var r := Reads(LDA, cpu, t);
            r == cpu.(a := t, s := r.s) && TellsResult(r.s, t) && OtherFlags(r.s, cpu.s)
    ensures var r := Reads(LDX, cpu, t);
            r == cpu.(x := t, s := r.s) && TellsResult(r.s, t) && OtherFlags(r.s, cpu.s)
    ensures var r := Reads(LDY, cpu, t);
            r == cpu.(y := t, s := r.s) && TellsResult(r.s, t) && OtherFlags(r.s, cpu.s)
  {
    NZTell(cpu.s, t);
    hide SetNZ, Taken;
  }

  /** The bitwise operations change the accumulator and tell about it. */
  lemma MasksTell(m: Mnemonic, cpu: Cpu, t: byte)
    requires m == AND || m == ORA || m == EOR
    ensures var r := Reads(m, cpu, t);
            r == cpu.(a := r.a, s := r.s) && TellsResult(r.s, r.a) && OtherFlags(r.s, cpu.s)
  {
    hide SetNZ, Taken, And, Or, Xor;
    NZTell(cpu.s, Reads(m, cpu, t).a);
  }

  /** BIT changes no register; N and V are the two highest bits of the byte, and Z says that it has no bit in common
      with the accumulator. */
  lemma BitTells(cpu: Cpu, t: byte)
    ensures var r := Reads(BIT, cpu, t);
            && r == cpu.(s := r.s)
            && (Taken(BMI, r.s) <==> BitAt(t, 7) == 1) && (Taken(BVS, r.s) <==> BitAt(t, 6) == 1)
            && (Taken(BPL, r.s) <==> BitAt(t, 7) == 0) && (Taken(BVC, r.s) <==> BitAt(t, 6) == 0)
            && (Taken(BEQ, r.s) <==> forall i: nat :: BitAt(cpu.a, i) == 0 || BitAt(t, i) == 0)
            && r.s.u == cpu.s.u && r.s.b == cpu.s.b && r.s.d == cpu.s.d && r.s.i == cpu.s.i && r.s.c == cpu.s.c
  {
    HighBits(t);
    NoCommonBit(t, cpu.a);
    hide BitAt, Bitwise, And;
  }

  lemma HighBits(t: byte)
    ensures BitAt(t, 7) == t / 128 && BitAt(t, 6) == t / 64 % 2
  {
    var b2 := t / 2 / 2;
    var b4 := b2 / 2 / 2;
    var b6 := b4 / 2 / 2;
    assert b2 == t / 4;
    assert b4 == t / 16;
    assert b6 == t / 64 && b6 / 2 == t / 128;
    assert BitAt(t, 6) == BitAt(b2, 4) && BitAt(b2, 4) == BitAt(b4, 2) && BitAt(b4, 2) == BitAt(b6, 0);
    assert BitAt(t, 7) == BitAt(b2, 5) && BitAt(b2, 5) == BitAt(b4, 3) && BitAt(b4, 3) == BitAt(b6, 1);
  }

  lemma NoCommonBit(t: byte, a: byte)
    ensures And(t, a) == 0 <==> forall i: nat :: BitAt(a, i) == 0 || BitAt(t, i) == 0
  {
    hide Bitwise;
    if And(t, a) == 0 {
      forall i: nat
        ensures BitAt(a, i) == 0 || BitAt(t, i) == 0
      {
        BitOfBitwise(BitAnd, t, a, i);
        BitOfZero(i);
      }
    } else {
      var i := OneBitOf(And(t, a));
      BitOfBitwise(BitAnd, t, a, i);
    }
  }

  lemma {:induction false} OneBitOf(n: nat) returns (i: nat)
    requires n > 0
    ensures BitAt(n, i) == 1
  {
    if n % 2 == 1 {
      i := 0;
    } else {
      var j := OneBitOf(n / 2);
      i := j + 1;
    }
  }

  /** After a comparison N is bit 7 of the difference; no register and no other flag changes. */
  lemma CompareKeeps(r: byte, t: byte, s: Status)
    ensures var c := Compare(r, t, s);
            && (Taken(BMI, c) <==> BitAt(Wrap8(r - t), 7) == 1)
            && c.v == s.v && c.u == s.u && c.b == s.b && c.d == s.d && c.i == s.i
  {
    HighBits(Wrap8(r - t));
    hide BitAt, Wrap8;
  }

  lemma ComparesKeepRegisters(m: Mnemonic, cpu: Cpu, t: byte)
    requires m == CMP || m == CPX || m == CPY
    ensures Reads(m, cpu, t)
         == cpu.(s := Compare(if m == CMP then cpu.a else if m == CPX then cpu.x else cpu.y, t, cpu.s))
  {
    hide Compare;
  }

  lemma Reduced(n: nat)
    requires n < 512
    ensures Wrap8(n) == if n > 255 then n - 256 else n
  {
  }

  /** After a binary ADC the branches on V say whether the signed sum fits in a byte, those on C whether the unsigned
      sum does, and the others tell about the result. */
  lemma AdcTells(a: byte, t: byte, s: Status)
    requires !s.d
    ensures var r, sum := Adc(a, t, s), Signed(a) + Signed(t) + Carry(s);
            && (Taken(BVC, r.s) <==> -128 <= sum <= 127) && (Taken(BVS, r.s) <==> !(-128 <= sum <= 127))
            && (Taken(BCS, r.s) <==> a + t + Carry(s) > 255) && (Taken(BCC, r.s) <==> a + t + Carry(s) <= 255)
            && TellsResult(r.s, r.a) && r.s.u == s.u && r.s.b == s.b && r.s.d == s.d && r.s.i == s.i
  {
    hide Wrap8, AdcDecimal;
    Reduced(a + t + Carry(s));
    NZTell(s, Adc(a, t, s).a);
  }

  /** After a decimal ADC or SBC N and V are clear and Z tells about the result. */
  lemma DecimalTells(a: byte, t: byte, s: Status)
    requires s.d
    ensures var r := Adc(a, t, s);
            !r.s.n && !r.s.v && (r.s.z <==> r.a == 0) && r.s.u == s.u && r.s.b == s.b && r.s.d && r.s.i == s.i
    ensures var r := Sbc(a, t, s);
            !r.s.n && !r.s.v && (r.s.z <==> r.a == 0) && r.s.u == s.u && r.s.b == s.b && r.s.d && r.s.i == s.i
  {
    hide AddDigits, SubDigits, Wrap8, AdcBinary, SbcBinary;
  }

  lemma FlagsTell(s: Status, r: byte)
    requires s.n == (r >= 128) && s.z == (r == 0)
    ensures TellsResult(s, r)
  {
  }

  /** The carry is the bit that fell out, N and Z tell about the result, and the other flags are the same. */
  predicate TellsShift(r: Sum, s: Status, out: bool) {
    r.s == s.(n := r.a >= 128, z := r.a == 0, c := out)
  }

  lemma ShiftTells(r: Sum, s: Status, out: bool)
    requires TellsShift(r, s, out)
    ensures TellsResult(r.s, r.a) && OtherFlags(r.s.(c := s.c), s) && (Taken(BCS, r.s) <==> out)
  {
    FlagsTell(r.s, r.a);
    hide TellsResult;
  }

  lemma LeftShifts(t: byte, s: Status)
    ensures TellsShift(Modify(ASL, t, s), s, t >= 128) && Modify(ASL, t, s).a == 2 * t - Weight(t >= 128, 256)
  {
  }

  lemma RightShifts(t: byte, s: Status)
    ensures TellsShift(Modify(LSR, t, s), s, t % 2 == 1) && 2 * Modify(LSR, t, s).a == t - Weight(t % 2 == 1, 1)
  {
  }

  lemma LeftRotates(t: byte, s: Status)
    ensures var r := Modify(ROL, t, s);
            TellsShift(r, s, t >= 128) && r.a == 2 * t - Weight(t >= 128, 256) + Weight(s.c, 1)
  {
  }

  lemma RightRotates(t: byte, s: Status)
    ensures var r := Modify(ROR, t, s);
            TellsShift(r, s, t % 2 == 1) && 2 * r.a == t - Weight(t % 2 == 1, 1) + Weight(s.c, 256)
  {
  }

  /** Shifts and rotations put the bit that falls out into the carry and tell about the result. */
  lemma ShiftsTell(m: Mnemonic, t: byte, s: Status)
    requires m == ASL || m == LSR || m == ROL || m == ROR
    ensures var r := Modify(m, t, s);
            && TellsResult(r.s, r.a) && OtherFlags(r.s.(c := s.c), s)
            && (Taken(BCS, r.s) <==> if m == ASL || m == ROL then t >= 128 else t % 2 == 1)
    ensures m == ASL ==> Modify(m, t, s).a + Weight(t >= 128, 256) == 2 * t
    ensures m == LSR ==> 2 * Modify(m, t, s).a + Weight(t % 2 == 1, 1) == t
  {
    hide Modify, TellsShift, TellsResult, OtherFlags, Weight, Taken;
    if m == ASL {
      LeftShifts(t, s);
    } else if m == LSR {
      RightShifts(t, s);
    } else if m == ROL {
      LeftRotates(t, s);
    } else {
      RightRotates(t, s);
    }
    ShiftTells(Modify(m, t, s), s, if m == ASL || m == ROL then t >= 128 else t % 2 == 1);
  }

  /** A rotation turns nine bits, the byte and the carry. */
  lemma Rotates(t: byte, s: Status)
    ensures var r := Modify(ROL, t, s); r.a + 256 * Carry(r.s) == 2 * t + Carry(s)
    ensures var r := Modify(ROR, t, s); 2 * r.a + Carry(r.s) == t + 256 * Carry(s)
  {
    LeftRotates(t, s);
    RightRotates(t, s);
    hide Modify;
  }

  /** ROL and ROR undo each other, carry and all. */
  lemma RotationsUndo(t: byte, s: Status)
    ensures var l := Modify(ROL, t, s); var r := Modify(ROR, l.a, l.s); r.a == t && r.s.c == s.c
    ensures var r := Modify(ROR, t, s); var l := Modify(ROL, r.a, r.s); l.a == t && l.s.c == s.c
  {
    var l, r := Modify(ROL, t, s), Modify(ROR, t, s);
    Rotates(t, s);
    Rotates(l.a, l.s);
    Rotates(r.a, r.s);
    hide Modify;
  }

  /** INC and DEC count around the byte, tell about the result, and leave the carry. */
  lemma CountsInMemory(t: byte, s: Status)
    ensures var r := Modify(INC, t, s);
            r.a == (if t == 255 then 0 else t + 1) && TellsResult(r.s, r.a) && OtherFlags(r.s, s)
    ensures var r := Modify(DEC, t, s);
            r.a == (if t == 0 then 255 else t - 1) && TellsResult(r.s, r.a) && OtherFlags(r.s, s)
  {
    hide Taken, SetNZ;
    NZTell(s, Modify(INC, t, s).a);
    NZTell(s, Modify(DEC, t, s).a);
  }

  // --- Operations without an operand ------------------------------------------------

  /** Doing an operation `n` times. */
  function Times(m: Mnemonic, cpu: Cpu, n: nat): Cpu {
    if n == 0 then cpu else Implieds(m, Times(m, cpu, n - 1))
  }

  /** Counting a register in a loop passes all 256 values in order, and changes nothing else but flags. */
  lemma {:induction false} CountsUp(cpu: Cpu, n: nat)
    ensures var r := Times(INX, cpu, n); r.x == Wrap8(cpu.x + n) && r == cpu.(x := r.x, s := r.s)
    ensures var r := Times(INY, cpu, n); r.y == Wrap8(cpu.y + n) && r == cpu.(y := r.y, s := r.s)
  {
    hide SetNZ;
    if n > 0 {
      CountsUp(cpu, n - 1);
      WrapAgain(cpu.x + n - 1, 1);
      WrapAgain(cpu.y + n - 1, 1);
      hide Wrap8;
    }
  }

  lemma {:induction false} CountsDown(cpu: Cpu, n: nat)
    ensures var r := Times(DEX, cpu, n); r.x == Wrap8(cpu.x - n) && r == cpu.(x := r.x, s := r.s)
    ensures var r := Times(DEY, cpu, n); r.y == Wrap8(cpu.y - n) && r == cpu.(y := r.y, s := r.s)
  {
    hide SetNZ;
    if n > 0 {
      CountsDown(cpu, n - 1);
      WrapAgain(cpu.x - (n - 1), -1);
      WrapAgain(cpu.y - (n - 1), -1);
      hide Wrap8;
    }
  }

  lemma WrapAgain(n: int, d: int)
    ensures Wrap8(Wrap8(n) + d) == Wrap8(n + d)
  {
  }

  /** Counting back as often gives the register back. */
  lemma CountsBack(cpu: Cpu, n: nat)
    ensures Times(DEX, Times(INX, cpu, n), n).x == cpu.x == Times(INX, Times(DEX, cpu, n), n).x
    ensures Times(DEY, Times(INY, cpu, n), n).y == cpu.y == Times(INY, Times(DEY, cpu, n), n).y
  {
    hide Times, Wrap8;
    CountsUp(cpu, n);
    CountsDown(cpu, n);
    CountsDown(Times(INX, cpu, n), n);
    CountsUp(Times(DEX, cpu, n), n);
    CountsDown(Times(INY, cpu, n), n);
    CountsUp(Times(DEY, cpu, n), n);
    WrapsBack(cpu.x, n);
    WrapsBack(cpu.y, n);
  }

  lemma WrapsBack(r: byte, n: nat)
    ensures Wrap8(Wrap8(r + n) - n) == r && Wrap8(Wrap8(r - n) + n) == r
  {
    WrapAgain(r + n, 0 - n);
    WrapAgain(r - n, n);
    assert Wrap8(r) == r;
    hide Wrap8;
  }

  /** Each count tells about the register. */
  lemma CountsTell(cpu: Cpu)
    ensures var r := Implieds(INX, cpu); TellsResult(r.s, r.x) && OtherFlags(r.s, cpu.s)
    ensures var r := Implieds(DEX, cpu); TellsResult(r.s, r.x) && OtherFlags(r.s, cpu.s)
    ensures var r := Implieds(INY, cpu); TellsResult(r.s, r.y) && OtherFlags(r.s, cpu.s)
    ensures var r := Implieds(DEY, cpu); TellsResult(r.s, r.y) && OtherFlags(r.s, cpu.s)
  {
    NZTell(cpu.s, Implieds(INX, cpu).x);
    NZTell(cpu.s, Implieds(DEX, cpu).x);
    NZTell(cpu.s, Implieds(INY, cpu).y);
    NZTell(cpu.s, Implieds(DEY, cpu).y);
    hide SetNZ, Taken, Wrap8;
  }

  /** A transfer carries one register to another and tells about it. */
  lemma TransfersOut(cpu: Cpu)
    ensures var r := Implieds(TAX, cpu);
            r == cpu.(x := cpu.a, s := r.s) && TellsResult(r.s, cpu.a) && OtherFlags(r.s, cpu.s)
    ensures var r := Implieds(TAY, cpu);
            r == cpu.(y := cpu.a, s := r.s) && TellsResult(r.s, cpu.a) && OtherFlags(r.s, cpu.s)
  {
    NZTell(cpu.s, cpu.a);
    hide SetNZ, TellsResult, OtherFlags;
  }

  lemma TransfersBack(cpu: Cpu)
    ensures var r := Implieds(TXA, cpu);
            r == cpu.(a := cpu.x, s := r.s) && TellsResult(r.s, cpu.x) && OtherFlags(r.s, cpu.s)
    ensures var r := Implieds(TYA, cpu);
            r == cpu.(a := cpu.y, s := r.s) && TellsResult(r.s, cpu.y) && OtherFlags(r.s, cpu.s)
  {
    NZTell(cpu.s, cpu.x);
    NZTell(cpu.s, cpu.y);
    hide SetNZ, TellsResult, OtherFlags;
  }

  /** TXS leaves the flags; NOP and SYS change nothing. */
  lemma StackTransfers(cpu: Cpu)
    ensures var r := Implieds(TSX, cpu);
            r == cpu.(x := cpu.sp, s := r.s) && TellsResult(r.s, cpu.sp) && OtherFlags(r.s, cpu.s)
    ensures Implieds(TXS, cpu) == cpu.(sp := cpu.x) && Implieds(NOP, cpu) == cpu == Implieds(SYS, cpu)
  {
    NZTell(cpu.s, cpu.sp);
    hide SetNZ, TellsResult, OtherFlags;
  }

  /** The bits of the packed flags, N highest. */
  lemma FlagBits(s: Status)
    ensures ToByte(s) == Weight(s.n, 128) + Weight(s.v, 64) + Weight(s.u, 32) + Weight(s.b, 16) + Weight(s.d, 8)
                         + Weight(s.i, 4) + Weight(s.z, 2) + Weight(s.c, 1)
  {
  }

  /** Only the flags change, and in them only one bit. */
  predicate OneFlag(cpu: Cpu, r: Cpu, bit: nat, was: bool, now: bool) {
    r == cpu.(s := r.s) && ToByte(r.s) == ToByte(cpu.s) - Weight(was, bit) + Weight(now, bit)
  }

  /** Each operation on a flag sets or clears its own bit and nothing else. */
  lemma FlagsDecide(cpu: Cpu)
    ensures OneFlag(cpu, Implieds(SEC, cpu), 1, cpu.s.c, true) && OneFlag(cpu, Implieds(CLC, cpu), 1, cpu.s.c, false)
    ensures OneFlag(cpu, Implieds(SEI, cpu), 4, cpu.s.i, true) && OneFlag(cpu, Implieds(CLI, cpu), 4, cpu.s.i, false)
    ensures OneFlag(cpu, Implieds(SED, cpu), 8, cpu.s.d, true) && OneFlag(cpu, Implieds(CLD, cpu), 8, cpu.s.d, false)
    ensures OneFlag(cpu, Implieds(CLV, cpu), 64, cpu.s.v, false)
    ensures Taken(BCS, Implieds(SEC, cpu).s) && Taken(BCC, Implieds(CLC, cpu).s) && Taken(BVC, Implieds(CLV, cpu).s)
  {
    hide OneFlag, Taken;
    CarryImplieds(cpu);
    InterruptImplieds(cpu);
    DecimalImplieds(cpu);
    CarryBranches(cpu.s);
    CarryBit(cpu, true);
    CarryBit(cpu, false);
    InterruptBit(cpu, true);
    InterruptBit(cpu, false);
    DecimalBit(cpu, true);
    DecimalBit(cpu, false);
    OverflowBit(cpu);
    hide Implieds;
  }

  lemma CarryImplieds(cpu: Cpu)
    ensures Implieds(SEC, cpu) == cpu.(s := cpu.s.(c := true)) && Implieds(CLC, cpu) == cpu.(s := cpu.s.(c := false))
  {
    hide SetNZ, Wrap8;
  }

  lemma InterruptImplieds(cpu: Cpu)
    ensures Implieds(SEI, cpu) == cpu.(s := cpu.s.(i := true)) && Implieds(CLI, cpu) == cpu.(s := cpu.s.(i := false))
  {
    hide SetNZ, Wrap8;
  }

  lemma DecimalImplieds(cpu: Cpu)
    ensures Implieds(SED, cpu) == cpu.(s := cpu.s.(d := true)) && Implieds(CLD, cpu) == cpu.(s := cpu.s.(d := false))
    ensures Implieds(CLV, cpu) == cpu.(s := cpu.s.(v := false))
  {
    hide SetNZ, Wrap8;
  }

  lemma CarryBranches(s: Status)
    ensures Taken(BCS, s.(c := true)) && Taken(BCC, s.(c := false)) && Taken(BVC, s.(v := false))
  {
  }

  lemma CarryBit(cpu: Cpu, now: bool)
    ensures OneFlag(cpu, cpu.(s := cpu.s.(c := now)), 1, cpu.s.c, now)
  {
    FlagBits(cpu.s);
    FlagBits(cpu.s.(c := now));
    hide ToByte, Weight;
  }

  lemma InterruptBit(cpu: Cpu, now: bool)
    ensures OneFlag(cpu, cpu.(s := cpu.s.(i := now)), 4, cpu.s.i, now)
  {
    FlagBits(cpu.s);
    FlagBits(cpu.s.(i := now));
    hide ToByte, Weight;
  }

  lemma DecimalBit(cpu: Cpu, now: bool)
    ensures OneFlag(cpu, cpu.(s := cpu.s.(d := now)), 8, cpu.s.d, now)
  {
    FlagBits(cpu.s);
    FlagBits(cpu.s.(d := now));
    hide ToByte, Weight;
  }

  lemma OverflowBit(cpu: Cpu)
    ensures OneFlag(cpu, cpu.(s := cpu.s.(v := false)), 64, cpu.s.v, false)
  {
    FlagBits(cpu.s);
    FlagBits(cpu.s.(v := false));
    hide ToByte, Weight;
  }

  // --- Branches by their opcodes ----------------------------------------------------

  /** The flag that the two highest bits of a branch's opcode choose. */
  function Tested(opcode: byte, s: Status): bool {
    match opcode / 64
    case 0 => s.n
    case 1 => s.v
    case 2 => s.c
    case _ => s.z
  }

  lemma OthersDoNotBranch(opcode: byte)
    requires opcode % 32 != 16
    ensures Decode(opcode).Instruction? ==> KindOf(Decode(opcode).operation) != Branching
  {
    OpcodeLayout.DecodeIsLayout(opcode);
    hide Decode;
  }

  lemma BranchTests(opcode: byte, s: Status)
    requires opcode % 32 == 16
    ensures var ins := Decode(opcode);
            && ins.Instruction? && KindOf(ins.operation) == Branching
            && (Taken(ins.operation, s) <==> Tested(opcode, s) == (opcode / 32 % 2 == 1))
  {
    assert opcode == 32 * (opcode / 32) + 16;
  }

  /** The opcodes of the branches are those that end in 10000; the two highest bits choose the flag and the third says
      whether it must be set. */
  lemma BranchesByOpcode(opcode: byte, s: Status)
    ensures var ins := Decode(opcode);
            && (ins.Instruction? && KindOf(ins.operation) == Branching <==> opcode % 32 == 16)
            && (opcode % 32 == 16 ==> (Taken(ins.operation, s) <==> Tested(opcode, s) == (opcode / 32 % 2 == 1)))
  {
    hide Decode, KindOf, Taken, Tested;
    if opcode % 32 == 16 {
      BranchTests(opcode, s);
    } else {
      OthersDoNotBranch(opcode);
    }
  }
}
