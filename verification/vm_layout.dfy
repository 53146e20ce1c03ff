/** The opcodes of the machine by the layout of the 6502, apart from its own switch and from the assembler's table. */
module OpcodeLayout {
  import opened Bits
  import opened OpcodeTable
  import opened Execution

  /** The operations in the columns whose opcodes end in 01, 10 and 00, by the three highest bits. */
  function OperationsEndingIn01(row: nat): Mnemonic {
    match row
    case 0 => ORA case 1 => AND case 2 => EOR case 3 => ADC case 4 => STA case 5 => LDA case 6 => CMP case _ => SBC
  }

  function OperationsEndingIn10(row: nat): Mnemonic {
    match row
    case 0 => ASL case 1 => ROL case 2 => LSR case 3 => ROR case 4 => STX case 5 => LDX case 6 => DEC case _ => INC
  }

  function OperationsEndingIn00(row: nat): Mnemonic {
    match row
    case 1 => BIT case 4 => STY case 5 => LDY case 6 => CPY case _ => CPX
  }

  /** Opcodes that end in 01: every mode in each row, but for a store into a constant. */
  function EndingIn01(row: nat, column: nat): Instruction {
    var m := OperationsEndingIn01(row);
    match column
    case 0 => Instruction(m, IndexedIndirect)
    case 1 => Instruction(m, ZeroPage)
    case 2 => if m == STA then Unknown else Instruction(m, Immediate)
    case 3 => Instruction(m, Absolute)
    case 4 => Instruction(m, IndirectIndexed)
    case 5 => Instruction(m, ZeroPageX)
    case 6 => Instruction(m, AbsoluteY)
    case _ => Instruction(m, AbsoluteX)
  }

  /** Opcodes that end in 10: the shifts and counts, and the X register, which is indexed by Y. */
  function EndingIn10(row: nat, column: nat): Instruction {
    var m := OperationsEndingIn10(row);
    var forX := m == STX || m == LDX;
    match column
    case 0 => if m == LDX then Instruction(LDX, Immediate) else if row == 0 then Instruction(SYS, Implied) else Unknown
    case 1 => Instruction(m, ZeroPage)
    case 2 =>
      (match row
       case 4 => Instruction(TXA, Implied) case 5 => Instruction(TAX, Implied)
       case 6 => Instruction(DEX, Implied) case 7 => Instruction(NOP, Implied)
       case _ => Instruction(m, Accumulator))
    case 3 => Instruction(m, Absolute)
    case 5 => Instruction(m, if forX then ZeroPageY else ZeroPageX)
    case 6 => if row == 4 then Instruction(TXS, Implied) else if row == 5 then Instruction(TSX, Implied) else Unknown
    case 7 => if m == STX then Unknown else Instruction(m, if forX then AbsoluteY else AbsoluteX)
    case _ => Unknown
  }

  /** Opcodes that end in 00: jumps and stack, the Y register, the flags, and the branches in column 4. */
  function EndingIn00(row: nat, column: nat): Instruction {
    var m := OperationsEndingIn00(row);
    match column
    case 0 =>
      (match row
       case 0 => Instruction(BRK, Implied) case 1 => Instruction(JSR, Absolute) case 2 => Instruction(RTI, Implied)
       case 3 => Instruction(RTS, Implied) case 4 => Unknown case _ => Instruction(m, Immediate))
    case 1 => if row == 1 || row >= 4 then Instruction(m, ZeroPage) else Unknown
    case 2 =>
      (match row
       case 0 => Instruction(PHP, Implied) case 1 => Instruction(PLP, Implied) case 2 => Instruction(PHA, Implied)
       case 3 => Instruction(PLA, Implied) case 4 => Instruction(DEY, Implied) case 5 => Instruction(TAY, Implied)
       case 6 => Instruction(INY, Implied) case _ => Instruction(INX, Implied))
    case 3 =>
      (match row
       case 0 => Unknown case 2 => Instruction(JMP, Absolute) case 3 => Instruction(JMP, IndirectAbsolute)
       case _ => Instruction(m, Absolute))
    case 4 =>
      (match row
       case 0 => Instruction(BPL, Relative) case 1 => Instruction(BMI, Relative) case 2 => Instruction(BVC, Relative)
       case 3 => Instruction(BVS, Relative) case 4 => Instruction(BCC, Relative) case 5 => Instruction(BCS, Relative)
       case 6 => Instruction(BNE, Relative) case _ => Instruction(BEQ, Relative))
    case 5 => if m == STY || m == LDY then Instruction(m, ZeroPageX) else Unknown
    case 6 =>
      (match row
       case 0 => Instruction(CLC, Implied) case 1 => Instruction(SEC, Implied) case 2 => Instruction(CLI, Implied)
       case 3 => Instruction(SEI, Implied) case 4 => Instruction(TYA, Implied) case 5 => Instruction(CLV, Implied)
       case 6 => Instruction(CLD, Implied) case _ => Instruction(SED, Implied))
    case _ => if m == LDY then Instruction(LDY, AbsoluteX) else Unknown
  }

  /** The row is in the three highest bits, the column in the next three, the group in the two lowest. */
  function ByLayout(opcode: byte): Instruction {
    var row, column := opcode / 32, opcode / 4 % 8;
    match opcode % 4
    case 0 => EndingIn00(row, column)
    case 1 => EndingIn01(row, column)
    case 2 => EndingIn10(row, column)
    case _ => Unknown
  }

  lemma Layout00(o: byte) requires o / 8 == 0 ensures Decode(o) == ByLayout(o) {}
  lemma Layout08(o: byte) requires o / 8 == 1 ensures Decode(o) == ByLayout(o) {}
  lemma Layout10(o: byte) requires o / 8 == 2 ensures Decode(o) == ByLayout(o) {}
  lemma Layout18(o: byte) requires o / 8 == 3 ensures Decode(o) == ByLayout(o) {}
  lemma Layout20(o: byte) requires o / 8 == 4 ensures Decode(o) == ByLayout(o) {}
  lemma Layout28(o: byte) requires o / 8 == 5 ensures Decode(o) == ByLayout(o) {}
  lemma Layout30(o: byte) requires o / 8 == 6 ensures Decode(o) == ByLayout(o) {}
  lemma Layout38(o: byte) requires o / 8 == 7 ensures Decode(o) == ByLayout(o) {}
  lemma Layout40(o: byte) requires o / 8 == 8 ensures Decode(o) == ByLayout(o) {}
  lemma Layout48(o: byte) requires o / 8 == 9 ensures Decode(o) == ByLayout(o) {}
  lemma Layout50(o: byte) requires o / 8 == 10 ensures Decode(o) == ByLayout(o) {}
  lemma Layout58(o: byte) requires o / 8 == 11 ensures Decode(o) == ByLayout(o) {}
  lemma Layout60(o: byte) requires o / 8 == 12 ensures Decode(o) == ByLayout(o) {}
  lemma Layout68(o: byte) requires o / 8 == 13 ensures Decode(o) == ByLayout(o) {}
  lemma Layout70(o: byte) requires o / 8 == 14 ensures Decode(o) == ByLayout(o) {}
  lemma Layout78(o: byte) requires o / 8 == 15 ensures Decode(o) == ByLayout(o) {}
  lemma Layout80(o: byte) requires o / 8 == 16 ensures Decode(o) == ByLayout(o) {}
  lemma Layout88(o: byte) requires o / 8 == 17 ensures Decode(o) == ByLayout(o) {}
  lemma Layout90(o: byte) requires o / 8 == 18 ensures Decode(o) == ByLayout(o) {}
  lemma Layout98(o: byte) requires o / 8 == 19 ensures Decode(o) == ByLayout(o) {}
  lemma LayoutA0(o: byte) requires o / 8 == 20 ensures Decode(o) == ByLayout(o) {}
  lemma LayoutA8(o: byte) requires o / 8 == 21 ensures Decode(o) == ByLayout(o) {}
  lemma LayoutB0(o: byte) requires o / 8 == 22 ensures Decode(o) == ByLayout(o) {}
  lemma LayoutB8(o: byte) requires o / 8 == 23 ensures Decode(o) == ByLayout(o) {}
  lemma LayoutC0(o: byte) requires o / 8 == 24 ensures Decode(o) == ByLayout(o) {}
  lemma LayoutC8(o: byte) requires o / 8 == 25 ensures Decode(o) == ByLayout(o) {}
  lemma LayoutD0(o: byte) requires o / 8 == 26 ensures Decode(o) == ByLayout(o) {}
  lemma LayoutD8(o: byte) requires o / 8 == 27 ensures Decode(o) == ByLayout(o) {}
  lemma LayoutE0(o: byte) requires o / 8 == 28 ensures Decode(o) == ByLayout(o) {}
  lemma LayoutE8(o: byte) requires o / 8 == 29 ensures Decode(o) == ByLayout(o) {}
  lemma LayoutF0(o: byte) requires o / 8 == 30 ensures Decode(o) == ByLayout(o) {}
  lemma LayoutF8(o: byte) requires o / 8 == 31 ensures Decode(o) == ByLayout(o) {}

  /** The cases of the switch are the layout of the 6502, for all 256 opcodes. */
  lemma DecodeIsLayout(o: byte)
    ensures Decode(o) == ByLayout(o)
  {
    hide *;
    match o / 8 {
      case 0 => Layout00(o);
      case 1 => Layout08(o);
      case 2 => Layout10(o);
      case 3 => Layout18(o);
      case 4 => Layout20(o);
      case 5 => Layout28(o);
      case 6 => Layout30(o);
      case 7 => Layout38(o);
      case 8 => Layout40(o);
      case 9 => Layout48(o);
      case 10 => Layout50(o);
      case 11 => Layout58(o);
      case 12 => Layout60(o);
      case 13 => Layout68(o);
      case 14 => Layout70(o);
      case 15 => Layout78(o);
      case 16 => Layout80(o);
      case 17 => Layout88(o);
      case 18 => Layout90(o);
      case 19 => Layout98(o);
      case 20 => LayoutA0(o);
      case 21 => LayoutA8(o);
      case 22 => LayoutB0(o);
      case 23 => LayoutB8(o);
      case 24 => LayoutC0(o);
      case 25 => LayoutC8(o);
      case 26 => LayoutD0(o);
      case 27 => LayoutD8(o);
      case 28 => LayoutE0(o);
      case 29 => LayoutE8(o);
      case 30 => LayoutF0(o);
      case _ => LayoutF8(o);
    }
  }
}
