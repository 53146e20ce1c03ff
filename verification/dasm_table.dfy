/** The opcode table of the assembler and disassembler. */
module OpcodeTable {
  import opened Bits

  datatype Mode =
    | Implied | Absolute | Immediate | ZeroPage | IndirectAbsolute | AbsoluteX | AbsoluteY
    | ZeroPageX | ZeroPageY | IndexedIndirect | IndirectIndexed | Relative | Accumulator

  datatype Mnemonic =
    | ADC | AND | ASL | BCC | BCS | BEQ | BIT | BMI | BNE | BPL | BRK | BVC | BVS | CLC | CLD | CLI
    | CLV | CMP | CPX | CPY | DEC | DEX | DEY | EOR | INC | INX | INY | JMP | JSR | LDA | LDX | LDY
    | LSR | NOP | ORA | PHA | PHP | PLA | PLP | ROL | ROR | RTI | RTS | SBC | SEC | SED | SEI | STA
    | STX | STY | SYS | TAX | TAY | TSX | TXA | TXS | TYA

  datatype Row = Row(opcode: byte, mnemonic: Mnemonic, mode: Mode)

  /** The table has 152 rows, and 152 stands for "not found". */
  const ROWS := 152

  /** Row `i` of `vm_op_tbl`, which is written in parts of 16 to keep each function small. */
  function RowAt(i: nat): Row {
    if i < 16 then Rows00(i)
    else if i < 32 then Rows10(i)
    else if i < 48 then Rows20(i)
    else if i < 64 then Rows30(i)
    else if i < 80 then Rows40(i)
    else if i < 96 then Rows50(i)
    else if i < 112 then Rows60(i)
    else if i < 128 then Rows70(i)
    else if i < 144 then Rows80(i)
    else Rows90(i)
  }

  function Rows00(i: nat): Row {
    match i
    case 0 => Row(0x00, BRK, Implied)
    case 1 => Row(0x01, ORA, ZeroPageX)
    case 2 => Row(0x02, SYS, Implied)
    case 3 => Row(0x05, ORA, ZeroPage)
    case 4 => Row(0x06, ASL, ZeroPage)
    case 5 => Row(0x08, PHP, Implied)
    case 6 => Row(0x09, ORA, Immediate)
    case 7 => Row(0x0a, ASL, Accumulator)
    case 8 => Row(0x0d, ORA, Absolute)
    case 9 => Row(0x0e, ASL, Absolute)
    case 10 => Row(0x10, BPL, Relative)
    case 11 => Row(0x11, ORA, IndirectIndexed)
    case 12 => Row(0x15, ORA, ZeroPageX)
    case 13 => Row(0x16, ASL, ZeroPageX)
    case 14 => Row(0x18, CLC, Implied)
    case _ => Row(0x19, ORA, AbsoluteY)
  }

  function Rows10(i: nat): Row {
    match i
    case 16 => Row(0x1d, ORA, AbsoluteX)
    case 17 => Row(0x1e, ASL, AbsoluteX)
    case 18 => Row(0x20, JSR, Absolute)
    case 19 => Row(0x21, AND, ZeroPageX)
    case 20 => Row(0x24, BIT, ZeroPage)
    case 21 => Row(0x25, AND, ZeroPage)
    case 22 => Row(0x26, ROL, ZeroPage)
    case 23 => Row(0x28, PLP, Implied)
    case 24 => Row(0x29, AND, Immediate)
    case 25 => Row(0x2a, ROL, Accumulator)
    case 26 => Row(0x2c, BIT, Absolute)
    case 27 => Row(0x2d, AND, Absolute)
    case 28 => Row(0x2e, ROL, Absolute)
    case 29 => Row(0x30, BMI, Relative)
    case 30 => Row(0x31, AND, IndirectIndexed)
    case _ => Row(0x35, AND, ZeroPageX)
  }

  function Rows20(i: nat): Row {
    match i
    case 32 => Row(0x36, ROL, ZeroPageX)
    case 33 => Row(0x38, SEC, Implied)
    case 34 => Row(0x39, AND, AbsoluteY)
    case 35 => Row(0x3d, ORA, AbsoluteX)
    case 36 => Row(0x3e, ROL, AbsoluteX)
    case 37 => Row(0x40, RTI, Implied)
    case 38 => Row(0x41, EOR, IndexedIndirect)
    case 39 => Row(0x45, EOR, ZeroPage)
    case 40 => Row(0x46, LSR, ZeroPage)
    case 41 => Row(0x48, PHA, Implied)
    case 42 => Row(0x49, EOR, Immediate)
    case 43 => Row(0x4a, LSR, Accumulator)
    case 44 => Row(0x4c, JMP, Absolute)
    case 45 => Row(0x4d, EOR, Absolute)
    case 46 => Row(0x4e, LSR, Absolute)
    case _ => Row(0x50, BVC, Relative)
  }

  function Rows30(i: nat): Row {
    match i
    case 48 => Row(0x51, EOR, IndirectIndexed)
    case 49 => Row(0x55, EOR, ZeroPageX)
    case 50 => Row(0x56, LSR, ZeroPageX)
    case 51 => Row(0x58, CLI, Implied)
    case 52 => Row(0x59, EOR, AbsoluteY)
    case 53 => Row(0x5d, EOR, AbsoluteX)
    case 54 => Row(0x5e, LSR, AbsoluteX)
    case 55 => Row(0x60, RTS, Implied)
    case 56 => Row(0x61, ADC, ZeroPageX)
    case 57 => Row(0x65, ADC, ZeroPage)
    case 58 => Row(0x66, ROR, ZeroPage)
    case 59 => Row(0x68, PLA, Implied)
    case 60 => Row(0x69, ADC, Immediate)
    case 61 => Row(0x6a, ROR, Accumulator)
    case 62 => Row(0x6c, JMP, IndirectAbsolute)
    case _ => Row(0x6d, ADC, Absolute)
  }

  function Rows40(i: nat): Row {
    match i
    case 64 => Row(0x6e, ROR, Absolute)
    case 65 => Row(0x70, BVS, Relative)
    case 66 => Row(0x71, ADC, IndirectIndexed)
    case 67 => Row(0x75, ADC, ZeroPageX)
    case 68 => Row(0x76, ROR, ZeroPageX)
    case 69 => Row(0x78, SEI, Implied)
    case 70 => Row(0x79, ADC, AbsoluteY)
    case 71 => Row(0x7d, ADC, AbsoluteX)
    case 72 => Row(0x7e, ROR, AbsoluteX)
    case 73 => Row(0x81, STA, IndexedIndirect)
    case 74 => Row(0x84, STY, ZeroPage)
    case 75 => Row(0x85, STA, ZeroPage)
    case 76 => Row(0x86, STX, ZeroPage)
    case 77 => Row(0x88, DEY, Implied)
    case 78 => Row(0x8a, TXA, Implied)
    case _ => Row(0x8c, STY, Absolute)
  }

  function Rows50(i: nat): Row {
    match i
    case 80 => Row(0x8d, STA, Absolute)
    case 81 => Row(0x8e, STX, Absolute)
    case 82 => Row(0x90, BCC, Relative)
    case 83 => Row(0x91, STA, IndirectIndexed)
    case 84 => Row(0x94, STY, ZeroPageX)
    case 85 => Row(0x95, STA, ZeroPageX)
    case 86 => Row(0x96, STX, ZeroPageY)
    case 87 => Row(0x98, TYA, Implied)
    case 88 => Row(0x99, STA, AbsoluteY)
    case 89 => Row(0x9a, TXS, Implied)
    case 90 => Row(0x9d, STA, AbsoluteX)
    case 91 => Row(0xa0, LDY, Immediate)
    case 92 => Row(0xa1, LDA, ZeroPageX)
    case 93 => Row(0xa2, LDX, Immediate)
    case 94 => Row(0xa4, LDY, ZeroPage)
    case _ => Row(0xa5, LDA, ZeroPage)
  }

  function Rows60(i: nat): Row {
    match i
    case 96 => Row(0xa6, LDX, ZeroPage)
    case 97 => Row(0xa8, TAY, Implied)
    case 98 => Row(0xa9, LDA, Immediate)
    case 99 => Row(0xaa, TAX, Implied)
    case 100 => Row(0xac, LDY, Absolute)
    case 101 => Row(0xad, LDA, Absolute)
    case 102 => Row(0xae, LDX, Absolute)
    case 103 => Row(0xb0, BCS, Relative)
    case 104 => Row(0xb1, LDA, IndirectIndexed)
    case 105 => Row(0xb4, LDY, ZeroPageX)
    case 106 => Row(0xb5, LDA, ZeroPageX)
    case 107 => Row(0xb6, LDX, ZeroPageY)
    case 108 => Row(0xb8, CLV, Implied)
    case 109 => Row(0xb9, LDA, AbsoluteY)
    case 110 => Row(0xba, TSX, Implied)
    case _ => Row(0xbc, LDY, AbsoluteX)
  }

  function Rows70(i: nat): Row {
    match i
    case 112 => Row(0xbd, LDA, AbsoluteX)
    case 113 => Row(0xbe, LDX, AbsoluteY)
    case 114 => Row(0xc0, CPY, Immediate)
    case 115 => Row(0xc1, CMP, ZeroPageX)
    case 116 => Row(0xc4, CPY, ZeroPage)
    case 117 => Row(0xc5, CMP, ZeroPage)
    case 118 => Row(0xc6, DEC, ZeroPage)
    case 119 => Row(0xc8, INY, Implied)
    case 120 => Row(0xc9, CMP, Immediate)
    case 121 => Row(0xca, DEX, Implied)
    case 122 => Row(0xcc, CPY, Absolute)
    case 123 => Row(0xcd, CMP, Absolute)
    case 124 => Row(0xce, DEC, Absolute)
    case 125 => Row(0xd0, BNE, Relative)
    case 126 => Row(0xd1, CMP, IndirectIndexed)
    case _ => Row(0xd5, CMP, ZeroPageX)
  }

  function Rows80(i: nat): Row {
    match i
    case 128 => Row(0xd6, DEC, ZeroPageX)
    case 129 => Row(0xd8, CLD, Implied)
    case 130 => Row(0xd9, CMP, AbsoluteY)
    case 131 => Row(0xdd, CMP, AbsoluteX)
    case 132 => Row(0xde, DEC, AbsoluteX)
    case 133 => Row(0xe0, CPX, Immediate)
    case 134 => Row(0xe1, SBC, ZeroPageX)
    case 135 => Row(0xe4, CPX, ZeroPage)
    case 136 => Row(0xe5, SBC, ZeroPage)
    case 137 => Row(0xe6, INC, ZeroPage)
    case 138 => Row(0xe8, INX, Implied)
    case 139 => Row(0xe9, SBC, Immediate)
    case 140 => Row(0xea, NOP, Implied)
    case 141 => Row(0xec, CPX, Absolute)
    case 142 => Row(0xed, SBC, Absolute)
    case _ => Row(0xee, INC, Absolute)
  }

  function Rows90(i: nat): Row {
    match i
    case 144 => Row(0xf0, BEQ, Relative)
    case 145 => Row(0xf1, SBC, IndirectIndexed)
    case 146 => Row(0xf5, SBC, ZeroPageX)
    case 147 => Row(0xf6, INC, ZeroPageX)
    case 148 => Row(0xf8, SED, Implied)
    case 149 => Row(0xf9, SBC, AbsoluteY)
    case 150 => Row(0xfd, SBC, AbsoluteX)
    case _ => Row(0xfe, INC, AbsoluteX)
  }

  /** The opcode of an instruction, from the layout of the 6502's opcodes: a row of 32 per operation, a column of 4 per
      mode. The column of zp,X follows the table: for ORA, AND, ADC, LDA, CMP and SBC it is that of the 6502's (zp,X),
      for EOR, STA and all others that of its zp,X. */
  function Encode(m: Mnemonic, mode: Mode): nat {
    match m
    case ORA => 0x01 + Column(mode, 0x00)
    case AND => 0x21 + Column(mode, 0x00)
    case EOR => 0x41 + Column(mode, 0x14)
    case ADC => 0x61 + Column(mode, 0x00)
    case STA => 0x81 + Column(mode, 0x14)
    case LDA => 0xa1 + Column(mode, 0x00)
    case CMP => 0xc1 + Column(mode, 0x00)
    case SBC => 0xe1 + Column(mode, 0x00)
    case ASL => 0x06 + Column(mode, 0x14) - 4
    case ROL => 0x26 + Column(mode, 0x14) - 4
    case LSR => 0x46 + Column(mode, 0x14) - 4
    case ROR => 0x66 + Column(mode, 0x14) - 4
    case STX => if mode.ZeroPageY? then 0x96 else 0x86 + Column(mode, 0x14) - 4
    case LDX => if mode.Immediate? then 0xa2 else if mode.ZeroPageY? then 0xb6
                else if mode.AbsoluteY? then 0xbe else 0xa6 + Column(mode, 0x14) - 4
    case DEC => 0xc6 + Column(mode, 0x14) - 4
    case INC => 0xe6 + Column(mode, 0x14) - 4
    case BIT => 0x24 + Column(mode, 0x14) - 4
    case STY => 0x84 + Column(mode, 0x14) - 4
    case LDY => if mode.Immediate? then 0xa0 else 0xa4 + Column(mode, 0x14) - 4
    case CPY => if mode.Immediate? then 0xc0 else 0xc4 + Column(mode, 0x14) - 4
    case CPX => if mode.Immediate? then 0xe0 else 0xe4 + Column(mode, 0x14) - 4
    case JMP => if mode.Absolute? then 0x4c else 0x6c
    case BRK => 0x00 case JSR => 0x20 case RTI => 0x40 case RTS => 0x60 case SYS => 0x02
    case PHP => 0x08 case PLP => 0x28 case PHA => 0x48 case PLA => 0x68
    case BPL => 0x10 case BMI => 0x30 case BVC => 0x50 case BVS => 0x70
    case BCC => 0x90 case BCS => 0xb0 case BNE => 0xd0 case BEQ => 0xf0
    case CLC => 0x18 case SEC => 0x38 case CLI => 0x58 case SEI => 0x78
    case CLV => 0xb8 case CLD => 0xd8 case SED => 0xf8 case NOP => 0xea
    case DEY => 0x88 case INY => 0xc8 case DEX => 0xca case INX => 0xe8
    case TXA => 0x8a case TYA => 0x98 case TXS => 0x9a case TAY => 0xa8 case TAX => 0xaa case TSX => 0xba
  }

  function Column(mode: Mode, zeroPageX: nat): nat {
    match mode
    case IndexedIndirect => 0x00
    case ZeroPage => 0x04
    case Immediate => 0x08
    case Accumulator => 0x08
    case Absolute => 0x0c
    case IndirectIndexed => 0x10
    case AbsoluteY => 0x18
    case AbsoluteX => 0x1c
    case _ => zeroPageX
  }

  /** The rows that repeat the mnemonic and mode of an earlier row. */
  predicate Duplicate(opcode: byte) {
    match opcode
    case 0x15 => true case 0x35 => true case 0x3d => true case 0x75 => true
    case 0xb5 => true case 0xd5 => true case 0xf5 => true
    case _ => false
  }

  /** The first row with the mnemonic and mode of row `i`. */
  function Canonical(i: nat): nat {
    match i
    case 12 => 1 case 31 => 19 case 35 => 16 case 67 => 56 case 106 => 92 case 127 => 115 case 146 => 134
    case _ => i
  }

  predicate Branch(m: Mnemonic) {
    match m
    case BPL => true case BMI => true case BVC => true case BVS => true
    case BCC => true case BCS => true case BNE => true case BEQ => true
    case _ => false
  }

  predicate Capital(c: char) { 'A' <= c <= 'Z' }

  /** The three letters of a mnemonic. */
  function Spell(m: Mnemonic): (s: string)
    ensures |s| == 3 && Capital(s[0]) && Capital(s[1]) && Capital(s[2])
  {
    match m
    case ADC => "ADC" case AND => "AND" case ASL => "ASL" case BCC => "BCC" case BCS => "BCS"
    case BEQ => "BEQ" case BIT => "BIT" case BMI => "BMI" case BNE => "BNE" case BPL => "BPL"
    case BRK => "BRK" case BVC => "BVC" case BVS => "BVS" case CLC => "CLC" case CLD => "CLD"
    case CLI => "CLI" case CLV => "CLV" case CMP => "CMP" case CPX => "CPX" case CPY => "CPY"
    case DEC => "DEC" case DEX => "DEX" case DEY => "DEY" case EOR => "EOR" case INC => "INC"
    case INX => "INX" case INY => "INY" case JMP => "JMP" case JSR => "JSR" case LDA => "LDA"
    case LDX => "LDX" case LDY => "LDY" case LSR => "LSR" case NOP => "NOP" case ORA => "ORA"
    case PHA => "PHA" case PHP => "PHP" case PLA => "PLA" case PLP => "PLP" case ROL => "ROL"
    case ROR => "ROR" case RTI => "RTI" case RTS => "RTS" case SBC => "SBC" case SEC => "SEC"
    case SED => "SED" case SEI => "SEI" case STA => "STA" case STX => "STX" case STY => "STY"
    case SYS => "SYS" case TAX => "TAX" case TAY => "TAY" case TSX => "TSX" case TXA => "TXA"
    case TXS => "TXS" case TYA => "TYA"
  }

  /** Which mnemonic three letters can only be. */
  function Named(s: string): Mnemonic
    requires |s| == 3
  {
    match s[0]
    case 'A' => (match s[1] case 'D' => ADC case 'N' => AND case _ => ASL)
    case 'B' => (match s[1] case 'C' => (match s[2] case 'C' => BCC case _ => BCS) case 'E' => BEQ
        case 'I' => BIT case 'M' => BMI case 'N' => BNE case 'P' => BPL case 'R' => BRK
        case _ => (match s[2] case 'C' => BVC case _ => BVS))
    case 'C' => (match s[2] case 'C' => CLC case 'D' => CLD case 'I' => CLI case 'V' => CLV
        case 'P' => CMP case 'X' => CPX case _ => CPY)
    case 'D' => (match s[2] case 'C' => DEC case 'X' => DEX case _ => DEY)
    case 'E' => EOR
    case 'I' => (match s[2] case 'C' => INC case 'X' => INX case _ => INY)
    case 'J' => (match s[1] case 'M' => JMP case _ => JSR)
    case 'L' => (match s[2] case 'A' => LDA case 'X' => LDX case 'Y' => LDY case _ => LSR)
    case 'N' => NOP
    case 'O' => ORA
    case 'P' => (match s[1] case 'H' => (match s[2] case 'A' => PHA case _ => PHP) case _ => (match s[2]
        case 'A' => PLA case _ => PLP))
    case 'R' => (match s[2] case 'L' => ROL case 'R' => ROR case 'I' => RTI case _ => RTS)
    case 'S' => (match s[2] case 'C' => (match s[1] case 'B' => SBC case _ => SEC) case 'D' => SED
        case 'I' => SEI case 'A' => STA case 'X' => STX case 'Y' => STY case _ => SYS)
    case _ => (match s[1] case 'A' => (match s[2] case 'X' => TAX case _ => TAY) case 'S' => TSX
        case 'X' => (match s[2] case 'A' => TXA case _ => TXS) case _ => TYA)
  }

  // The mnemonics are checked in six parts, to keep each proof small.
  predicate PartA(m: Mnemonic) {
    m.ADC? || m.AND? || m.ASL? || m.BCC? || m.BCS? || m.BEQ? || m.BIT? || m.BMI? || m.BNE? || m.BPL?
  }

  predicate PartB(m: Mnemonic) {
    m.BRK? || m.BVC? || m.BVS? || m.CLC? || m.CLD? || m.CLI? || m.CLV? || m.CMP? || m.CPX? || m.CPY?
  }

  predicate PartC(m: Mnemonic) {
    m.DEC? || m.DEX? || m.DEY? || m.EOR? || m.INC? || m.INX? || m.INY? || m.JMP? || m.JSR?
  }

  predicate PartD(m: Mnemonic) {
    m.LDA? || m.LDX? || m.LDY? || m.LSR? || m.NOP? || m.ORA? || m.PHA? || m.PHP? || m.PLA? || m.PLP?
  }

  predicate PartE(m: Mnemonic) {
    m.ROL? || m.ROR? || m.RTI? || m.RTS? || m.SBC? || m.SEC? || m.SED? || m.SEI? || m.STA?
  }

  predicate PartF(m: Mnemonic) {
    m.STX? || m.STY? || m.SYS? || m.TAX? || m.TAY? || m.TSX? || m.TXA? || m.TXS? || m.TYA?
  }

  lemma NamedA(m: Mnemonic) requires PartA(m) ensures Named(Spell(m)) == m { hide Capital; }
  lemma NamedB(m: Mnemonic) requires PartB(m) ensures Named(Spell(m)) == m { hide Capital; }
  lemma NamedC(m: Mnemonic) requires PartC(m) ensures Named(Spell(m)) == m { hide Capital; }
  lemma NamedD(m: Mnemonic) requires PartD(m) ensures Named(Spell(m)) == m { hide Capital; }
  lemma NamedE(m: Mnemonic) requires PartE(m) ensures Named(Spell(m)) == m { hide Capital; }
  lemma NamedF(m: Mnemonic) requires PartF(m) ensures Named(Spell(m)) == m { hide Capital; }

  /** Every mnemonic is known by its spelling. */
  lemma NamedBySpelling(m: Mnemonic)
    ensures Named(Spell(m)) == m
  {
    hide Spell, Named;
    if PartA(m) {
      NamedA(m);
    } else if PartB(m) {
      NamedB(m);
    } else if PartC(m) {
      NamedC(m);
    } else if PartD(m) {
      NamedD(m);
    } else if PartE(m) {
      NamedE(m);
    } else {
      NamedF(m);
    }
  }

  /** Bytes in an instruction of a mode. */
  function Length(mode: Mode): nat {
    match mode
    case Implied => 1
    case Accumulator => 1
    case Absolute => 3
    case IndirectAbsolute => 3
    case AbsoluteX => 3
    case AbsoluteY => 3
    case _ => 2
  }

  // --- Facts about the table, row by row --------------------------------------------

  /** What the proofs use of row `i`. */
  predicate RowOk(i: nat) {
    var r, c := RowAt(i), RowAt(Canonical(i));
    && (i > 0 ==> RowAt(i - 1).opcode < r.opcode)
    && c.mnemonic == r.mnemonic && c.mode == r.mode && Canonical(i) <= i
    && Encode(r.mnemonic, r.mode) == c.opcode
    && (Canonical(i) == i <==> !Duplicate(r.opcode))
    && (r.mode == Relative <==> Branch(r.mnemonic))
  }

  // The rows are checked at most eight at a time, to keep each proof small.
  lemma RowsFrom0(i: nat) requires 0 <= i < 4 ensures RowOk(i) { hide Spell, Named; }
  lemma RowsFrom4(i: nat) requires 4 <= i < 8 ensures RowOk(i) { hide Spell, Named; }
  lemma RowsFrom8(i: nat) requires 8 <= i < 16 ensures RowOk(i) { hide Spell, Named; }
  lemma RowsFrom16(i: nat) requires 16 <= i < 24 ensures RowOk(i) { hide Spell, Named; }
  lemma RowsFrom24(i: nat) requires 24 <= i < 32 ensures RowOk(i) { hide Spell, Named; }
  lemma RowsFrom32(i: nat) requires 32 <= i < 40 ensures RowOk(i) { hide Spell, Named; }
  lemma RowsFrom40(i: nat) requires 40 <= i < 48 ensures RowOk(i) { hide Spell, Named; }
  lemma RowsFrom48(i: nat) requires 48 <= i < 56 ensures RowOk(i) { hide Spell, Named; }
  lemma RowsFrom56(i: nat) requires 56 <= i < 64 ensures RowOk(i) { hide Spell, Named; }
  lemma RowsFrom64(i: nat) requires 64 <= i < 72 ensures RowOk(i) { hide Spell, Named; }
  lemma RowsFrom72(i: nat) requires 72 <= i < 80 ensures RowOk(i) { hide Spell, Named; }
  lemma RowsFrom80(i: nat) requires 80 <= i < 88 ensures RowOk(i) { hide Spell, Named; }
  lemma RowsFrom88(i: nat) requires 88 <= i < 96 ensures RowOk(i) { hide Spell, Named; }
  lemma RowsFrom96(i: nat) requires 96 <= i < 104 ensures RowOk(i) { hide Spell, Named; }
  lemma RowsFrom104(i: nat) requires 104 <= i < 112 ensures RowOk(i) { hide Spell, Named; }
  lemma RowsFrom112(i: nat) requires 112 <= i < 120 ensures RowOk(i) { hide Spell, Named; }
  lemma RowsFrom120(i: nat) requires 120 <= i < 128 ensures RowOk(i) { hide Spell, Named; }
  lemma RowsFrom128(i: nat) requires 128 <= i < 136 ensures RowOk(i) { hide Spell, Named; }
  lemma RowsFrom136(i: nat) requires 136 <= i < 144 ensures RowOk(i) { hide Spell, Named; }
  lemma RowsFrom144(i: nat) requires 144 <= i < 152 ensures RowOk(i) { hide Spell, Named; }

  lemma EveryRowOk(i: nat)
    requires i < ROWS
    ensures RowOk(i)
  {
    assert i < 152;
    hide *;
    match i / 8 {
      case 0 =>
        if i < 4 {
          RowsFrom0(i);
        } else {
          RowsFrom4(i);
        }
      case 1 => RowsFrom8(i);
      case 2 => RowsFrom16(i);
      case 3 => RowsFrom24(i);
      case 4 => RowsFrom32(i);
      case 5 => RowsFrom40(i);
      case 6 => RowsFrom48(i);
      case 7 => RowsFrom56(i);
      case 8 => RowsFrom64(i);
      case 9 => RowsFrom72(i);
      case 10 => RowsFrom80(i);
      case 11 => RowsFrom88(i);
      case 12 => RowsFrom96(i);
      case 13 => RowsFrom104(i);
      case 14 => RowsFrom112(i);
      case 15 => RowsFrom120(i);
      case 16 => RowsFrom128(i);
      case 17 => RowsFrom136(i);
      case _ => RowsFrom144(i);
    }
  }
}

/** Finding rows of the table. */
module OpcodeLookup {
  import opened Bits
  import opened OpcodeTable

  /** `find_mne`: the first row at or after `from` with this spelling, and this mode if one is given. */
  datatype Wanted = AnyMode | Only(mode: Mode)

  predicate Fits(r: Row, mne: string, wanted: Wanted) {
    Spell(r.mnemonic) == mne && (wanted.AnyMode? || r.mode == wanted.mode)
  }

  function FirstRow(mne: string, wanted: Wanted, from: nat): (i: nat)
    ensures from <= ROWS ==> from <= i <= ROWS
    ensures i < ROWS ==> Fits(RowAt(i), mne, wanted)
    ensures forall j | from <= j < i && j < ROWS :: !Fits(RowAt(j), mne, wanted)
    decreases ROWS - from
  {
    if from >= ROWS then ROWS
    else if Fits(RowAt(from), mne, wanted) then from
    else FirstRow(mne, wanted, from + 1)
  }

  function FindMnemonic(mne: string, wanted: Wanted): nat {
    FirstRow(mne, wanted, 0)
  }

  predicate Has(mne: string, mode: Mode) {
    FindMnemonic(mne, Only(mode)) != ROWS
  }

  method FindMne(mne: string, wanted: Wanted) returns (i: nat)
    ensures i == FindMnemonic(mne, wanted)
  {
    hide RowAt, Fits;
    i := 0;
    while i < ROWS
      invariant i <= ROWS
      invariant FirstRow(mne, wanted, i) == FindMnemonic(mne, wanted)
    {
      if Fits(RowAt(i), mne, wanted) {
        break;
      }
      i := i + 1;
    }
  }

  /** The row of an opcode, for the disassembler. */
  function RowOfOpcode(opcode: byte, from: nat): (i: nat)
    ensures from <= ROWS ==> from <= i <= ROWS
    ensures i < ROWS ==> RowAt(i).opcode == opcode
    ensures forall j | from <= j < i && j < ROWS :: RowAt(j).opcode != opcode
    decreases ROWS - from
  {
    if from >= ROWS then ROWS
    else if RowAt(from).opcode == opcode then from
    else RowOfOpcode(opcode, from + 1)
  }

  lemma {:induction false} OpcodesIncrease(i: nat, j: nat)
    requires i < j < ROWS
    ensures RowAt(i).opcode < RowAt(j).opcode
  {
    hide RowAt, Canonical, Encode, Duplicate, Branch;
    EveryRowOk(j);
    if i < j - 1 {
      OpcodesIncrease(i, j - 1);
    }
  }

  /** Every opcode has one row. */
  lemma RowByOpcode(i: nat)
    requires i < ROWS
    ensures RowOfOpcode(RowAt(i).opcode, 0) == i
  {
    hide RowAt;
    var j := RowOfOpcode(RowAt(i).opcode, 0);
    if j < i {
      OpcodesIncrease(j, i);
    }
  }

  /** Looking a row up by its own mnemonic and mode finds it, unless it is one of the seven rows that repeat
      an earlier one; then the earlier one is found. */
  lemma RowByMnemonic(i: nat)
    requires i < ROWS
    ensures FindMnemonic(Spell(RowAt(i).mnemonic), Only(RowAt(i).mode)) == Canonical(i)
  {
    hide RowAt, Canonical, Encode, Duplicate, Branch, Spell, Named;
    var r, c := RowAt(i), Canonical(i);
    EveryRowOk(i);
    var f := FindMnemonic(Spell(r.mnemonic), Only(r.mode));
    assert Fits(RowAt(c), Spell(r.mnemonic), Only(r.mode));
    if f < c {
      NamedBySpelling(r.mnemonic);
      NamedBySpelling(RowAt(f).mnemonic);
      EveryRowOk(f);
      OpcodesIncrease(f, c);
      if Canonical(f) < f {
        OpcodesIncrease(Canonical(f), f);
      }
    }
  }

  /** Branches have no other mode, and nothing else is relative. */
  lemma RelativeIsBranch(i: nat)
    requires i < ROWS
    ensures Has(Spell(RowAt(i).mnemonic), Relative) <==> RowAt(i).mode == Relative
    ensures RowAt(i).mode == Relative ==> !Has(Spell(RowAt(i).mnemonic), ZeroPage)
  {
    hide RowAt, Canonical, Encode, Duplicate, Branch, Spell, Named;
    var m := RowAt(i).mnemonic;
    EveryRowOk(i);
    NamedBySpelling(m);
    forall j | 0 <= j < ROWS && Spell(RowAt(j).mnemonic) == Spell(m)
      ensures RowAt(j).mode == Relative <==> RowAt(i).mode == Relative
    {
      EveryRowOk(j);
      NamedBySpelling(RowAt(j).mnemonic);
    }
    if RowAt(i).mode == Relative {
      assert Fits(RowAt(i), Spell(m), Only(Relative));
    }
  }
}
