/** The registers, flags and memory of the 6502 machine. */
module Machine {
  import opened Bits

  /** The flags, most significant bit first. `u` is bit 5, which has no meaning of its own. */
  datatype Status = Status(n: bool, v: bool, u: bool, b: bool, d: bool, i: bool, z: bool, c: bool)

  function Weight(flag: bool, weight: nat): nat {
    if flag then weight else 0
  }

  function Carry(s: Status): nat { Weight(s.c, 1) }

  /** A bit below a number. */
  function Shift(high: nat, flag: bool): nat {
    2 * high + Weight(flag, 1)
  }

  function ToByte(s: Status): byte {
    Shift(Shift(Shift(Shift(Shift(Shift(Shift(Weight(s.n, 1), s.v), s.u), s.b), s.d), s.i), s.z), s.c)
  }

  function FromByte(b: byte): Status {
    var b1 := b / 2;
    var b2 := b1 / 2;
    var b3 := b2 / 2;
    var b4 := b3 / 2;
    var b5 := b4 / 2;
    var b6 := b5 / 2;
    Status(b6 / 2 == 1, b6 % 2 == 1, b5 % 2 == 1, b4 % 2 == 1, b3 % 2 == 1, b2 % 2 == 1, b1 % 2 == 1, b % 2 == 1)
  }

  lemma Unshift(high: nat, flag: bool)
    ensures Shift(high, flag) / 2 == high && Shift(high, flag) % 2 == Weight(flag, 1)
  {
  }

  /** Pushing and pulling the flags keeps them. */
  lemma StatusOfByte(s: Status)
    ensures FromByte(ToByte(s)) == s
  {
    hide Shift, FromByte;
    var b6 := Shift(Weight(s.n, 1), s.v);
    var b5 := Shift(b6, s.u);
    var b4 := Shift(b5, s.b);
    var b3 := Shift(b4, s.d);
    var b2 := Shift(b3, s.i);
    var b1 := Shift(b2, s.z);
    assert ToByte(s) == Shift(b1, s.c);
    Unshift(b1, s.c);
    Unshift(b2, s.z);
    Unshift(b3, s.i);
    Unshift(b4, s.d);
    Unshift(b5, s.b);
    Unshift(b6, s.u);
    Unshift(Weight(s.n, 1), s.v);
    hide ToByte;
    FromHalves(ToByte(s), b1, b2, b3, b4, b5, b6);
  }

  lemma FromHalves(b: byte, b1: nat, b2: nat, b3: nat, b4: nat, b5: nat, b6: nat)
    requires b1 == b / 2 && b2 == b1 / 2 && b3 == b2 / 2 && b4 == b3 / 2 && b5 == b4 / 2 && b6 == b5 / 2
    ensures FromByte(b) == Status(b6 / 2 == 1, b6 % 2 == 1, b5 % 2 == 1, b4 % 2 == 1, b3 % 2 == 1, b2 % 2 == 1,
                                  b1 % 2 == 1, b % 2 == 1)
  {
  }

  lemma Reshift(b: nat)
    ensures Shift(b / 2, b % 2 == 1) == b
  {
  }

  lemma ByteOfStatus(b: byte)
    ensures ToByte(FromByte(b)) == b
  {
    var b1 := b / 2;
    var b2 := b1 / 2;
    var b3 := b2 / 2;
    var b4 := b3 / 2;
    var b5 := b4 / 2;
    var b6 := b5 / 2;
    assert b6 / 2 < 2;
    assert Weight(b6 / 2 == 1, 1) == b6 / 2;
    hide Shift;
    Reshift(b);
    Reshift(b1);
    Reshift(b2);
    Reshift(b3);
    Reshift(b4);
    Reshift(b5);
    Reshift(b6);
  }

  datatype Cpu = Cpu(a: byte, x: byte, y: byte, sp: byte, s: Status, pc: word)

  /** Memory is one array of 64K, as in the test harness, or 512 bytes of local memory in front of the external
      SRAM, whose own first 512 bytes are then never used. */
  datatype Memory = Flat(cells: seq<byte>) | Split(local: seq<byte>, sram: seq<byte>)

  const SIZE := 0x1_0000
  const LOCAL := 512

  predicate Sized(m: Memory) {
    match m
    case Flat(cells) => |cells| == SIZE
    case Split(local, sram) => |local| == LOCAL && |sram| == SIZE
  }

  type memory = m: Memory | Sized(m) witness Flat(seq(0x1_0000, _ => 0))

  /** Consecutive bytes, with the address wrapping around. */
  function Take(cells: seq<byte>, addr: word, n: nat): (bytes: seq<byte>)
    requires |cells| == SIZE
    ensures |bytes| == n
  {
    seq(n, i requires 0 <= i < n => cells[(addr + i) % SIZE])
  }

  function Put(cells: seq<byte>, addr: word, bytes: seq<byte>): (r: seq<byte>)
    requires |cells| == SIZE
    ensures |r| == SIZE
  {
    seq(SIZE, k requires 0 <= k < SIZE =>
      if (k - addr) % SIZE < |bytes| then bytes[(k - addr) % SIZE] else cells[k])
  }

  /** How many bytes of an access fall in the local memory. */
  function LocalPart(addr: word, n: nat): (part: nat)
    ensures part <= n && (part > 0 ==> addr + part <= LOCAL)
  {
    if addr >= LOCAL then 0 else if n + addr > LOCAL then LOCAL - addr else n
  }

  /** `vm_ram_read` */
  function Load(m: memory, addr: word, n: nat): (bytes: seq<byte>)
    ensures |bytes| == n
  {
    match m
    case Flat(cells) => Take(cells, addr, n)
    case Split(local, sram) =>
      var part := LocalPart(addr, n);
      if part == 0 then Take(sram, addr, n)
      else local[addr..addr + part] + Take(sram, addr + part, n - part)
  }

  /** `vm_ram_write` */
  function Store(m: memory, addr: word, bytes: seq<byte>): (r: memory)
    ensures r.Flat? <==> m.Flat?
  {
    match m
    case Flat(cells) => Flat(Put(cells, addr, bytes))
    case Split(local, sram) =>
      var part := LocalPart(addr, |bytes|);
      if part == 0 then Split(local, Put(sram, addr, bytes))
      else
        Split(local[..addr] + bytes[..part] + local[addr + part..], Put(sram, addr + part, bytes[part..]))
  }

  /** The 64K that a program sees. */
  function View(m: memory): (cells: seq<byte>)
    ensures |cells| == SIZE
  {
    match m
    case Flat(cells) => cells
    case Split(local, sram) => local + sram[LOCAL..]
  }
}

/** What each opcode does, as the cases of `vm_exec`. */
module Execution {
  import opened Bits
  import opened OpcodeTable
  import opened Machine

  datatype Instruction = Unknown | Instruction(operation: Mnemonic, mode: Mode)

  datatype Kind = Reading | Storing | Modifying | Branching | Plain | Jumping | Stacking

  function KindOf(operation: Mnemonic): Kind {
    match operation
    case LDA => Reading case LDX => Reading case LDY => Reading case AND => Reading case ORA => Reading
    case EOR => Reading case ADC => Reading case SBC => Reading case CMP => Reading case CPX => Reading
    case CPY => Reading case BIT => Reading
    case STA => Storing case STX => Storing case STY => Storing
    case ASL => Modifying case LSR => Modifying case ROL => Modifying case ROR => Modifying
    case INC => Modifying case DEC => Modifying
    case BPL => Branching case BMI => Branching case BVC => Branching case BVS => Branching
    case BCC => Branching case BCS => Branching case BNE => Branching case BEQ => Branching
    case JMP => Jumping case JSR => Jumping case RTS => Jumping case RTI => Jumping case BRK => Jumping
    case PHA => Stacking case PHP => Stacking case PLA => Stacking case PLP => Stacking
    case _ => Plain
  }

  /** Branches have an offset, and pushes and pulls nothing, after the opcode; nothing modifies a constant. */
  predicate Shaped(ins: Instruction) {
    ins.Instruction? ==>
      && (KindOf(ins.operation) == Branching ==> ins.mode == Relative)
      && (KindOf(ins.operation) == Modifying ==> ins.mode != Immediate)
      && (KindOf(ins.operation) == Stacking ==> ins.mode == Implied)
  }

  /** The cases of the switch, by the high digit of the opcode. */
  function Decode(opcode: byte): (ins: Instruction)
    ensures Shaped(ins)
  {
    match opcode / 16
    case 0 => Decode00(opcode % 16)
    case 1 => Decode10(opcode % 16)
    case 2 => Decode20(opcode % 16)
    case 3 => Decode30(opcode % 16)
    case 4 => Decode40(opcode % 16)
    case 5 => Decode50(opcode % 16)
    case 6 => Decode60(opcode % 16)
    case 7 => Decode70(opcode % 16)
    case 8 => Decode80(opcode % 16)
    case 9 => Decode90(opcode % 16)
    case 10 => DecodeA0(opcode % 16)
    case 11 => DecodeB0(opcode % 16)
    case 12 => DecodeC0(opcode % 16)
    case 13 => DecodeD0(opcode % 16)
    case 14 => DecodeE0(opcode % 16)
    case _ => DecodeF0(opcode % 16)
  }

  function Decode00(digit: nat): (ins: Instruction)
    ensures Shaped(ins)
  {
    match digit
    case 0x0 => Instruction(BRK, Implied)
    case 0x1 => Instruction(ORA, IndexedIndirect)
    case 0x2 => Instruction(SYS, Implied)
    case 0x5 => Instruction(ORA, ZeroPage)
    case 0x6 => Instruction(ASL, ZeroPage)
    case 0x8 => Instruction(PHP, Implied)
    case 0x9 => Instruction(ORA, Immediate)
    case 0xa => Instruction(ASL, Accumulator)
    case 0xd => Instruction(ORA, Absolute)
    case 0xe => Instruction(ASL, Absolute)
    case _ => Unknown
  }

  function Decode10(digit: nat): (ins: Instruction)
    ensures Shaped(ins)
  {
    match digit
    case 0x0 => Instruction(BPL, Relative)
    case 0x1 => Instruction(ORA, IndirectIndexed)
    case 0x5 => Instruction(ORA, ZeroPageX)
    case 0x6 => Instruction(ASL, ZeroPageX)
    case 0x8 => Instruction(CLC, Implied)
    case 0x9 => Instruction(ORA, AbsoluteY)
    case 0xd => Instruction(ORA, AbsoluteX)
    case 0xe => Instruction(ASL, AbsoluteX)
    case _ => Unknown
  }

  function Decode20(digit: nat): (ins: Instruction)
    ensures Shaped(ins)
  {
    match digit
    case 0x0 => Instruction(JSR, Absolute)
    case 0x1 => Instruction(AND, IndexedIndirect)
    case 0x4 => Instruction(BIT, ZeroPage)
    case 0x5 => Instruction(AND, ZeroPage)
    case 0x6 => Instruction(ROL, ZeroPage)
    case 0x8 => Instruction(PLP, Implied)
    case 0x9 => Instruction(AND, Immediate)
    case 0xa => Instruction(ROL, Accumulator)
    case 0xc => Instruction(BIT, Absolute)
    case 0xd => Instruction(AND, Absolute)
    case 0xe => Instruction(ROL, Absolute)
    case _ => Unknown
  }

  function Decode30(digit: nat): (ins: Instruction)
    ensures Shaped(ins)
  {
    match digit
    case 0x0 => Instruction(BMI, Relative)
    case 0x1 => Instruction(AND, IndirectIndexed)
    case 0x5 => Instruction(AND, ZeroPageX)
    case 0x6 => Instruction(ROL, ZeroPageX)
    case 0x8 => Instruction(SEC, Implied)
    case 0x9 => Instruction(AND, AbsoluteY)
    case 0xd => Instruction(AND, AbsoluteX)
    case 0xe => Instruction(ROL, AbsoluteX)
    case _ => Unknown
  }

  function Decode40(digit: nat): (ins: Instruction)
    ensures Shaped(ins)
  {
    match digit
    case 0x0 => Instruction(RTI, Implied)
    case 0x1 => Instruction(EOR, IndexedIndirect)
    case 0x5 => Instruction(EOR, ZeroPage)
    case 0x6 => Instruction(LSR, ZeroPage)
    case 0x8 => Instruction(PHA, Implied)
    case 0x9 => Instruction(EOR, Immediate)
    case 0xa => Instruction(LSR, Accumulator)
    case 0xc => Instruction(JMP, Absolute)
    case 0xd => Instruction(EOR, Absolute)
    case 0xe => Instruction(LSR, Absolute)
    case _ => Unknown
  }

  function Decode50(digit: nat): (ins: Instruction)
    ensures Shaped(ins)
  {
    match digit
    case 0x0 => Instruction(BVC, Relative)
    case 0x1 => Instruction(EOR, IndirectIndexed)
    case 0x5 => Instruction(EOR, ZeroPageX)
    case 0x6 => Instruction(LSR, ZeroPageX)
    case 0x8 => Instruction(CLI, Implied)
    case 0x9 => Instruction(EOR, AbsoluteY)
    case 0xd => Instruction(EOR, AbsoluteX)
    case 0xe => Instruction(LSR, AbsoluteX)
    case _ => Unknown
  }

  function Decode60(digit: nat): (ins: Instruction)
    ensures Shaped(ins)
  {
    match digit
    case 0x0 => Instruction(RTS, Implied)
    case 0x1 => Instruction(ADC, IndexedIndirect)
    case 0x5 => Instruction(ADC, ZeroPage)
    case 0x6 => Instruction(ROR, ZeroPage)
    case 0x8 => Instruction(PLA, Implied)
    case 0x9 => Instruction(ADC, Immediate)
    case 0xa => Instruction(ROR, Accumulator)
    case 0xc => Instruction(JMP, IndirectAbsolute)
    case 0xd => Instruction(ADC, Absolute)
    case 0xe => Instruction(ROR, Absolute)
    case _ => Unknown
  }

  function Decode70(digit: nat): (ins: Instruction)
    ensures Shaped(ins)
  {
    match digit
    case 0x0 => Instruction(BVS, Relative)
    case 0x1 => Instruction(ADC, IndirectIndexed)
    case 0x5 => Instruction(ADC, ZeroPageX)
    case 0x6 => Instruction(ROR, ZeroPageX)
    case 0x8 => Instruction(SEI, Implied)
    case 0x9 => Instruction(ADC, AbsoluteY)
    case 0xd => Instruction(ADC, AbsoluteX)
    case 0xe => Instruction(ROR, AbsoluteX)
    case _ => Unknown
  }

  function Decode80(digit: nat): (ins: Instruction)
    ensures Shaped(ins)
  {
    match digit
    case 0x1 => Instruction(STA, IndexedIndirect)
    case 0x4 => Instruction(STY, ZeroPage)
    case 0x5 => Instruction(STA, ZeroPage)
    case 0x6 => Instruction(STX, ZeroPage)
    case 0x8 => Instruction(DEY, Implied)
    case 0xa => Instruction(TXA, Implied)
    case 0xc => Instruction(STY, Absolute)
    case 0xd => Instruction(STA, Absolute)
    case 0xe => Instruction(STX, Absolute)
    case _ => Unknown
  }

  function Decode90(digit: nat): (ins: Instruction)
    ensures Shaped(ins)
  {
    match digit
    case 0x0 => Instruction(BCC, Relative)
    case 0x1 => Instruction(STA, IndirectIndexed)
    case 0x4 => Instruction(STY, ZeroPageX)
    case 0x5 => Instruction(STA, ZeroPageX)
    case 0x6 => Instruction(STX, ZeroPageY)
    case 0x8 => Instruction(TYA, Implied)
    case 0x9 => Instruction(STA, AbsoluteY)
    case 0xa => Instruction(TXS, Implied)
    case 0xd => Instruction(STA, AbsoluteX)
    case _ => Unknown
  }

  function DecodeA0(digit: nat): (ins: Instruction)
    ensures Shaped(ins)
  {
    match digit
    case 0x0 => Instruction(LDY, Immediate)
    case 0x1 => Instruction(LDA, IndexedIndirect)
    case 0x2 => Instruction(LDX, Immediate)
    case 0x4 => Instruction(LDY, ZeroPage)
    case 0x5 => Instruction(LDA, ZeroPage)
    case 0x6 => Instruction(LDX, ZeroPage)
    case 0x8 => Instruction(TAY, Implied)
    case 0x9 => Instruction(LDA, Immediate)
    case 0xa => Instruction(TAX, Implied)
    case 0xc => Instruction(LDY, Absolute)
    case 0xd => Instruction(LDA, Absolute)
    case 0xe => Instruction(LDX, Absolute)
    case _ => Unknown
  }

  function DecodeB0(digit: nat): (ins: Instruction)
    ensures Shaped(ins)
  {
    match digit
    case 0x0 => Instruction(BCS, Relative)
    case 0x1 => Instruction(LDA, IndirectIndexed)
    case 0x4 => Instruction(LDY, ZeroPageX)
    case 0x5 => Instruction(LDA, ZeroPageX)
    case 0x6 => Instruction(LDX, ZeroPageY)
    case 0x8 => Instruction(CLV, Implied)
    case 0x9 => Instruction(LDA, AbsoluteY)
    case 0xa => Instruction(TSX, Implied)
    case 0xc => Instruction(LDY, AbsoluteX)
    case 0xd => Instruction(LDA, AbsoluteX)
    case 0xe => Instruction(LDX, AbsoluteY)
    case _ => Unknown
  }

  function DecodeC0(digit: nat): (ins: Instruction)
    ensures Shaped(ins)
  {
    match digit
    case 0x0 => Instruction(CPY, Immediate)
    case 0x1 => Instruction(CMP, IndexedIndirect)
    case 0x4 => Instruction(CPY, ZeroPage)
    case 0x5 => Instruction(CMP, ZeroPage)
    case 0x6 => Instruction(DEC, ZeroPage)
    case 0x8 => Instruction(INY, Implied)
    case 0x9 => Instruction(CMP, Immediate)
    case 0xa => Instruction(DEX, Implied)
    case 0xc => Instruction(CPY, Absolute)
    case 0xd => Instruction(CMP, Absolute)
    case 0xe => Instruction(DEC, Absolute)
    case _ => Unknown
  }

  function DecodeD0(digit: nat): (ins: Instruction)
    ensures Shaped(ins)
  {
    match digit
    case 0x0 => Instruction(BNE, Relative)
    case 0x1 => Instruction(CMP, IndirectIndexed)
    case 0x5 => Instruction(CMP, ZeroPageX)
    case 0x6 => Instruction(DEC, ZeroPageX)
    case 0x8 => Instruction(CLD, Implied)
    case 0x9 => Instruction(CMP, AbsoluteY)
    case 0xd => Instruction(CMP, AbsoluteX)
    case 0xe => Instruction(DEC, AbsoluteX)
    case _ => Unknown
  }

  function DecodeE0(digit: nat): (ins: Instruction)
    ensures Shaped(ins)
  {
    match digit
    case 0x0 => Instruction(CPX, Immediate)
    case 0x1 => Instruction(SBC, IndexedIndirect)
    case 0x4 => Instruction(CPX, ZeroPage)
    case 0x5 => Instruction(SBC, ZeroPage)
    case 0x6 => Instruction(INC, ZeroPage)
    case 0x8 => Instruction(INX, Implied)
    case 0x9 => Instruction(SBC, Immediate)
    case 0xa => Instruction(NOP, Implied)
    case 0xc => Instruction(CPX, Absolute)
    case 0xd => Instruction(SBC, Absolute)
    case 0xe => Instruction(INC, Absolute)
    case _ => Unknown
  }

  function DecodeF0(digit: nat): (ins: Instruction)
    ensures Shaped(ins)
  {
    match digit
    case 0x0 => Instruction(BEQ, Relative)
    case 0x1 => Instruction(SBC, IndirectIndexed)
    case 0x5 => Instruction(SBC, ZeroPageX)
    case 0x6 => Instruction(INC, ZeroPageX)
    case 0x8 => Instruction(SED, Implied)
    case 0x9 => Instruction(SBC, AbsoluteY)
    case 0xd => Instruction(SBC, AbsoluteX)
    case 0xe => Instruction(INC, AbsoluteX)
    case _ => Unknown
  }

  // --- Arithmetic -------------------------------------------------------------------

  function SetNZ(s: Status, r: byte): Status {
    s.(n := r >= 128, z := r == 0)
  }

  datatype Sum = Sum(a: byte, s: Status)

  /** The sum of two digits, moved up by 6 past 9. */
  function AddDigits(x: nat, y: nat, carry: nat): nat {
    var n := x + y + carry;
    if n > 9 then n + 6 else n
  }

  function AdcDecimal(a: byte, t: byte, s: Status): Sum {
    var lo := AddDigits(a % 16, t % 16, Weight(s.c, 1));
    var hi := AddDigits(a / 16, t / 16, if lo > 15 then 1 else 0);
    var r := Wrap8(lo % 16 + 16 * hi);
    Sum(r, s.(v := false, n := false, c := hi > 15, z := r == 0))
  }

  function AdcBinary(a: byte, t: byte, s: Status): Sum {
    var t16 := a + t + Weight(s.c, 1);
    var r := Wrap8(t16);
    Sum(r, SetNZ(s, r).(v := (a >= 128) == (t >= 128) && (a >= 128) != (r >= 128), c := t16 >= 256))
  }

  /** `adc:` */
  function Adc(a: byte, t: byte, s: Status): Sum {
    if s.d then AdcDecimal(a, t, s) else AdcBinary(a, t, s)
  }

  /** The difference of two digits in 16 bits, moved down by 6 if bit 4 shows a borrow. */
  function SubDigits(x: nat, y: nat, borrow: nat): word {
    var n := Wrap16(x - y - borrow);
    if n / 16 % 2 == 1 then Wrap16(n - 6) else n
  }

  function SbcDecimal(a: byte, t: byte, s: Status): Sum {
    var lo := SubDigits(a % 16, t % 16, Weight(!s.c, 1));
    var hi := SubDigits(a / 16, t / 16, lo / 16 % 2);
    var r := Wrap8(lo % 16 + 16 * hi);
    Sum(r, s.(v := false, n := false, c := hi <= 15, z := r == 0))
  }

  function SbcBinary(a: byte, t: byte, s: Status): Sum {
    var t16 := Wrap16(a - t - Weight(!s.c, 1));
    var r := Wrap8(t16);
    Sum(r, SetNZ(s, r).(v := (a >= 128) != (t >= 128) && (a >= 128) != (r >= 128), c := t16 < 256))
  }

  /** `sbc:` */
  function Sbc(a: byte, t: byte, s: Status): Sum {
    if s.d then SbcDecimal(a, t, s) else SbcBinary(a, t, s)
  }

  /** `cmp_im:`, `cpx_im:` and `cpy_im:` */
  function Compare(r: byte, t: byte, s: Status): Status {
    SetNZ(s, Wrap8(r - t)).(c := r >= t)
  }

  /** The value and flags after `dec:`, `inc:`, `asl:`, `lsr:`, `rol:` and `ror:`. */
  function Modify(operation: Mnemonic, t: byte, s: Status): Sum {
    match operation
    case DEC => var r := Wrap8(t - 1); Sum(r, SetNZ(s, r))
    case INC => var r := Wrap8(t + 1); Sum(r, SetNZ(s, r))
    case ASL => var r := t * 2 % 256; Sum(r, SetNZ(s, r).(c := t >= 128))
    case ROL => var r := t * 2 % 256 + Weight(s.c, 1); Sum(r, SetNZ(s, r).(c := t >= 128))
    case LSR => var r := t / 2; Sum(r, SetNZ(s, r).(c := t % 2 == 1))
    case _ => var r := t / 2 + Weight(s.c, 128); Sum(r, SetNZ(s, r).(c := t % 2 == 1))
  }

  /** The registers after an operation that reads its operand. */
  function Reads(operation: Mnemonic, cpu: Cpu, t: byte): Cpu {
    match operation
    case LDA => cpu.(a := t, s := SetNZ(cpu.s, t))
    case LDX => cpu.(x := t, s := SetNZ(cpu.s, t))
    case LDY => cpu.(y := t, s := SetNZ(cpu.s, t))
    case AND => var r := And(cpu.a, t); cpu.(a := r, s := SetNZ(cpu.s, r))
    case ORA => var r := Or(cpu.a, t); cpu.(a := r, s := SetNZ(cpu.s, r))
    case EOR => var r := Xor(cpu.a, t); cpu.(a := r, s := SetNZ(cpu.s, r))
    case ADC => var r := Adc(cpu.a, t, cpu.s); cpu.(a := r.a, s := r.s)
    case SBC => var r := Sbc(cpu.a, t, cpu.s); cpu.(a := r.a, s := r.s)
    case CMP => cpu.(s := Compare(cpu.a, t, cpu.s))
    case CPX => cpu.(s := Compare(cpu.x, t, cpu.s))
    case CPY => cpu.(s := Compare(cpu.y, t, cpu.s))
    case _ => cpu.(s := cpu.s.(n := t >= 128, v := t / 64 % 2 == 1, z := And(t, cpu.a) == 0))
  }

  /** The registers after an operation without an operand. */
  function Implieds(operation: Mnemonic, cpu: Cpu): Cpu {
    match operation
    case DEX => var r := Wrap8(cpu.x - 1); cpu.(x := r, s := SetNZ(cpu.s, r))
    case DEY => var r := Wrap8(cpu.y - 1); cpu.(y := r, s := SetNZ(cpu.s, r))
    case INX => var r := Wrap8(cpu.x + 1); cpu.(x := r, s := SetNZ(cpu.s, r))
    case INY => var r := Wrap8(cpu.y + 1); cpu.(y := r, s := SetNZ(cpu.s, r))
    case TAX => cpu.(x := cpu.a, s := SetNZ(cpu.s, cpu.a))
    case TAY => cpu.(y := cpu.a, s := SetNZ(cpu.s, cpu.a))
    case TSX => cpu.(x := cpu.sp, s := SetNZ(cpu.s, cpu.sp))
    case TXA => cpu.(a := cpu.x, s := SetNZ(cpu.s, cpu.x))
    case TYA => cpu.(a := cpu.y, s := SetNZ(cpu.s, cpu.y))
    case TXS => cpu.(sp := cpu.x)
    case SED => cpu.(s := cpu.s.(d := true))
    case SEC => cpu.(s := cpu.s.(c := true))
    case SEI => cpu.(s := cpu.s.(i := true))
    case CLI => cpu.(s := cpu.s.(i := false))
    case CLD => cpu.(s := cpu.s.(d := false))
    case CLC => cpu.(s := cpu.s.(c := false))
    case CLV => cpu.(s := cpu.s.(v := false))
    case _ => cpu
  }

  predicate Taken(operation: Mnemonic, s: Status) {
    match operation
    case BPL => !s.n
    case BMI => s.n
    case BVC => !s.v
    case BVS => s.v
    case BCC => !s.c
    case BCS => s.c
    case BNE => !s.z
    case _ => s.z
  }

  // --- Operands ---------------------------------------------------------------------

  /** Where the operand is. The fetched bytes are the opcode and the two after it. */
  function Address(m: memory, cpu: Cpu, mode: Mode, f: seq<byte>): word
    requires |f| == 3
  {
    match mode
    case ZeroPage => f[1]
    case ZeroPageX => (f[1] + cpu.x) % 256
    case ZeroPageY => (f[1] + cpu.y) % 256
    case Absolute => Word(f[1], f[2])
    case AbsoluteX => Wrap16(Word(f[1], f[2]) + cpu.x)
    case AbsoluteY => Wrap16(Word(f[1], f[2]) + cpu.y)
    case IndexedIndirect => Pointer(m, (f[1] + cpu.x) % 256)
    case IndirectIndexed => Wrap16(Pointer(m, f[1]) + cpu.y)
    case IndirectAbsolute => Pointer(m, Word(f[1], f[2]))
    case _ => 0
  }

  function Pointer(m: memory, addr: word): word {
    var p := Load(m, addr, 2);
    Word(p[0], p[1])
  }

  /** `addr16(n, 1)` for a stack pointer that has not been cut to 8 bits: 256 stays 256, and a negative
      number keeps its sign and so wraps to the end of memory. */
  function StackAddress(n: int): word
    requires -2 <= n <= 256
  {
    if n == 256 then 256 else if n < 0 then Wrap16(n) else 256 + n
  }

  // --- One step ---------------------------------------------------------------------

  datatype Write = NoWrite | Write(addr: word, bytes: seq<byte>)

  datatype Effect = Effect(cpu: Cpu, write: Write)

  /** The operand of a reading or modifying operation. */
  function OperandOf(m: memory, cpu: Cpu, mode: Mode, f: seq<byte>): byte
    requires |f| == 3
  {
    match mode
    case Immediate => f[1]
    case Accumulator => cpu.a
    case _ => Load(m, Address(m, cpu, mode, f), 1)[0]
  }

  function Stored(operation: Mnemonic, cpu: Cpu): byte {
    match operation
    case STA => cpu.a
    case STX => cpu.x
    case _ => cpu.y
  }

  /** Every operation but those that jump or use the stack. The program counter is left for the caller. */
  function Straight(operation: Mnemonic, mode: Mode, cpu: Cpu, addr: word, t: byte): Effect {
    match KindOf(operation)
    case Reading => Effect(Reads(operation, cpu, t), NoWrite)
    case Storing => Effect(cpu, Write(addr, [Stored(operation, cpu)]))
    case Modifying =>
      var r := Modify(operation, t, cpu.s);
      if mode == Accumulator then Effect(cpu.(a := r.a, s := r.s), NoWrite)
      else Effect(cpu.(s := r.s), Write(addr, [r.a]))
    case _ => Effect(Implieds(operation, cpu), NoWrite)
  }

  function Call(cpu: Cpu, target: word): Effect {
    var ret := Wrap16(cpu.pc + 2);
    Effect(cpu.(pc := target, sp := Wrap8(cpu.sp - 2)), Write(StackAddress(cpu.sp - 1), [Low(ret), High(ret)]))
  }

  function Return(m: memory, cpu: Cpu): Effect {
    Effect(cpu.(pc := Wrap16(Pointer(m, StackAddress(cpu.sp + 1)) + 1), sp := Wrap8(cpu.sp + 2)), NoWrite)
  }

  function BreakFrame(cpu: Cpu): Write {
    var ret := Wrap16(cpu.pc + 2);
    Write(StackAddress(cpu.sp - 2), [ToByte(cpu.s.(u := true, b := true)), Low(ret), High(ret)])
  }

  function Break(m: memory, cpu: Cpu): Effect {
    Effect(cpu.(pc := Pointer(Apply(m, BreakFrame(cpu)), 0xfffe), sp := Wrap8(cpu.sp - 3),
                s := cpu.s.(i := true)),
           BreakFrame(cpu))
  }

  function ReturnFromInterrupt(m: memory, cpu: Cpu): Effect {
    var p := Load(m, StackAddress(cpu.sp + 1), 3);
    Effect(cpu.(s := FromByte(p[0]), pc := Word(p[1], p[2]), sp := Wrap8(cpu.sp + 3)), NoWrite)
  }

  function Push(cpu: Cpu, b: byte): Effect {
    Effect(cpu.(sp := Wrap8(cpu.sp - 1), pc := Wrap16(cpu.pc + 1)), Write(256 + cpu.sp, [b]))
  }

  function Pulled(m: memory, cpu: Cpu): byte {
    Load(m, 256 + Wrap8(cpu.sp + 1), 1)[0]
  }

  function Pull(cpu: Cpu): Cpu {
    cpu.(sp := Wrap8(cpu.sp + 1), pc := Wrap16(cpu.pc + 1))
  }

  /** The jumps and the operations on the stack. */
  function Jump(operation: Mnemonic, m: memory, cpu: Cpu, target: word): Effect {
    match operation
    case JMP => Effect(cpu.(pc := target), NoWrite)
    case JSR => Call(cpu, target)
    case RTS => Return(m, cpu)
    case RTI => ReturnFromInterrupt(m, cpu)
    case BRK => Break(m, cpu)
    case PHA => Push(cpu, cpu.a)
    case PHP => Push(cpu, ToByte(cpu.s.(u := true, b := true)))
    case PLA => Effect(Pull(cpu).(a := Pulled(m, cpu), s := SetNZ(cpu.s, Pulled(m, cpu))), NoWrite)
    case _ => Effect(Pull(cpu).(s := FromByte(Pulled(m, cpu))), NoWrite)
  }

  function Apply(m: memory, w: Write): memory {
    match w
    case NoWrite => m
    case Write(addr, bytes) => Store(m, addr, bytes)
  }

  /** One instruction, given its decoding and the fetched bytes. */
  function Execute(ins: Instruction, m: memory, cpu: Cpu, f: seq<byte>): Effect
    requires |f| == 3 && ins.Instruction?
  {
    var operation, mode := ins.operation, ins.mode;
    match KindOf(operation)
    case Branching =>
      Effect(cpu.(pc := Wrap16(cpu.pc + 2 + if Taken(operation, cpu.s) then Signed(f[1]) else 0)), NoWrite)
    case Jumping => Jump(operation, m, cpu, Address(m, cpu, mode, f))
    case Stacking => Jump(operation, m, cpu, Address(m, cpu, mode, f))
    case _ =>
      var e := Straight(operation, mode, cpu, Address(m, cpu, mode, f), OperandOf(m, cpu, mode, f));
      e.(cpu := e.cpu.(pc := Wrap16(cpu.pc + Length(mode))))
  }

  datatype State = State(cpu: Cpu, m: memory)

  /** `vm_exec`: whether it went on, and the new state. The system call is the test harness's, which does nothing. */
  datatype Stepped = Stepped(on: bool, state: State)

  function Step(st: State): Stepped {
    var f := Load(st.m, st.cpu.pc, 3);
    match Decode(f[0])
    case Unknown => Stepped(false, st)
    case Instruction(_, _) =>
      var e := Execute(Decode(f[0]), st.m, st.cpu, f);
      Stepped(true, State(e.cpu, Apply(st.m, e.write)))
  }
}
