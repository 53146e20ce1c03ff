/** What one instruction does to registers and memory, from the bytes at the program counter. */
module Programs {
  import opened Bits
  import opened OpcodeTable
  import opened Machine
  import opened Execution
  import opened CallStack
  import opened DecodingTable
  import opened Shortening
  import opened Operations
  import opened SplitMemory

  type three = f: seq<byte> | |f| == 3 witness [0, 0, 0]

  /** The three bytes from the program counter on; the address of each wraps around. */
  ghost predicate At(st: State, code: three) {
    st.m.Flat? && forall i | 0 <= i < 3 :: st.m.cells[(st.cpu.pc + i) % 0x1_0000] == code[i]
  }

  lemma CodeIsFetched(st: State, code: three)
    requires At(st, code)
    ensures Fetched(st) == code
  {
    forall i | 0 <= i < 3
      ensures Fetched(st)[i] == code[i]
    {
    }
  }

  /** Two cells as an address, the low byte first. */
  function Vector(cells: seq<byte>, at: int): int
    requires |cells| == SIZE && 0 <= at < SIZE
  {
    var lo: int := cells[at];
    var hi: int := cells[(at + 1) % 0x1_0000];
    lo + 256 * hi
  }

  /** Where the operand of a mode is, in cells. A pointer at 0xff has its high byte at 0x100. */
  function Place(cells: seq<byte>, cpu: Cpu, mode: Mode, n: int, nn: int): (at: int)
    requires |cells| == SIZE && 0 <= n < 256 && 0 <= nn < SIZE
    ensures 0 <= at < SIZE
  {
    match mode
    case ZeroPage => n
    case ZeroPageX => (n + cpu.x) % 256
    case ZeroPageY => (n + cpu.y) % 256
    case Absolute => nn
    case AbsoluteX => (nn + cpu.x) % 0x1_0000
    case AbsoluteY => (nn + cpu.y) % 0x1_0000
    case IndexedIndirect => Vector(cells, (n + cpu.x) % 256)
    case IndirectIndexed => (Vector(cells, n) + cpu.y) % 0x1_0000
    case IndirectAbsolute => Vector(cells, nn)
    case _ => 0
  }

  lemma Loaded(cells: seq<byte>, addr: word, n: nat, i: nat)
    requires |cells| == SIZE && i < n
    ensures Load(Flat(cells), addr, n)[i] == cells[(addr + i) % 0x1_0000]
  {
  }

  lemma OneCell(cells: seq<byte>, addr: word)
    requires |cells| == SIZE
    ensures Load(Flat(cells), addr, 1)[0] == cells[addr]
  {
    Loaded(cells, addr, 1, 0);
    hide Load;
  }

  lemma TwoCells(cells: seq<byte>, addr: word)
    requires |cells| == SIZE
    ensures Pointer(Flat(cells), addr) == Vector(cells, addr)
  {
    Loaded(cells, addr, 2, 0);
    Loaded(cells, addr, 2, 1);
    hide Load;
  }

  lemma PlaceIsAddress(cells: seq<byte>, cpu: Cpu, mode: Mode, f: seq<byte>)
    requires |cells| == SIZE && |f| == 3
    ensures Address(Flat(cells), cpu, mode, f) == Place(cells, cpu, mode, f[1], Wide(f[1], f[2]))
  {
    hide Pointer, Vector;
    TwoCells(cells, (f[1] + cpu.x) % 256);
    TwoCells(cells, f[1]);
    TwoCells(cells, Word(f[1], f[2]));
  }

  function Wide(lo: int, hi: int): int { lo + 256 * hi }

  lemma OneCellPut(cells: seq<byte>, addr: word, v: byte)
    requires |cells| == SIZE
    ensures Put(cells, addr, [v]) == cells[addr := v]
  {
    forall k | 0 <= k < SIZE
      ensures Put(cells, addr, [v])[k] == cells[addr := v][k]
    {
      assert (k - addr) % SIZE == if k < addr then k - addr + SIZE else k - addr;
    }
  }

  predicate InMemory(mode: Mode) {
    || mode == ZeroPage || mode == ZeroPageX || mode == ZeroPageY || mode == IndexedIndirect || mode == IndirectIndexed
    || mode == Absolute || mode == AbsoluteX || mode == AbsoluteY
  }

  /** Two bytes on, or three. */
  function Bytes(mode: Mode): int {
    if mode == Absolute || mode == AbsoluteX || mode == AbsoluteY then 3 else 2
  }

  /** An instruction with an operand in memory reads, stores or changes exactly the cell of its mode, and the program
      counter goes behind it. */
  lemma OperandInMemory(st: State, code: three, m: Mnemonic, mode: Mode)
    requires At(st, code) && Decode(code[0]) == Instruction(m, mode) && UsesMemory(m) && InMemory(mode)
    ensures var at := Place(st.m.cells, st.cpu, mode, code[1], Wide(code[1], code[2]));
            var t := st.m.cells[at];
            var pc := (st.cpu.pc + Bytes(mode)) % 0x1_0000;
            Step(st) == Stepped(true,
              if KindOf(m) == Reading then State(Reads(m, st.cpu, t).(pc := pc), st.m)
              else if KindOf(m) == Storing then
                State(st.cpu.(pc := pc), Flat(st.m.cells[at := Stored(m, st.cpu)]))
              else
                State(st.cpu.(s := Modify(m, t, st.cpu.s).s, pc := pc),
                      Flat(st.m.cells[at := Modify(m, t, st.cpu.s).a])))
  {
    CodeIsFetched(st, code);
    PlaceIsAddress(st.m.cells, st.cpu, mode, code);
    var at := Place(st.m.cells, st.cpu, mode, code[1], Wide(code[1], code[2]));
    OneCell(st.m.cells, at);
    OneCellPut(st.m.cells, at, Stored(m, st.cpu));
    OneCellPut(st.m.cells, at, Modify(m, st.m.cells[at], st.cpu.s).a);
    hide Load, Decode, Address, Step, Fetched, Reads, Modify, Put, Place, Stored, KindOf, At;
    MemoryStep(m, mode, st, at, st.m.cells[at]);
  }

  /** STA, STX and STY store their own registers. */
  lemma StoresRegister(cpu: Cpu)
    ensures Stored(STA, cpu) == cpu.a && Stored(STX, cpu) == cpu.x && Stored(STY, cpu) == cpu.y
  {
  }

  lemma FetchIsLoad(st: State)
    ensures Load(st.m, st.cpu.pc, 3) == Fetched(st)
  {
  }

  lemma Executed(st: State, code: three, ins: Instruction)
    requires At(st, code) && Decode(code[0]) == ins && ins.Instruction?
    ensures var e := Execute(ins, st.m, st.cpu, code); Step(st) == Stepped(true, State(e.cpu, Apply(st.m, e.write)))
  {
    CodeIsFetched(st, code);
    FetchIsLoad(st);
    hide Load, Decode, Fetched, At, Execute, Apply;
  }

  lemma Unchanged(m: memory)
    ensures Apply(m, NoWrite) == m
  {
  }

  lemma ExecutesReading(m: Mnemonic, memory: memory, cpu: Cpu, f: seq<byte>)
    requires |f| == 3 && KindOf(m) == Reading
    ensures Execute(Instruction(m, Immediate), memory, cpu, f)
         == Effect(Reads(m, cpu, f[1]).(pc := (cpu.pc + 2) % 0x1_0000), NoWrite)
  {
    hide Address, KindOf, Reads;
  }

  lemma ExecutesModifying(m: Mnemonic, memory: memory, cpu: Cpu, f: seq<byte>)
    requires |f| == 3 && KindOf(m) == Modifying
    ensures var r := Modify(m, cpu.a, cpu.s);
            Execute(Instruction(m, Accumulator), memory, cpu, f)
            == Effect(cpu.(a := r.a, s := r.s, pc := (cpu.pc + 1) % 0x1_0000), NoWrite)
  {
    hide Address, KindOf, Modify;
  }

  lemma ExecutesPlain(m: Mnemonic, memory: memory, cpu: Cpu, f: seq<byte>)
    requires |f| == 3 && KindOf(m) == Plain
    ensures Execute(Instruction(m, Implied), memory, cpu, f)
         == Effect(Implieds(m, cpu).(pc := (cpu.pc + 1) % 0x1_0000), NoWrite)
  {
    hide Address, KindOf, Implieds, Load;
  }

  lemma ExecutesBranch(m: Mnemonic, memory: memory, cpu: Cpu, f: seq<byte>)
    requires |f| == 3 && KindOf(m) == Branching
    ensures var offset := if Taken(m, cpu.s) then Offset(f[1]) else 0;
            Execute(Instruction(m, Relative), memory, cpu, f)
            == Effect(cpu.(pc := (cpu.pc + 2 + offset) % 0x1_0000), NoWrite)
  {
    hide Address, KindOf, Taken;
  }

  /** An operand in the instruction is its second byte. */
  lemma OperandInCode(st: State, code: three, m: Mnemonic)
    requires At(st, code) && Decode(code[0]) == Instruction(m, Immediate) && KindOf(m) == Reading
    ensures Step(st)
         == Stepped(true, State(Reads(m, st.cpu, code[1]).(pc := (st.cpu.pc + 2) % 0x1_0000), st.m))
  {
    hide *;
    Executed(st, code, Instruction(m, Immediate));
    ExecutesReading(m, st.m, st.cpu, code);
    Unchanged(st.m);
  }

  /** A change of the accumulator. */
  lemma OperandInAccumulator(st: State, code: three, m: Mnemonic)
    requires At(st, code) && Decode(code[0]) == Instruction(m, Accumulator) && KindOf(m) == Modifying
    ensures var r := Modify(m, st.cpu.a, st.cpu.s);
            Step(st) == Stepped(true, State(st.cpu.(a := r.a, s := r.s, pc := (st.cpu.pc + 1) % 0x1_0000), st.m))
  {
    hide *;
    Executed(st, code, Instruction(m, Accumulator));
    ExecutesModifying(m, st.m, st.cpu, code);
    Unchanged(st.m);
  }

  /** An instruction of one byte that does not touch the stack. */
  lemma NoOperand(st: State, code: three, m: Mnemonic)
    requires At(st, code) && Decode(code[0]) == Instruction(m, Implied) && KindOf(m) == Plain
    ensures Step(st)
         == Stepped(true, State(Implieds(m, st.cpu).(pc := (st.cpu.pc + 1) % 0x1_0000), st.m))
  {
    hide *;
    Executed(st, code, Instruction(m, Implied));
    ExecutesPlain(m, st.m, st.cpu, code);
    Unchanged(st.m);
  }

  function Offset(b: int): int {
    if b < 128 then b else b - 256
  }

  /** A branch that is taken goes from behind itself as far as its signed offset says, and any other goes on. */
  lemma Branches(st: State, code: three, m: Mnemonic)
    requires At(st, code) && Decode(code[0]) == Instruction(m, Relative) && KindOf(m) == Branching
    ensures var offset := if Taken(m, st.cpu.s) then Offset(code[1]) else 0;
            Step(st) == Stepped(true, State(st.cpu.(pc := (st.cpu.pc + 2 + offset) % 0x1_0000), st.m))
  {
    hide *;
    Executed(st, code, Instruction(m, Relative));
    ExecutesBranch(m, st.m, st.cpu, code);
    Unchanged(st.m);
  }

  /** The two bytes after the opcode as an address. */
  function Operand(code: three): (nn: int)
    ensures 0 <= nn < SIZE
  {
    Wide(code[1], code[2])
  }

  lemma JumpStep(st: State, code: three, m: Mnemonic, mode: Mode)
    requires At(st, code) && Decode(code[0]) == Instruction(m, mode) && Leaves(m)
    ensures var e := Jump(m, st.m, st.cpu, Place(st.m.cells, st.cpu, mode, code[1], Operand(code)));
            Step(st) == Stepped(true, State(e.cpu, Apply(st.m, e.write)))
  {
    Executed(st, code, Instruction(m, mode));
    PlaceIsAddress(st.m.cells, st.cpu, mode, code);
    hide Step, Load, Decode, At, Jump, Apply, Address, Place, KindOf;
  }

  lemma JumpOpcodes()
    ensures Decode(0x4c) == Instruction(JMP, Absolute) && Decode(0x6c) == Instruction(JMP, IndirectAbsolute)
    ensures Decode(0x20) == Instruction(JSR, Absolute) && Decode(0x00) == Instruction(BRK, Implied)
    ensures Decode(0x60) == Instruction(RTS, Implied) && Decode(0x40) == Instruction(RTI, Implied)
    ensures Decode(0x48) == Instruction(PHA, Implied) && Decode(0x68) == Instruction(PLA, Implied)
    ensures Decode(0x08) == Instruction(PHP, Implied) && Decode(0x28) == Instruction(PLP, Implied)
  {
  }

  lemma JumpsLeave(m: Mnemonic)
    requires m == JMP || m == JSR || m == BRK || m == RTS || m == RTI || m == PHA || m == PLA || m == PHP || m == PLP
    ensures Leaves(m)
  {
  }

  lemma WritesApplied(cells: seq<byte>, addr: word, bytes: seq<byte>)
    requires |cells| == SIZE
    ensures Apply(Flat(cells), NoWrite) == Flat(cells)
    ensures Apply(Flat(cells), Write(addr, bytes)) == Flat(Put(cells, addr, bytes))
  {
  }

  lemma JumpLeaves(m: memory, cpu: Cpu, to: word)
    requires m.Flat?
    ensures var e := Jump(JMP, m, cpu, to); State(e.cpu, Apply(m, e.write)) == State(cpu.(pc := to), m)
  {
    hide Call, Return, ReturnFromInterrupt, Break, Push, Pull, Pulled, ToByte, FromByte, SetNZ, Put;
  }

  /** `JMP nn` and `JMP (nn)` */
  lemma Jumps(st: State, code: three)
    requires At(st, code) && (code[0] == 0x4c || code[0] == 0x6c)
    ensures var to := if code[0] == 0x4c then Operand(code) else Vector(st.m.cells, Operand(code));
            0 <= to < SIZE && Step(st) == Stepped(true, State(st.cpu.(pc := to), st.m))
  {
    JumpOpcodes();
    assert st.m.Flat?;
    hide Decode, At, Step, KindOf, Leaves, Apply, Jump, Vector, Operand;
    JumpsLeave(JMP);
    var mode := if code[0] == 0x4c then Absolute else IndirectAbsolute;
    JumpStep(st, code, JMP, mode);
    JumpLeaves(st.m, st.cpu, Place(st.m.cells, st.cpu, mode, code[1], Operand(code)));
  }

  /** The state that an operation which jumps or uses the stack leaves. */
  function Left(m: Mnemonic, st: State, to: word): State {
    var e := Jump(m, st.m, st.cpu, to);
    State(e.cpu, Apply(st.m, e.write))
  }

  lemma LeftByStep(st: State, code: three, m: Mnemonic, mode: Mode) returns (to: word)
    requires At(st, code) && Decode(code[0]) == Instruction(m, mode) && Leaves(m)
    ensures Step(st) == Stepped(true, Left(m, st, to)) && (mode == Absolute ==> to == Operand(code))
  {
    to := Place(st.m.cells, st.cpu, mode, code[1], Operand(code));
    JumpStep(st, code, m, mode);
    hide Step, Jump, Apply, At, Decode, Leaves;
  }

  /** After `JSR`: one less than where it returns to is on the stack in page 1, its high byte above its low one. */
  function AfterCall(cells: seq<byte>, cpu: Cpu, to: word): State
    requires |cells| == SIZE && cpu.sp >= 1
  {
    var ret := (cpu.pc + 2) % 0x1_0000;
    State(cpu.(pc := to, sp := (cpu.sp - 2) % 256),
          Flat(cells[0x100 + cpu.sp := ret / 256][0xff + cpu.sp := ret % 256]))
  }

  lemma CallLeaves(cells: seq<byte>, cpu: Cpu, to: word)
    requires |cells| == SIZE && cpu.sp >= 1
    ensures Left(JSR, State(cpu, Flat(cells)), to) == AfterCall(cells, cpu, to)
  {
    var ret := (cpu.pc + 2) % 0x1_0000;
    TwoCellsPut(cells, 0xff + cpu.sp, ret % 256, ret / 256);
    WritesApplied(cells, 0xff + cpu.sp, [ret % 256, ret / 256]);
    hide Return, ReturnFromInterrupt, Break, Push, Pull, Pulled, ToByte, FromByte, SetNZ, Put, Apply;
  }

  /** `JSR nn` */
  lemma Calls(st: State, code: three)
    requires At(st, code) && code[0] == 0x20 && st.cpu.sp >= 1
    ensures Step(st) == Stepped(true, AfterCall(st.m.cells, st.cpu, Operand(code)))
  {
    JumpOpcodes();
    JumpsLeave(JSR);
    CallLeaves(st.m.cells, st.cpu, Operand(code));
    hide Step, Decode, Leaves, Left, AfterCall, Operand, At;
    var to := LeftByStep(st, code, JSR, Absolute);
  }

  /** After `RTS`: behind the address in the two cells above the pointer. */
  function AfterReturn(cells: seq<byte>, cpu: Cpu): State
    requires |cells| == SIZE && cpu.sp <= 253
  {
    State(cpu.(pc := (Vector(cells, 0x101 + cpu.sp) + 1) % 0x1_0000, sp := cpu.sp + 2), Flat(cells))
  }

  lemma ReturnLeaves(cells: seq<byte>, cpu: Cpu, to: word)
    requires |cells| == SIZE && cpu.sp <= 253
    ensures Left(RTS, State(cpu, Flat(cells)), to) == AfterReturn(cells, cpu)
  {
    ReturnIs(cells, cpu);
    WritesApplied(cells, 0, []);
    hide Call, Return, ReturnFromInterrupt, Break, Push, Pull, Pulled, ToByte, FromByte, SetNZ, AfterReturn, Apply;
  }

  lemma ReturnCells(cpu: Cpu)
    requires cpu.sp <= 253
    ensures StackAddress(cpu.sp + 1) == 0x101 + cpu.sp && Wrap8(cpu.sp + 2) == cpu.sp + 2
  {
  }

  lemma OneOn(v: int)
    ensures Wrap16(v + 1) == (v + 1) % 0x1_0000
  {
  }

  lemma ReturnIs(cells: seq<byte>, cpu: Cpu)
    requires |cells| == SIZE && cpu.sp <= 253
    ensures AfterReturn(cells, cpu) == State(Return(Flat(cells), cpu).cpu, Flat(cells))
    ensures Return(Flat(cells), cpu).write == NoWrite
  {
    hide Pointer, Vector, StackAddress, Wrap8, Wrap16;
    var at := 0x101 + cpu.sp;
    TwoCells(cells, at);
    ReturnCells(cpu);
    OneOn(Vector(cells, at));
    assert Return(Flat(cells), cpu).cpu.pc == (Vector(cells, at) + 1) % 0x1_0000;
  }

  /** `RTS` */
  lemma Returns(st: State, code: three)
    requires At(st, code) && code[0] == 0x60 && st.cpu.sp <= 253
    ensures Step(st) == Stepped(true, AfterReturn(st.m.cells, st.cpu))
  {
    JumpOpcodes();
    JumpsLeave(RTS);
    var to := LeftByStep(st, code, RTS, Implied);
    hide Step, Decode, Leaves, Left, AfterReturn, At;
    ReturnLeaves(st.m.cells, st.cpu, to);
  }

  /** After `PHA` or `PHP`: the byte is in the cell of the pointer. */
  function AfterPush(cells: seq<byte>, cpu: Cpu, b: byte): State
    requires |cells| == SIZE
  {
    State(cpu.(pc := (cpu.pc + 1) % 0x1_0000, sp := (cpu.sp - 1) % 256), Flat(cells[0x100 + cpu.sp := b]))
  }

  lemma PushLeaves(cells: seq<byte>, cpu: Cpu, to: word)
    requires |cells| == SIZE
    ensures Left(PHA, State(cpu, Flat(cells)), to) == AfterPush(cells, cpu, cpu.a)
    ensures Left(PHP, State(cpu, Flat(cells)), to) == AfterPush(cells, cpu, ToByte(cpu.s.(u := true, b := true)))
  {
    PushIs(cells, cpu, cpu.a);
    PushIs(cells, cpu, ToByte(cpu.s.(u := true, b := true)));
    hide Call, Return, ReturnFromInterrupt, Break, Push, Pull, Pulled, ToByte, FromByte, SetNZ, AfterPush, Apply;
  }

  lemma PushIs(cells: seq<byte>, cpu: Cpu, b: byte)
    requires |cells| == SIZE
    ensures AfterPush(cells, cpu, b) == State(Push(cpu, b).cpu, Apply(Flat(cells), Push(cpu, b).write))
  {
    OneCellPut(cells, 0x100 + cpu.sp, b);
    WritesApplied(cells, 0x100 + cpu.sp, [b]);
    hide Put, Apply;
  }

  /** `PHA` and `PHP`; bits 4 and 5 of pushed flags are set. */
  lemma Pushes(st: State, code: three)
    requires At(st, code) && (code[0] == 0x48 || code[0] == 0x08)
    ensures var b := if code[0] == 0x48 then st.cpu.a else ToByte(st.cpu.s.(u := true, b := true));
            Step(st) == Stepped(true, AfterPush(st.m.cells, st.cpu, b))
  {
    var m := if code[0] == 0x48 then PHA else PHP;
    JumpOpcodes();
    JumpsLeave(m);
    var to := LeftByStep(st, code, m, Implied);
    hide Step, Decode, Leaves, Left, AfterPush, At, ToByte;
    PushLeaves(st.m.cells, st.cpu, to);
  }

  /** After `PLA` or `PLP`: the byte comes from the cell above the pointer, around the page. */
  function AfterPull(cells: seq<byte>, cpu: Cpu, toA: bool): State
    requires |cells| == SIZE
  {
    var sp := (cpu.sp + 1) % 256;
    var next, b := cpu.(pc := (cpu.pc + 1) % 0x1_0000, sp := sp), cells[0x100 + sp];
    State(if toA then next.(a := b, s := SetNZ(cpu.s, b)) else next.(s := FromByte(b)), Flat(cells))
  }

  lemma PullLeaves(cells: seq<byte>, cpu: Cpu, to: word)
    requires |cells| == SIZE
    ensures Left(PLA, State(cpu, Flat(cells)), to) == AfterPull(cells, cpu, true)
    ensures Left(PLP, State(cpu, Flat(cells)), to) == AfterPull(cells, cpu, false)
  {
    OneCell(cells, 0x100 + (cpu.sp + 1) % 256);
    assert Pulled(Flat(cells), cpu) == cells[0x100 + (cpu.sp + 1) % 256];
    WritesApplied(cells, 0, []);
    hide Call, Return, ReturnFromInterrupt, Break, Push, Pulled, ToByte, FromByte, SetNZ, Load, Apply;
  }

  /** `PLA` and `PLP` */
  lemma Pulls(st: State, code: three)
    requires At(st, code) && (code[0] == 0x68 || code[0] == 0x28)
    ensures Step(st) == Stepped(true, AfterPull(st.m.cells, st.cpu, code[0] == 0x68))
  {
    var m := if code[0] == 0x68 then PLA else PLP;
    JumpOpcodes();
    JumpsLeave(m);
    var to := LeftByStep(st, code, m, Implied);
    hide Step, Decode, Leaves, Left, AfterPull, At;
    PullLeaves(st.m.cells, st.cpu, to);
  }

  /** Memory after the push of `BRK`: two bytes behind it, and the flags with bits 4 and 5 set. */
  function Interrupted(cells: seq<byte>, cpu: Cpu): (c: seq<byte>)
    requires |cells| == SIZE && cpu.sp >= 2
    ensures |c| == SIZE
  {
    var ret := (cpu.pc + 2) % 0x1_0000;
    cells[0x100 + cpu.sp := ret / 256][0xff + cpu.sp := ret % 256]
         [0xfe + cpu.sp := ToByte(cpu.s.(u := true, b := true))]
  }

  /** After `BRK`: interrupts are off, and the vector at 0xfffe is next. */
  function AfterBreak(cells: seq<byte>, cpu: Cpu): State
    requires |cells| == SIZE && cpu.sp >= 2
  {
    State(cpu.(pc := Vector(cells, 0xfffe), sp := (cpu.sp - 3) % 256, s := cpu.s.(i := true)),
          Flat(Interrupted(cells, cpu)))
  }

  lemma BreakLeaves(cells: seq<byte>, cpu: Cpu, to: word)
    requires |cells| == SIZE && cpu.sp >= 2
    ensures Left(BRK, State(cpu, Flat(cells)), to) == AfterBreak(cells, cpu)
  {
    var ret := (cpu.pc + 2) % 0x1_0000;
    var flags := ToByte(cpu.s.(u := true, b := true));
    ThreeCellsPut(cells, 0xfe + cpu.sp, flags, ret % 256, ret / 256);
    WritesApplied(cells, 0xfe + cpu.sp, [flags, ret % 256, ret / 256]);
    assert Vector(Interrupted(cells, cpu), 0xfffe) == Vector(cells, 0xfffe);
    TwoCells(Interrupted(cells, cpu), 0xfffe);
    hide Call, Return, ReturnFromInterrupt, Push, Pull, Pulled, ToByte, FromByte, SetNZ, Put, Vector, Pointer, Apply;
  }

  /** `BRK` */
  lemma Breaks(st: State, code: three)
    requires At(st, code) && code[0] == 0x00 && st.cpu.sp >= 2
    ensures Step(st) == Stepped(true, AfterBreak(st.m.cells, st.cpu))
  {
    JumpOpcodes();
    JumpsLeave(BRK);
    var to := LeftByStep(st, code, BRK, Implied);
    hide Step, Decode, Leaves, Left, AfterBreak, At;
    BreakLeaves(st.m.cells, st.cpu, to);
  }

  /** After `RTI`: flags and address come from the three cells above the pointer. */
  function AfterInterrupt(cells: seq<byte>, cpu: Cpu): State
    requires |cells| == SIZE && cpu.sp <= 252
  {
    var sp := cpu.sp;
    State(cpu.(s := FromByte(cells[0x101 + sp]), pc := Vector(cells, 0x102 + sp), sp := sp + 3), Flat(cells))
  }

  lemma InterruptLeaves(cells: seq<byte>, cpu: Cpu, to: word)
    requires |cells| == SIZE && cpu.sp <= 252
    ensures Left(RTI, State(cpu, Flat(cells)), to) == AfterInterrupt(cells, cpu)
  {
    InterruptIs(cells, cpu);
    WritesApplied(cells, 0, []);
    hide Call, Return, ReturnFromInterrupt, Break, Push, Pull, Pulled, ToByte, FromByte, SetNZ, AfterInterrupt, Apply;
  }

  lemma InterruptIs(cells: seq<byte>, cpu: Cpu)
    requires |cells| == SIZE && cpu.sp <= 252
    ensures AfterInterrupt(cells, cpu) == State(ReturnFromInterrupt(Flat(cells), cpu).cpu, Flat(cells))
    ensures ReturnFromInterrupt(Flat(cells), cpu).write == NoWrite
  {
    ThreeCells(cells, 0x101 + cpu.sp);
    assert StackAddress(cpu.sp + 1) == 0x101 + cpu.sp && Wrap8(cpu.sp + 3) == cpu.sp + 3;
    hide FromByte, Load, StackAddress, Wrap8;
  }

  /** `RTI` */
  lemma InterruptReturns(st: State, code: three)
    requires At(st, code) && code[0] == 0x40 && st.cpu.sp <= 252
    ensures Step(st) == Stepped(true, AfterInterrupt(st.m.cells, st.cpu))
  {
    JumpOpcodes();
    JumpsLeave(RTI);
    var to := LeftByStep(st, code, RTI, Implied);
    hide Step, Decode, Leaves, Left, AfterInterrupt, At;
    InterruptLeaves(st.m.cells, st.cpu, to);
  }

  lemma ThreeCells(cells: seq<byte>, addr: word)
    requires |cells| == SIZE && addr <= 0xfffd
    ensures Load(Flat(cells), addr, 3) == [cells[addr], cells[addr + 1], cells[addr + 2]]
  {
    Loaded(cells, addr, 3, 0);
    Loaded(cells, addr, 3, 1);
    Loaded(cells, addr, 3, 2);
    hide Load;
  }

  lemma ThreeCellsPut(cells: seq<byte>, addr: word, flags: byte, lo: byte, hi: byte)
    requires |cells| == SIZE && addr <= 0xfffd
    ensures Put(cells, addr, [flags, lo, hi]) == cells[addr + 2 := hi][addr + 1 := lo][addr := flags]
  {
    forall k | 0 <= k < SIZE
      ensures Put(cells, addr, [flags, lo, hi])[k] == cells[addr + 2 := hi][addr + 1 := lo][addr := flags][k]
    {
      assert (k - addr) % SIZE == if k < addr then k - addr + SIZE else k - addr;
    }
  }

  lemma TwoCellsPut(cells: seq<byte>, addr: word, lo: byte, hi: byte)
    requires |cells| == SIZE && addr < 0xffff
    ensures Put(cells, addr, [lo, hi]) == cells[addr + 1 := hi][addr := lo]
  {
    forall k | 0 <= k < SIZE
      ensures Put(cells, addr, [lo, hi])[k] == cells[addr + 1 := hi][addr := lo][k]
    {
      assert (k - addr) % SIZE == if k < addr then k - addr + SIZE else k - addr;
    }
  }

  // --- A program --------------------------------------------------------------------

  /** `DEX` and a `BNE` back to it, with one more byte behind them. */
  predicate IsLoop(cells: seq<byte>, at: int) {
    && |cells| == SIZE && 0 <= at && at + 3 < SIZE
    && cells[at] == 0xca && cells[at + 1] == 0xd0 && cells[at + 2] == 0xfd
  }

  lemma LoopOpcodes()
    ensures Decode(0xca) == Instruction(DEX, Implied) && Decode(0xd0) == Instruction(BNE, Relative)
    ensures KindOf(DEX) == Plain && KindOf(BNE) == Branching
  {
  }

  lemma CodeAt(st: State)
    requires st.m.Flat? && st.cpu.pc + 2 < SIZE
    ensures var c, pc := st.m.cells, st.cpu.pc; At(st, [c[pc], c[pc + 1], c[pc + 2]])
  {
  }

  lemma Counts(st: State)
    requires st.m.Flat? && IsLoop(st.m.cells, st.cpu.pc)
    ensures Step(st) == Stepped(true, State(Implieds(DEX, st.cpu).(pc := st.cpu.pc + 1), st.m))
  {
    var c, pc := st.m.cells, st.cpu.pc;
    LoopOpcodes();
    CodeAt(st);
    hide Step, Decode, KindOf, Implieds, At;
    NoOperand(st, [c[pc], c[pc + 1], c[pc + 2]], DEX);
  }

  lemma GoesBack(st: State)
    requires st.m.Flat? && 1 <= st.cpu.pc && IsLoop(st.m.cells, st.cpu.pc - 1)
    ensures var pc := if Taken(BNE, st.cpu.s) then st.cpu.pc - 1 else st.cpu.pc + 2;
            Step(st) == Stepped(true, State(st.cpu.(pc := pc), st.m))
  {
    var c, pc := st.m.cells, st.cpu.pc;
    LoopOpcodes();
    CodeAt(st);
    hide Step, Decode, KindOf, Taken, At;
    Branches(st, [c[pc], c[pc + 1], c[pc + 2]], BNE);
  }

  lemma OneTurn(st: State, x: byte)
    requires st.m.Flat? && IsLoop(st.m.cells, st.cpu.pc) && x == if st.cpu.x == 0 then 255 else st.cpu.x - 1
    ensures var counted := Step(st);
            && counted.on && Step(counted.state).on
            && var r := Step(counted.state).state;
               && r.m == st.m && r.cpu == st.cpu.(x := x, s := r.cpu.s, pc := r.cpu.pc)
               && r.cpu.pc == if x == 0 then st.cpu.pc + 3 else st.cpu.pc
  {
    Counts(st);
    CountsTell(st.cpu);
    CountedDown(st.cpu);
    hide Step, Implieds, IsLoop, Taken;
    GoesBack(Step(st).state);
  }

  lemma CountedDown(cpu: Cpu)
    ensures var r := Implieds(DEX, cpu);
            r == cpu.(x := r.x, s := r.s) && r.x == if cpu.x == 0 then 255 else cpu.x - 1
  {
    hide SetNZ;
  }

  /** The loop runs as often as X says, or 256 times for 0: two instructions a turn, then X is 0, the program counter is
      behind the loop, and nothing but flags has changed. */
  lemma {:induction false} LoopCounts(st: State, turns: nat)
    requires st.m.Flat? && IsLoop(st.m.cells, st.cpu.pc) && turns == if st.cpu.x == 0 then 256 else st.cpu.x
    ensures var r := Run(st, 2 * turns);
            && r.m == st.m && r.cpu == st.cpu.(x := 0, s := r.cpu.s, pc := st.cpu.pc + 3)
    decreases turns
  {
    var x := if st.cpu.x == 0 then 255 else st.cpu.x - 1;
    hide Step, IsLoop;
    OneTurn(st, x);
    var next := Step(Step(st).state).state;
    assert Run(st, 2 * turns) == Run(Step(st).state, 2 * turns - 1) == Run(next, 2 * turns - 2);
    if x == 0 {
      assert Run(next, 0) == next;
    } else {
      LoopCounts(next, turns - 1);
    }
  }
}
