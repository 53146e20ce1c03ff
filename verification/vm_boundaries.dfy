/** The machine's switch against the table of the assembler and disassembler. */
module DecodingTable {
  import opened Bits
  import opened OpcodeTable
  import opened Execution

  /** Row 35 is 0x3d: the table says ORA, the machine does AND. */
  const ODD := 35

  /** Six opcodes, 0x01, 0x21, 0x61, 0xa1, 0xc1 and 0xe1, are (zp,X) for the machine and zp,X in the table. */
  predicate Mislabelled(r: Row) {
    r.mode == ZeroPageX && r.opcode % 32 == 1
  }

  predicate UsesMemory(m: Mnemonic) {
    var k := KindOf(m);
    k == Reading || k == Storing || k == Modifying
  }

  /** The machine decodes row `i` to its own mnemonic and mode, but for these seven. */
  predicate RowDecodes(i: nat) {
    var r, d := RowAt(i), Decode(RowAt(i).opcode);
    && d.Instruction?
    && (i != ODD ==> d.operation == r.mnemonic)
    && d.mode == (if Mislabelled(r) then IndexedIndirect else r.mode)
    && (r.mode == ZeroPage || r.mode == ZeroPageX || r.mode == ZeroPageY ==> UsesMemory(r.mnemonic))
  }

  lemma DecodesFrom0(i: nat) requires 0 <= i < 8 ensures RowDecodes(i) { hide Spell, Named; }
  lemma DecodesFrom8(i: nat) requires 8 <= i < 16 ensures RowDecodes(i) { hide Spell, Named; }
  lemma DecodesFrom16(i: nat) requires 16 <= i < 24 ensures RowDecodes(i) { hide Spell, Named; }
  lemma DecodesFrom24(i: nat) requires 24 <= i < 32 ensures RowDecodes(i) { hide Spell, Named; }
  lemma DecodesFrom32(i: nat) requires 32 <= i < 40 ensures RowDecodes(i) { hide Spell, Named; }
  lemma DecodesFrom40(i: nat) requires 40 <= i < 48 ensures RowDecodes(i) { hide Spell, Named; }
  lemma DecodesFrom48(i: nat) requires 48 <= i < 56 ensures RowDecodes(i) { hide Spell, Named; }
  lemma DecodesFrom56(i: nat) requires 56 <= i < 64 ensures RowDecodes(i) { hide Spell, Named; }
  lemma DecodesFrom64(i: nat) requires 64 <= i < 72 ensures RowDecodes(i) { hide Spell, Named; }
  lemma DecodesFrom72(i: nat) requires 72 <= i < 80 ensures RowDecodes(i) { hide Spell, Named; }
  lemma DecodesFrom80(i: nat) requires 80 <= i < 88 ensures RowDecodes(i) { hide Spell, Named; }
  lemma DecodesFrom88(i: nat) requires 88 <= i < 96 ensures RowDecodes(i) { hide Spell, Named; }
  lemma DecodesFrom96(i: nat) requires 96 <= i < 104 ensures RowDecodes(i) { hide Spell, Named; }
  lemma DecodesFrom104(i: nat) requires 104 <= i < 112 ensures RowDecodes(i) { hide Spell, Named; }
  lemma DecodesFrom112(i: nat) requires 112 <= i < 120 ensures RowDecodes(i) { hide Spell, Named; }
  lemma DecodesFrom120(i: nat) requires 120 <= i < 128 ensures RowDecodes(i) { hide Spell, Named; }
  lemma DecodesFrom128(i: nat) requires 128 <= i < 136 ensures RowDecodes(i) { hide Spell, Named; }
  lemma DecodesFrom136(i: nat) requires 136 <= i < 144 ensures RowDecodes(i) { hide Spell, Named; }
  lemma DecodesFrom144(i: nat) requires 144 <= i < 152 ensures RowDecodes(i) { hide Spell, Named; }

  lemma EveryRowDecodes(i: nat)
    requires i < ROWS
    ensures RowDecodes(i)
  {
    assert i < 152;
    hide *;
    match i / 8 {
      case 0 => DecodesFrom0(i);
      case 1 => DecodesFrom8(i);
      case 2 => DecodesFrom16(i);
      case 3 => DecodesFrom24(i);
      case 4 => DecodesFrom32(i);
      case 5 => DecodesFrom40(i);
      case 6 => DecodesFrom48(i);
      case 7 => DecodesFrom56(i);
      case 8 => DecodesFrom64(i);
      case 9 => DecodesFrom72(i);
      case 10 => DecodesFrom80(i);
      case 11 => DecodesFrom88(i);
      case 12 => DecodesFrom96(i);
      case 13 => DecodesFrom104(i);
      case 14 => DecodesFrom112(i);
      case 15 => DecodesFrom120(i);
      case 16 => DecodesFrom128(i);
      case 17 => DecodesFrom136(i);
      case _ => DecodesFrom144(i);
    }
  }

  /** The opcode is that of one of `count` rows. */
  predicate InRows(opcode: byte, from: nat, count: nat)
    decreases count
  {
    count > 0 && (RowAt(from).opcode == opcode || InRows(opcode, from + 1, count - 1))
  }

  /** An opcode of the switch, by its high digit. */
  predicate Known(opcode: byte, page: nat) {
    opcode / 16 == page && Decode(opcode).Instruction?
  }

  lemma Placed00(o: byte) requires Known(o, 0) ensures InRows(o, 0, 10) { hide Spell, Named; }
  lemma Placed10(o: byte) requires Known(o, 1) ensures InRows(o, 10, 8) { hide Spell, Named; }
  lemma Placed20(o: byte) requires Known(o, 2) ensures InRows(o, 18, 11) { hide Spell, Named; }
  lemma Placed30(o: byte) requires Known(o, 3) ensures InRows(o, 29, 8) { hide Spell, Named; }
  lemma Placed40(o: byte) requires Known(o, 4) ensures InRows(o, 37, 10) { hide Spell, Named; }
  lemma Placed50(o: byte) requires Known(o, 5) ensures InRows(o, 47, 8) { hide Spell, Named; }
  lemma Placed60(o: byte) requires Known(o, 6) ensures InRows(o, 55, 10) { hide Spell, Named; }
  lemma Placed70(o: byte) requires Known(o, 7) ensures InRows(o, 65, 8) { hide Spell, Named; }
  lemma Placed80(o: byte) requires Known(o, 8) ensures InRows(o, 73, 9) { hide Spell, Named; }
  lemma Placed90(o: byte) requires Known(o, 9) ensures InRows(o, 82, 9) { hide Spell, Named; }
  lemma PlacedA0(o: byte) requires Known(o, 10) ensures InRows(o, 91, 12) { hide Spell, Named; }
  lemma PlacedB0(o: byte) requires Known(o, 11) ensures InRows(o, 103, 11) { hide Spell, Named; }
  lemma PlacedC0(o: byte) requires Known(o, 12) ensures InRows(o, 114, 11) { hide Spell, Named; }
  lemma PlacedD0(o: byte) requires Known(o, 13) ensures InRows(o, 125, 8) { hide Spell, Named; }
  lemma PlacedE0(o: byte) requires Known(o, 14) ensures InRows(o, 133, 11) { hide Spell, Named; }
  lemma PlacedF0(o: byte) requires Known(o, 15) ensures InRows(o, 144, 8) { hide Spell, Named; }

  /** Every opcode of the switch has a row. */
  lemma EveryOpcodePlaced(o: byte) returns (from: nat, count: nat)
    requires Decode(o).Instruction?
    ensures from + count <= ROWS && InRows(o, from, count)
  {
    assert ROWS == 152 && Known(o, o / 16);
    hide *;
    match o / 16 {
      case 0 => Placed00(o); from, count := 0, 10;
      case 1 => Placed10(o); from, count := 10, 8;
      case 2 => Placed20(o); from, count := 18, 11;
      case 3 => Placed30(o); from, count := 29, 8;
      case 4 => Placed40(o); from, count := 37, 10;
      case 5 => Placed50(o); from, count := 47, 8;
      case 6 => Placed60(o); from, count := 55, 10;
      case 7 => Placed70(o); from, count := 65, 8;
      case 8 => Placed80(o); from, count := 73, 9;
      case 9 => Placed90(o); from, count := 82, 9;
      case 10 => PlacedA0(o); from, count := 91, 12;
      case 11 => PlacedB0(o); from, count := 103, 11;
      case 12 => PlacedC0(o); from, count := 114, 11;
      case 13 => PlacedD0(o); from, count := 125, 8;
      case 14 => PlacedE0(o); from, count := 133, 11;
      case _ => PlacedF0(o); from, count := 144, 8;
    }
  }
}

/** The machine, the disassembler and the listing agree on where instructions start. */
module InstructionBoundaries {
  import opened Bits
  import opened OpcodeTable
  import opened OpcodeLookup
  import opened Assembler
  import opened Machine
  import opened Execution
  import opened SplitMemory
  import opened CallStack
  import opened DecodingTable

  lemma {:induction false} FoundInRows(opcode: byte, from: nat, count: nat)
    requires InRows(opcode, from, count) && from + count <= ROWS
    ensures RowOfOpcode(opcode, 0) < ROWS
    decreases count
  {
    hide RowAt;
    if RowAt(from).opcode != opcode {
      FoundInRows(opcode, from + 1, count - 1);
    }
  }

  /** The machine executes exactly the opcodes that the disassembler knows, and they have the same length. */
  lemma SameInstructions(addr: word, f: seq<byte>)
    requires |f| == 3
    ensures Decode(f[0]).Instruction? <==> RowOfOpcode(f[0], 0) < ROWS
    ensures Decode(f[0]).Unknown? <==> Das(addr, f).text == "???"
    ensures Decode(f[0]).Instruction? ==> Length(Decode(f[0]).mode) == Das(addr, f).length
    ensures Decode(f[0]).Unknown? ==> Das(addr, f).length == 1
  {
    hide RowAt, Decode, Spell, AfterMnemonic, KindOf;
    var i := RowOfOpcode(f[0], 0);
    if i < ROWS {
      EveryRowDecodes(i);
      assert Capital(Spell(RowAt(i).mnemonic)[0]);
      assert Das(addr, f).text[0] == Spell(RowAt(i).mnemonic)[0];
    } else if Decode(f[0]).Instruction? {
      var from, count := EveryOpcodePlaced(f[0]);
      FoundInRows(f[0], from, count);
    }
  }

  /** The next instruction is none that can leave the straight line: no jump, call, return, break or system call,
      and no branch that is taken. */
  predicate GoesOn(st: State) {
    && Next(st).Instruction?
    && Next(st).operation != SYS
    && KindOf(Next(st).operation) != Jumping
    && (KindOf(Next(st).operation) == Branching ==> !Taken(Next(st).operation, st.cpu.s))
  }

  /** A branch that is taken goes one byte further than the target that the disassembler prints and the assembler
      reads. */
  lemma BranchGoesPastTarget(st: State)
    requires Next(st).Instruction? && KindOf(Next(st).operation) == Branching
    requires Taken(Next(st).operation, st.cpu.s)
    ensures Step(st).state.cpu.pc == Wrap16(Target(st.cpu.pc, Fetched(st)[1]) + 1)
    ensures Step(st).state.cpu.pc != Target(st.cpu.pc, Fetched(st)[1])
  {
    hide Decode, KindOf, Taken, Load, Address, Straight, Jump, OperandOf;
    WrapTwice(st.cpu.pc + 1 + Signed(Fetched(st)[1]));
  }

  lemma WrapTwice(n: int)
    ensures Wrap16(n + 1) == Wrap16(Wrap16(n) + 1) != Wrap16(n)
  {
  }

  lemma PushPullLength(operation: Mnemonic, m: memory, cpu: Cpu, target: word)
    requires KindOf(operation) == Stacking
    ensures Jump(operation, m, cpu, target).cpu.pc == Wrap16(cpu.pc + 1)
  {
    hide ToByte, FromByte, SetNZ, Pulled;
  }

  lemma GoesToNext(st: State)
    requires GoesOn(st)
    ensures Step(st).on && Step(st).state.cpu.pc == Wrap16(st.cpu.pc + Length(Next(st).mode))
  {
    hide Decode, Straight, Jump, KindOf, Address, OperandOf, Store, Load;
    if KindOf(Next(st).operation) == Stacking {
      PushPullLength(Next(st).operation, st.m, st.cpu, Address(st.m, st.cpu, Next(st).mode, Fetched(st)));
    }
  }

  /** The address that the `list` command prints on its line `n`. */
  function Listed(cells: seq<byte>, addr: word, n: nat): word
    requires |cells| == SIZE
    decreases n
  {
    hide Das;
    if n == 0 then addr else Listed(cells, Wrap16(addr + Das(addr, Take(cells, addr, 3)).length), n - 1)
  }

  /** `n` instructions in a straight line, with the opcodes still those of the listing when they are reached. */
  predicate StraightRun(st: State, cells: seq<byte>, n: nat)
    requires |cells| == SIZE
    decreases n
  {
    hide Step, GoesOn;
    && Fetched(st)[0] == cells[st.cpu.pc]
    && (n > 0 ==> GoesOn(st) && StraightRun(Step(st).state, cells, n - 1))
  }

  /** In a straight run of any length the program counter is at the addresses of the listing, and the machine
      goes on there unless the listing prints three question marks. */
  lemma {:induction false} RunFollowsListing(st: State, cells: seq<byte>, n: nat)
    requires |cells| == SIZE && StraightRun(st, cells, n)
    ensures var addr := Listed(cells, st.cpu.pc, n);
            && Run(st, n).cpu.pc == addr
            && (Step(Run(st, n)).on <==> Das(addr, Take(cells, addr, 3)).text != "???")
    decreases n
  {
    hide Step, GoesOn, Das, Decode, Load;
    var listed := Take(cells, st.cpu.pc, 3);
    SameInstructions(st.cpu.pc, listed);
    StopsWhenUnknown(st);
    if n > 0 {
      GoesToNext(st);
      assert Next(st).Instruction? by { StopsWhenUnknown(st); }
      RunFollowsListing(Step(st).state, cells, n - 1);
    }
  }

  /** The loop of the `list` command. */
  method List(ram: array<byte>, start: word, lines: nat) returns (addrs: seq<word>, next: word)
    requires ram.Length == SIZE
    ensures |addrs| == lines && next == Listed(ram[..], start, lines)
    ensures forall j | 0 <= j < lines :: addrs[j] == Listed(ram[..], start, j)
  {
    hide Das;
    var addr: int, j := start, 0;
    addrs := [];
    while j < lines
      invariant j <= lines && |addrs| == j && 0 <= addr < SIZE
      invariant addr == Listed(ram[..], start, j)
      invariant forall k | 0 <= k < j :: addrs[k] == Listed(ram[..], start, k)
    {
      addrs := addrs + [addr];
      var op := [ram[addr], ram[(addr + 1) % SIZE], ram[(addr + 2) % SIZE]];
      assert op == Take(ram[..], addr, 3);
      ListedStep(ram[..], start, j);
      var line := Das(addr, op);
      addr := Wrap16(addr + line.length);
      j := j + 1;
    }
    next := addr;
  }

  lemma {:induction false} ListedStep(cells: seq<byte>, addr: word, n: nat)
    requires |cells| == SIZE
    ensures var last := Listed(cells, addr, n);
            Listed(cells, addr, n + 1) == Wrap16(last + Das(last, Take(cells, last, 3)).length)
    decreases n
  {
    hide Das;
    if n > 0 {
      ListedStep(cells, Wrap16(addr + Das(addr, Take(cells, addr, 3)).length), n - 1);
    }
  }
}
