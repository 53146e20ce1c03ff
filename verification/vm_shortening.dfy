/** Does an instruction mean the same to the machine in the short form that the assembler picks? */
module Shortening {
  import opened Bits
  import opened OpcodeTable
  import opened OpcodeLookup
  import opened AssemblerRoundTrip
  import opened Machine
  import opened Execution
  import opened CallStack
  import opened DecodingTable

  /** The opcode that the assembler writes for a mnemonic and a mode. */
  function Picked(m: Mnemonic, mode: Mode): byte
    requires Has(Spell(m), mode)
  {
    RowAt(FindMnemonic(Spell(m), Only(mode))).opcode
  }

  predicate HasBoth(m: Mnemonic, long: Mode) {
    && (long == Absolute || long == AbsoluteX || long == AbsoluteY)
    && Has(Spell(m), long) && Has(Spell(m), ShortForm(long))
  }

  /** The mnemonics whose short form with X is read by the machine as (zp,X). */
  predicate Misread(m: Mnemonic) {
    Has(Spell(m), ZeroPageX) && Picked(m, ZeroPageX) % 32 == 1
  }

  lemma PickedDecodes(m: Mnemonic, mode: Mode)
    requires Has(Spell(m), mode)
    ensures var i := FindMnemonic(Spell(m), Only(mode));
            && RowAt(i) == Row(Picked(m, mode), m, mode) && RowDecodes(i) && i < ROWS
  {
    hide RowAt, Spell, Decode, RowDecodes;
    var i := FindMnemonic(Spell(m), Only(mode));
    NamedBySpelling(m);
    NamedBySpelling(RowAt(i).mnemonic);
    EveryRowDecodes(i);
  }

  lemma OddRowIsNotFound(m: Mnemonic, mode: Mode)
    requires Has(Spell(m), mode)
    ensures FindMnemonic(Spell(m), Only(mode)) != ODD
  {
    assert RowAt(ODD) == Row(0x3d, ORA, AbsoluteX) && Canonical(ODD) == 16;
    hide RowAt, Spell, Canonical;
    PickedDecodes(m, mode);
    RowByMnemonic(ODD);
    NamedBySpelling(m);
  }

  /** The machine reads the long form as the assembler means it, and the short form too unless it is misread. */
  lemma PickedMeaning(m: Mnemonic, long: Mode)
    requires HasBoth(m, long)
    ensures Decode(Picked(m, long)) == Instruction(m, long) && UsesMemory(m)
    ensures Decode(Picked(m, ShortForm(long)))
         == Instruction(m, if long == AbsoluteX && Misread(m) then IndexedIndirect else ShortForm(long))
  {
    hide RowAt, Spell, Decode, FindMnemonic, KindOf;
    PickedDecodes(m, long);
    PickedDecodes(m, ShortForm(long));
    OddRowIsNotFound(m, long);
    OddRowIsNotFound(m, ShortForm(long));
  }

  /** The register that indexes a mode. */
  function IndexRegister(mode: Mode, cpu: Cpu): byte {
    match mode
    case AbsoluteX => cpu.x
    case AbsoluteY => cpu.y
    case _ => 0
  }

  /** The cells that an instruction may take. */
  predicate InCode(pc: word, k: int) {
    k == pc || k == Wrap16(pc + 1) || k == Wrap16(pc + 2)
  }

  /** Two memories that differ at most in the cells of the instruction. */
  predicate SameOutside(a: seq<byte>, b: seq<byte>, pc: word) {
    |a| == |b| == SIZE && forall k | 0 <= k < SIZE && !InCode(pc, k) :: a[k] == b[k]
  }

  /** The long form at the program counter of one state, the short form in the other, and nothing else differs. */
  predicate LongAndShort(m: Mnemonic, long: Mode, b: byte, st: State, short: State) {
    && HasBoth(m, long)
    && st.m.Flat? && short.m.Flat? && st.cpu == short.cpu
    && SameOutside(st.m.cells, short.m.cells, st.cpu.pc)
    && Fetched(st) == [Picked(m, long), b, 0]
    && Fetched(short)[..2] == [Picked(m, ShortForm(long)), b]
  }

  lemma AddressesAgree(long: Mode, b: byte, st: State, short: State)
    requires long == Absolute || long == AbsoluteX || long == AbsoluteY
    requires st.cpu == short.cpu
    ensures var f, g := [Fetched(st)[0], b, 0], [Fetched(short)[0], b, Fetched(short)[2]];
            var addr := Address(st.m, st.cpu, long, f);
            && addr == b + IndexRegister(long, st.cpu)
            && (addr == Address(short.m, short.cpu, ShortForm(long), g)
                <==> b + IndexRegister(long, st.cpu) < 256)
  {
    hide Load;
  }

  lemma OneByteLoad(a: seq<byte>, b: seq<byte>, pc: word, addr: word)
    requires SameOutside(a, b, pc) && !InCode(pc, addr)
    ensures Load(Flat(a), addr, 1)[0] == Load(Flat(b), addr, 1)[0]
  {
    hide InCode;
    assert a[addr] == b[addr];
  }

  lemma SameStore(a: seq<byte>, b: seq<byte>, pc: word, addr: word, bytes: seq<byte>)
    requires SameOutside(a, b, pc)
    ensures SameOutside(Put(a, addr, bytes), Put(b, addr, bytes), pc)
  {
  }

  /** Operations on memory do not look at the mode, once they have the address and the operand. */
  lemma StraightIgnoresMode(m: Mnemonic, mode: Mode, other: Mode, cpu: Cpu, addr: word, t: byte)
    requires UsesMemory(m) && mode != Accumulator && other != Accumulator
    ensures Straight(m, mode, cpu, addr, t) == Straight(m, other, cpu, addr, t)
  {
    hide Reads, Modify, Implieds, KindOf;
  }

  /** What the states are after one step: the same registers and flags, the program counter one less for the
      short form, and the same memory outside the instruction. */
  predicate SameMeaning(st: State, short: State) {
    && Step(st).on && Step(short).on
    && var a, b := Step(st).state, Step(short).state;
       && a.cpu.pc == Wrap16(st.cpu.pc + 3) && b.cpu.pc == Wrap16(st.cpu.pc + 2)
       && a.cpu.(pc := b.cpu.pc) == b.cpu
       && a.m.Flat? && b.m.Flat? && SameOutside(a.m.cells, b.m.cells, st.cpu.pc)
  }

  /** For every mnemonic with both forms, and every operand below 256 that is outside the instruction: the machine
      does the same in the short form that the assembler picks as in the long form, if indexing does not leave the
      zero page and the short form is not one that the table mislabels. */
  lemma ShortFormMeansTheSame(m: Mnemonic, long: Mode, b: byte, st: State, short: State)
    requires LongAndShort(m, long, b, st, short)
    requires b + IndexRegister(long, st.cpu) < 256 && !(long == AbsoluteX && Misread(m))
    requires !InCode(st.cpu.pc, b + IndexRegister(long, st.cpu))
    ensures SameMeaning(st, short)
  {
    hide HasBoth, Picked, Decode, Address, Straight, KindOf, SameOutside, Load, InCode, Put, Misread;
    var addr := b + IndexRegister(long, st.cpu);
    assert long == Absolute || long == AbsoluteX || long == AbsoluteY by { BothModes(m, long); }
    PickedMeaning(m, long);
    var f, g := Fetched(st), Fetched(short);
    assert g == [g[0], b, g[2]] && f == [f[0], b, 0];
    AddressesAgree(long, b, st, short);
    OneByteLoad(st.m.cells, short.m.cells, st.cpu.pc, addr);
    var t := Load(st.m, addr, 1)[0];
    StraightIgnoresMode(m, long, ShortForm(long), st.cpu, addr, t);
    var e := Straight(m, long, st.cpu, addr, t);
    if e.write.Write? {
      SameStore(st.m.cells, short.m.cells, st.cpu.pc, e.write.addr, e.write.bytes);
    }
    MemoryStep(m, long, st, addr, t);
    MemoryStep(m, ShortForm(long), short, addr, t);
  }

  lemma BothModes(m: Mnemonic, long: Mode)
    requires HasBoth(m, long)
    ensures long == Absolute || long == AbsoluteX || long == AbsoluteY
  {
  }

  /** A step of an operation on memory, from its address and operand. */
  lemma MemoryStep(m: Mnemonic, mode: Mode, st: State, addr: word, t: byte)
    requires Decode(Fetched(st)[0]) == Instruction(m, mode) && UsesMemory(m)
    requires mode != Immediate && mode != Accumulator
    requires Address(st.m, st.cpu, mode, Fetched(st)) == addr && Load(st.m, addr, 1)[0] == t
    ensures var e := Straight(m, mode, st.cpu, addr, t);
            Step(st) == Stepped(true, State(e.cpu.(pc := Wrap16(st.cpu.pc + Length(mode))), Apply(st.m, e.write)))
  {
    hide Decode, Address, Straight, KindOf, Load, Apply;
  }

  // --- Exactly when it holds --------------------------------------------------------

  /** The short form does the same as the long one in every state with this operand and index, wherever the operand
      is outside the instruction. */
  ghost predicate AlwaysTheSame(m: Mnemonic, long: Mode, b: byte, x: byte) {
    forall st: State, short: State
      | LongAndShort(m, long, b, st, short) && IndexRegister(long, st.cpu) == x && !InCode(st.cpu.pc, b + x)
      :: SameMeaning(st, short)
  }

  /** Shortening keeps the meaning exactly if indexing does not leave the zero page and the short form is not one
      that the table mislabels. */
  lemma ExactlyWhen(m: Mnemonic, long: Mode, b: byte, x: byte)
    requires HasBoth(m, long) && (long == Absolute ==> x == 0)
    ensures AlwaysTheSame(m, long, b, x) <==> b + x < 256 && !(long == AbsoluteX && Misread(m))
  {
    hide HasBoth, LongAndShort, SameMeaning, InCode, Misread, IndexRegister;
    if b + x < 256 && !(long == AbsoluteX && Misread(m)) {
      forall st: State, short: State
        | LongAndShort(m, long, b, st, short) && IndexRegister(long, st.cpu) == x && !InCode(st.cpu.pc, b + x)
        ensures SameMeaning(st, short)
      {
        ShortFormMeansTheSame(m, long, b, st, short);
      }
    } else {
      var st, short := Different(m, long, b, x);
    }
  }

  lemma PickedEncodes(m: Mnemonic, mode: Mode)
    requires Has(Spell(m), mode)
    ensures Picked(m, mode) == Encode(m, mode)
  {
    hide RowAt, Spell, Decode, Encode, Canonical, Duplicate, Branch, RowDecodes;
    var i := FindMnemonic(Spell(m), Only(mode));
    PickedDecodes(m, mode);
    RowByMnemonic(i);
    EveryRowOk(i);
  }

  lemma PickedFor(i: nat)
    requires i < ROWS && Canonical(i) == i
    ensures Has(Spell(RowAt(i).mnemonic), RowAt(i).mode)
    ensures Picked(RowAt(i).mnemonic, RowAt(i).mode) == RowAt(i).opcode
  {
    hide RowAt, Spell, Canonical;
    RowByMnemonic(i);
  }

  predicate OddColumn(m: Mnemonic) {
    m.ORA? || m.AND? || m.ADC? || m.LDA? || m.CMP? || m.SBC?
  }

  predicate OddOpcode(o: int) {
    o == 0x01 || o == 0x21 || o == 0x41 || o == 0x61 || o == 0x81 || o == 0xa1 || o == 0xc1 || o == 0xe1
  }

  lemma OddOpcodes(o: byte)
    ensures o % 32 == 1 <==> OddOpcode(o)
  {
  }

  lemma EncodesOdd(m: Mnemonic)
    requires !OddColumn(m)
    ensures !OddOpcode(Encode(m, ZeroPageX))
  {
    assert Column(ZeroPageX, 0x14) == 0x14;
    hide RowAt, Spell, Decode, KindOf, Canonical, Branch, Column;
  }

  function RowOfOdd(m: Mnemonic): nat {
    match m case ORA => 1 case AND => 19 case ADC => 56 case LDA => 92 case CMP => 115 case _ => 134
  }

  lemma OddRow(m: Mnemonic)
    requires OddColumn(m)
    ensures var i := RowOfOdd(m);
            && i < ROWS && Canonical(i) == i
            && RowAt(i).mnemonic == m && RowAt(i).mode == ZeroPageX && RowAt(i).opcode % 32 == 1
  {
    hide Spell, Decode, KindOf;
  }

  /** The misread mnemonics, by name. */
  lemma MisreadMnemonics(m: Mnemonic)
    ensures Misread(m) <==> m in {ORA, AND, ADC, LDA, CMP, SBC}
  {
    hide RowAt, Spell, Canonical, Encode, Picked, Has, RowOfOdd, OddOpcode;
    if OddColumn(m) {
      OddRow(m);
      PickedFor(RowOfOdd(m));
    } else if Has(Spell(m), ZeroPageX) {
      EncodesOdd(m);
      PickedEncodes(m, ZeroPageX);
      OddOpcodes(Picked(m, ZeroPageX));
    }
  }

  /** These have no indexed form with three bytes. */
  predicate Unindexed(m: Mnemonic) {
    m.CPX? || m.CPY? || m.BIT? || m.STX? || m.STY?
  }

  lemma UnindexedDecodes(m: Mnemonic, long: Mode)
    requires Unindexed(m) && (long == AbsoluteX || long == AbsoluteY)
    ensures var opcode := Encode(m, long); opcode < 256 && Decode(opcode) != Instruction(m, long)
  {
    hide RowAt, Spell, KindOf;
    if m.CPX? {
      assert Encode(m, AbsoluteX) == 0xfc && Encode(m, AbsoluteY) == 0xf8;
    } else if m.CPY? {
      assert Encode(m, AbsoluteX) == 0xdc && Encode(m, AbsoluteY) == 0xd8;
    } else if m.BIT? {
      assert Encode(m, AbsoluteX) == 0x3c && Encode(m, AbsoluteY) == 0x38;
    } else if m.STX? {
      assert Encode(m, AbsoluteX) == 0x9e && Encode(m, AbsoluteY) == 0x9a;
    } else {
      assert Encode(m, AbsoluteX) == 0x9c && Encode(m, AbsoluteY) == 0x98;
    }
  }

  lemma IndexedMnemonic(m: Mnemonic, long: Mode)
    requires HasBoth(m, long) && long != Absolute
    ensures UsesMemory(m) && !Unindexed(m)
  {
    hide RowAt, Spell, Decode, Encode, Picked, Has;
    if Unindexed(m) {
      UnindexedDecodes(m, long);
    }
    PickedMeaning(m, long);
    PickedEncodes(m, long);
  }

  const START := 0x0200

  /** A memory of zeros but for an instruction at 0x0200 and one more cell. */
  function Code(opcode: byte, low: byte, at: word, v: byte): (cells: seq<byte>)
    ensures |cells| == SIZE
  {
    seq(SIZE, k => if k == START then opcode else if k == START + 1 then low else if k == at then v else 0)
  }

  lemma CodeLoads(opcode: byte, low: byte, at: word, v: byte, k: word)
    requires at < START && k < START
    ensures var m := Flat(Code(opcode, low, at, v));
            && Load(m, START, 3) == [opcode, low, 0]
            && Load(m, k, 1)[0] == m.cells[k] == (if k == at then v else 0)
  {
  }

  lemma CodeFetched(opcode: byte, low: byte, at: word, v: byte, cpu: Cpu)
    requires at < START && cpu.pc == START
    ensures Fetched(State(cpu, Flat(Code(opcode, low, at, v)))) == [opcode, low, 0]
  {
    CodeLoads(opcode, low, at, v, at);
  }

  lemma CodesAlike(o: byte, p: byte, low: byte, at: word, v: byte)
    ensures SameOutside(Code(o, low, at, v), Code(p, low, at, v), START)
  {
  }

  lemma TwoLoads(m: memory, k: word)
    requires m.Flat? && k + 1 < SIZE
    ensures Pointer(m, k) == Word(Load(m, k, 1)[0], Load(m, k + 1, 1)[0])
  {
  }

  lemma CodePointer(opcode: byte, low: byte, at: word, v: byte, k: word)
    requires at < START && k + 1 < START && k + 1 != at
    ensures Pointer(Flat(Code(opcode, low, at, v)), k) == if k == at then v else 0
  {
    CodeLoads(opcode, low, at, v, k);
    CodeLoads(opcode, low, at, v, k + 1);
    hide Code;
    TwoLoads(Flat(Code(opcode, low, at, v)), k);
  }

  /** An accumulator with which reading or changing a cell of `v` shows. */
  function Telling(m: Mnemonic, v: byte): byte {
    match m
    case ORA => 0
    case STA => 5
    case _ => v
  }

  lemma BitsOfCell(v: byte)
    requires v == 1 || v == 3
    ensures And(v, v) == v && And(v, 0) == 0 && Or(0, v) == v && Or(0, 0) == 0 && Xor(v, v) == 0 && Xor(v, 0) == v
  {
    XorZero(v);
    XorCommutes(v, 0);
    BitwiseHalves(BitAnd, 3, 3);
    BitwiseHalves(BitXor, 3, 3);
  }

  predicate Clear(s: Status) { !s.d && !s.c }

  lemma SumsDiffer(v: byte, s: Status)
    requires Clear(s) && (v == 1 || v == 3)
    ensures Adc(v, v, s).a != Adc(v, 0, s).a && Sbc(v, v, s).a != Sbc(v, 0, s).a
    ensures Compare(v, v, s).z != Compare(v, 0, s).z
  {
    hide AdcDecimal, SbcDecimal;
  }

  predicate IndexedRead(m: Mnemonic) {
    m.LDA? || m.LDX? || m.LDY? || m.AND? || m.ORA? || m.EOR? || m.ADC? || m.SBC? || m.CMP?
  }

  predicate Modifies(m: Mnemonic) {
    m.ASL? || m.LSR? || m.ROL? || m.ROR? || m.INC? || m.DEC?
  }

  lemma IndexedReading(m: Mnemonic) requires KindOf(m) == Reading && !Unindexed(m) ensures IndexedRead(m) {}
  lemma IndexedStoring(m: Mnemonic) requires KindOf(m) == Storing && !Unindexed(m) ensures m.STA? {}
  lemma IndexedModifying(m: Mnemonic) requires KindOf(m) == Modifying && !Unindexed(m) ensures Modifies(m) {}

  lemma SumReadsDiffer(m: Mnemonic, cpu: Cpu, v: byte)
    requires (m.ADC? || m.SBC? || m.CMP?) && (v == 1 || v == 3) && cpu.a == v && Clear(cpu.s)
    ensures var p, q := Reads(m, cpu, v), Reads(m, cpu, 0); p.a != q.a || p.s != q.s
  {
    hide And, Or, Xor, Adc, Sbc, Compare, SetNZ, Clear;
    SumsDiffer(v, cpu.s);
  }

  lemma BitReadsDiffer(m: Mnemonic, cpu: Cpu, v: byte)
    requires (m.AND? || m.ORA? || m.EOR?) && (v == 1 || v == 3) && cpu.a == if m.ORA? then 0 else v
    ensures Reads(m, cpu, v).a != Reads(m, cpu, 0).a
  {
    hide And, Or, Xor, Adc, Sbc, Compare, SetNZ;
    BitsOfCell(v);
  }

  lemma ReadsDiffer(m: Mnemonic, cpu: Cpu, v: byte)
    requires IndexedRead(m) && (v == 1 || v == 3)
    requires cpu.a == Telling(m, v) && Clear(cpu.s)
    ensures var p, q := Reads(m, cpu, v), Reads(m, cpu, 0);
            p.a != q.a || p.x != q.x || p.y != q.y || p.s != q.s
  {
    hide And, Or, Xor, Adc, Sbc, Compare, SetNZ, Clear;
    if m.ADC? || m.SBC? || m.CMP? {
      SumReadsDiffer(m, cpu, v);
    } else if m.AND? || m.ORA? || m.EOR? {
      BitReadsDiffer(m, cpu, v);
    }
  }

  lemma ModifyShows(m: Mnemonic, v: byte, s: Status)
    requires Modifies(m) && Clear(s) && (v == 1 || v == 3)
    ensures Modify(m, v, s).a != v
  {
    hide SetNZ;
  }

  /** What an operation that writes leaves in a cell of `v`. */
  lemma WriteShows(m: Mnemonic, mode: Mode, cpu: Cpu, addr: word, t: byte, v: byte)
    requires UsesMemory(m) && KindOf(m) != Reading && !Unindexed(m) && mode != Accumulator
    requires cpu.a == Telling(m, v) && Clear(cpu.s) && (v == 1 || v == 3)
    ensures var w := Straight(m, mode, cpu, addr, t).write;
            w.Write? && w.addr == addr && |w.bytes| == 1 && (t == v ==> w.bytes[0] != v)
  {
    hide Modify, Reads, Implieds, Clear, KindOf, Modifies;
    if KindOf(m) == Modifying {
      IndexedModifying(m);
      ModifyShows(m, v, cpu.s);
    } else {
      IndexedStoring(m);
    }
  }

  lemma Differ(m: Mnemonic, long: Mode, mode: Mode, st: State, short: State, at: word, to: word, v: byte)
    requires UsesMemory(m) && !Unindexed(m) && (v == 1 || v == 3)
    requires Decode(Fetched(st)[0]) == Instruction(m, long) && Decode(Fetched(short)[0]) == Instruction(m, mode)
    requires long != Immediate && long != Accumulator && mode != Immediate && mode != Accumulator
    requires st.m.Flat? && short.m.Flat? && st.cpu == short.cpu
    requires st.cpu.a == Telling(m, v) && Clear(st.cpu.s)
    requires Address(st.m, st.cpu, long, Fetched(st)) == at && Address(short.m, short.cpu, mode, Fetched(short)) == to
    requires at != to && !InCode(st.cpu.pc, at)
    requires st.m.cells[at] == v && short.m.cells[at] == v && short.m.cells[to] == 0
    ensures !SameMeaning(st, short)
  {
    hide Decode, Address, Step, Fetched, KindOf, Clear, InCode, Telling, Reads, Modify, Unindexed, Stored,
         IndexedRead;
    MemoryStep(m, long, st, at, v);
    MemoryStep(m, mode, short, to, 0);
    if KindOf(m) == Reading {
      IndexedReading(m);
      ReadsDiffer(m, st.cpu, v);
    } else {
      WriteShows(m, long, st.cpu, at, v, v);
      WriteShows(m, mode, st.cpu, to, 0, v);
    }
  }

  lemma FormsOf(m: Mnemonic, long: Mode, b: byte, st: State, short: State)
    requires HasBoth(m, long) && st.m.Flat? && short.m.Flat? && st.cpu == short.cpu
    requires SameOutside(st.m.cells, short.m.cells, st.cpu.pc)
    requires Fetched(st) == [Picked(m, long), b, 0] && Fetched(short) == [Picked(m, ShortForm(long)), b, 0]
    ensures LongAndShort(m, long, b, st, short)
  {
    hide HasBoth, Picked, SameOutside, Fetched, ShortForm;
  }

  lemma WitnessForms(m: Mnemonic, long: Mode, b: byte, at: word, v: byte, cpu: Cpu)
    requires HasBoth(m, long) && at < START && cpu.pc == START
    ensures var o, p := Picked(m, long), Picked(m, ShortForm(long));
            var st, short := State(cpu, Flat(Code(o, b, at, v))), State(cpu, Flat(Code(p, b, at, v)));
            LongAndShort(m, long, b, st, short) && Fetched(st) == [o, b, 0] && Fetched(short) == [p, b, 0]
  {
    hide Picked, Code, SameOutside, Fetched, LongAndShort, ShortForm, Has, Spell;
    var o, p := Picked(m, long), Picked(m, ShortForm(long));
    CodeFetched(o, b, at, v, cpu);
    CodeFetched(p, b, at, v, cpu);
    CodesAlike(o, p, b, at, v);
    FormsOf(m, long, b, State(cpu, Flat(Code(o, b, at, v))), State(cpu, Flat(Code(p, b, at, v))));
  }

  /** Where the two forms of the witness find their operands. */
  lemma WitnessAddresses(long: Mode, misread: bool, o: byte, p: byte, b: byte, x: byte, v: byte, cpu: Cpu)
    returns (to: word)
    requires long == AbsoluteX || (long == AbsoluteY && !misread)
    requires cpu.x == cpu.y == x && (b + x >= 256 || misread)
    requires v == if misread && b + x == 1 then 3 else 1
    ensures Address(Flat(Code(o, b, b + x, v)), cpu, long, [o, b, 0]) == b + x
    ensures Address(Flat(Code(p, b, b + x, v)), cpu, if misread then IndexedIndirect else ShortForm(long), [p, b, 0])
         == to != b + x
    ensures to < START && Code(p, b, b + x, v)[to] == 0
  {
    hide Code, Pointer;
    var at, page := b + x, (b + x) % 256;
    to := page;
    if misread {
      CodePointer(p, b, at, v, page);
      to := if at < 256 then v else 0;
    }
    CodeLoads(p, b, at, v, to);
  }

  /** Two states that differ after the two forms. */
  lemma Different(m: Mnemonic, long: Mode, b: byte, x: byte) returns (st: State, short: State)
    requires HasBoth(m, long) && (long == Absolute ==> x == 0)
    requires b + x >= 256 || (long == AbsoluteX && Misread(m))
    ensures LongAndShort(m, long, b, st, short) && IndexRegister(long, st.cpu) == x && !InCode(st.cpu.pc, b + x)
    ensures !SameMeaning(st, short)
  {
    hide Decode, Load, Code, SameMeaning, Picked, Misread, UsesMemory, Unindexed, Telling, Has, Address, LongAndShort,
         Fetched;
    var misread := long == AbsoluteX && Misread(m);
    var at := b + x;
    var v: byte := if misread && at == 1 then 3 else 1;
    var cpu := Cpu(Telling(m, v), x, x, 0, Status(false, false, false, false, false, false, false, false), START);
    var o, p := Picked(m, long), Picked(m, ShortForm(long));
    st, short := State(cpu, Flat(Code(o, b, at, v))), State(cpu, Flat(Code(p, b, at, v)));
    WitnessForms(m, long, b, at, v, cpu);
    var to := WitnessAddresses(long, misread, o, p, b, x, v, cpu);
    CodeLoads(o, b, at, v, at);
    CodeLoads(p, b, at, v, at);
    IndexedMnemonic(m, long);
    PickedMeaning(m, long);
    Differ(m, long, if misread then IndexedIndirect else ShortForm(long), st, short, at, to, v);
  }

  lemma ExampleRows()
    ensures RowAt(112) == Row(0xbd, LDA, AbsoluteX) && RowAt(92) == Row(0xa1, LDA, ZeroPageX)
    ensures RowAt(111) == Row(0xbc, LDY, AbsoluteX) && RowAt(105) == Row(0xb4, LDY, ZeroPageX)
    ensures Canonical(112) == 112 && Canonical(92) == 92 && Canonical(111) == 111 && Canonical(105) == 105
  {
    hide Spell, Named, Decode, KindOf;
  }

  /** `LDA $0010,X` loads a byte; its short form 0xa1 follows a pointer. */
  lemma MisreadExample() returns (st: State, short: State)
    ensures LongAndShort(LDA, AbsoluteX, 0x10, st, short) && Misread(LDA) && st.cpu.x == 0 && !SameMeaning(st, short)
  {
    hide RowAt, Canonical, Spell, Picked, Has, SameMeaning, LongAndShort, Misread, Decode, KindOf;
    ExampleRows();
    PickedFor(112);
    PickedFor(92);
    MisreadMnemonics(LDA);
    st, short := Different(LDA, AbsoluteX, 0x10, 0);
  }

  /** `LDY $0010,X` with X = 0xff loads from 0x010f; its short form wraps around to 0x000f. */
  lemma IndexOverflowExample() returns (st: State, short: State)
    ensures LongAndShort(LDY, AbsoluteX, 0x10, st, short) && !Misread(LDY) && st.cpu.x == 0xff
    ensures !SameMeaning(st, short)
  {
    hide RowAt, Canonical, Spell, Picked, Has, SameMeaning, LongAndShort, Misread, Decode, KindOf;
    ExampleRows();
    PickedFor(111);
    PickedFor(105);
    MisreadMnemonics(LDY);
    st, short := Different(LDY, AbsoluteX, 0x10, 0xff);
  }
}
