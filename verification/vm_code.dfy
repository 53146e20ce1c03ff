/** `vm_exec` as it runs: registers, flags and memory changed in place by one instruction. */
module VirtualMachine {
  import opened Bits
  import opened OpcodeTable
  import opened Machine
  import opened Execution
  import opened SplitMemory
  import opened CallStack

  const PROG_START := 0x1a00

  lemma TakeOneMore(cells: seq<byte>, addr: word, n: nat)
    requires |cells| == SIZE
    ensures Take(cells, addr, n + 1) == Take(cells, addr, n) + [cells[(addr + n) % SIZE]]
  {
  }

  lemma NothingPut(cells: seq<byte>, addr: word)
    requires |cells| == SIZE
    ensures Put(cells, addr, []) == cells
  {
  }

  lemma WrapStep(n: nat)
    ensures Wrap16(n % SIZE + 1) == (n + 1) % SIZE
  {
  }

  class Vm {
    var a: byte
    var x: byte
    var y: byte
    var sp: byte
    var s: Status
    var pc: word
    const ram: array<byte>

    ghost predicate Valid() {
      ram.Length == SIZE
    }

    function Registers(): Cpu
      reads this
    {
      Cpu(a, x, y, sp, s, pc)
    }

    ghost function Current(): State
      requires Valid()
      reads this, ram
    {
      State(Registers(), Flat(ram[..]))
    }

    /** `vm_init`, on a memory that is already filled */
    constructor (ram: array<byte>)
      requires ram.Length == SIZE
      ensures Valid() && this.ram == ram
      ensures Registers() == Cpu(0, 0, 0, 0xff, FromByte(0), PROG_START)
    {
      a, x, y, s := 0, 0, 0, FromByte(0);
      sp := 0xff;
      pc := PROG_START;
      this.ram := ram;
    }

    /** `vm_ram_read` of the test harness */
    method Read(start: word, size: nat) returns (bytes: seq<byte>)
      requires Valid()
      ensures bytes == Load(Flat(ram[..]), start, size)
    {
      var addr: int, i := start, 0;
      bytes := [];
      while i < size
        invariant i <= size && addr == (start + i) % SIZE
        invariant bytes == Machine.Take(ram[..], start, i)
      {
        bytes := bytes + [ram[addr]];
        TakeOneMore(ram[..], start, i);
        WrapStep(start + i);
        addr := Wrap16(addr + 1);
        i := i + 1;
      }
    }

    /** `vm_ram_write` of the test harness */
    method Write(start: word, bytes: seq<byte>)
      requires Valid() && |bytes| <= 3
      modifies ram
      ensures Flat(ram[..]) == Store(Flat(old(ram[..])), start, bytes)
    {
      hide Put;
      var addr: int, i := start, 0;
      NothingPut(ram[..], start);
      while i < |bytes|
        invariant i <= |bytes| && addr == (start + i) % SIZE
        invariant ram[..] == Put(old(ram[..]), start, bytes[..i])
      {
        PutOneMore(old(ram[..]), start, bytes[..i], bytes[i]);
        assert bytes[..i + 1] == bytes[..i] + [bytes[i]];
        ram[addr] := bytes[i];
        WrapStep(start + i);
        addr := Wrap16(addr + 1);
        i := i + 1;
      }
      assert bytes[..i] == bytes;
    }

    method Resolve(mode: Mode, f: seq<byte>) returns (addr: word)
      requires Valid() && |f| == 3
      ensures addr == Address(Flat(ram[..]), Registers(), mode, f)
    {
      hide Load;
      addr := 0;
      match mode {
        case ZeroPage => addr := f[1];
        case ZeroPageX => addr := (f[1] + x) % 256;
        case ZeroPageY => addr := (f[1] + y) % 256;
        case Absolute => addr := Word(f[1], f[2]);
        case AbsoluteX => addr := Wrap16(Word(f[1], f[2]) + x);
        case AbsoluteY => addr := Wrap16(Word(f[1], f[2]) + y);
        case IndexedIndirect =>
          var p := Read((f[1] + x) % 256, 2);
          addr := Word(p[0], p[1]);
        case IndirectIndexed =>
          var p := Read(f[1], 2);
          addr := Wrap16(Word(p[0], p[1]) + y);
        case IndirectAbsolute =>
          var p := Read(Word(f[1], f[2]), 2);
          addr := Word(p[0], p[1]);
        case _ =>
      }
    }

    /** `adc:` with its decimal part */
    method AddWithCarry(t: byte)
      modifies this`a, this`s
      ensures Sum(a, s) == Adc(old(a), t, old(s))
    {
      hide Wrap8, AddDigits;
      if s.d {
        var t16 := AddDecimalDigits(a % 16, t % 16, Weight(s.c, 1));
        var high := AddDecimalDigits(a / 16, t / 16, if t16 > 15 then 1 else 0);
        s := s.(v := false, n := false, z := false, c := false);
        a := Wrap8(t16 % 16 + 16 * high);
        s := s.(c := high > 15, z := a == 0);
      } else {
        var t16 := a + t + Weight(s.c, 1);
        var r := Wrap8(t16);
        s := s.(v := (a >= 128) == (t >= 128) && (a >= 128) != (r >= 128), c := t16 >= 256, n := r >= 128, z := r == 0);
        a := r;
      }
    }

    method AddDecimalDigits(p: nat, q: nat, carry: nat) returns (t: nat)
      ensures t == AddDigits(p, q, carry)
    {
      t := p + q + carry;
      if t > 9 {
        t := t + 6;
      }
    }

    /** `sbc:` with its decimal part */
    method SubtractWithBorrow(t: byte)
      modifies this`a, this`s
      ensures Sum(a, s) == Sbc(old(a), t, old(s))
    {
      hide Wrap8, Wrap16, SubDigits;
      if s.d {
        var t16 := SubtractDecimalDigits(a % 16, t % 16, Weight(!s.c, 1));
        var high: int := SubtractDecimalDigits(a / 16, t / 16, t16 / 16 % 2);
        s := s.(v := false, n := false, z := false, c := false);
        a := Wrap8(t16 % 16 + 16 * high);
        s := s.(c := high <= 15, z := a == 0);
      } else {
        var t16 := Wrap16(a - t - Weight(!s.c, 1));
        var r := Wrap8(t16);
        s := s.(v := (a >= 128) != (t >= 128) && (a >= 128) != (r >= 128), c := t16 < 256, n := r >= 128, z := r == 0);
        a := r;
      }
    }

    method SubtractDecimalDigits(p: nat, q: nat, borrow: nat) returns (t: word)
      ensures t == SubDigits(p, q, borrow)
    {
      t := Wrap16(p - q - borrow);
      if t / 16 % 2 == 1 {
        t := Wrap16(t - 6);
      }
    }

    /** The operations that take a byte into the registers or the flags. */
    method Take(operation: Mnemonic, t: byte)
      requires KindOf(operation) == Reading
      modifies this`a, this`x, this`y, this`s
      ensures Registers() == Reads(operation, old(Registers()), t)
    {
      hide Adc, Sbc, And, Or, Xor;
      match operation {
        case LDA => a := t; s := SetNZ(s, a);
        case LDX => x := t; s := SetNZ(s, x);
        case LDY => y := t; s := SetNZ(s, y);
        case AND => a := And(a, t); s := SetNZ(s, a);
        case ORA => a := Or(a, t); s := SetNZ(s, a);
        case EOR => a := Xor(a, t); s := SetNZ(s, a);
        case ADC => AddWithCarry(t);
        case SBC => SubtractWithBorrow(t);
        case CMP => s := Compare(a, t, s);
        case CPX => s := Compare(x, t, s);
        case CPY => s := Compare(y, t, s);
        case BIT => s := s.(n := t >= 128, v := t / 64 % 2 == 1, z := And(t, a) == 0);
      }
    }

    /** The operations without an operand. */
    method DoImplied(operation: Mnemonic)
      requires KindOf(operation) == Plain
      modifies this`a, this`x, this`y, this`s, this`sp
      ensures Registers() == Implieds(operation, old(Registers()))
    {
      hide SetNZ, Wrap8, KindOf;
      match operation {
        case DEX => x := Wrap8(x - 1); s := SetNZ(s, x);
        case DEY => y := Wrap8(y - 1); s := SetNZ(s, y);
        case INX => x := Wrap8(x + 1); s := SetNZ(s, x);
        case INY => y := Wrap8(y + 1); s := SetNZ(s, y);
        case TAX => x := a; s := SetNZ(s, x);
        case TAY => y := a; s := SetNZ(s, y);
        case TSX => x := sp; s := SetNZ(s, x);
        case TXA => a := x; s := SetNZ(s, a);
        case TYA => a := y; s := SetNZ(s, a);
        case TXS => sp := x;
        case SED => s := s.(d := true);
        case SEC => s := s.(c := true);
        case SEI => s := s.(i := true);
        case CLI => s := s.(i := false);
        case CLD => s := s.(d := false);
        case CLC => s := s.(c := false);
        case CLV => s := s.(v := false);
        case _ =>
      }
    }

    /** The operations that read a byte and write it back, or do so to the accumulator. */
    method ReadModifyWrite(operation: Mnemonic, mode: Mode, addr: word)
      requires Valid() && KindOf(operation) == Modifying
      modifies this`a, this`s, ram
      ensures var t := if mode == Accumulator then old(a) else Load(old(Current()).m, addr, 1)[0];
              var e := Straight(operation, mode, old(Registers()), addr, t);
              Current() == State(e.cpu, Apply(old(Current()).m, e.write))
    {
      hide Load, Store, Machine.Take, Put, Modify, SetNZ;
      if mode == Accumulator {
        var r := Modify(operation, a, s);
        a, s := r.a, r.s;
      } else {
        var t := Read(addr, 1);
        var r := Modify(operation, t[0], s);
        Write(addr, [r.a]);
        s := r.s;
      }
    }

    method PullByte() returns (b: byte)
      requires Valid()
      modifies this`sp
      ensures b == Pulled(Flat(ram[..]), old(Registers())) && sp == Wrap8(old(sp) + 1)
    {
      hide Load;
      sp := Wrap8(sp + 1);
      var t := Read(256 + sp, 1);
      b := t[0];
    }

    /** The jumps, and the operations on the stack. */
    method Leave(operation: Mnemonic, target: word)
      requires Valid() && (KindOf(operation) == Jumping || KindOf(operation) == Stacking)
      modifies this, ram
      ensures var e := Jump(operation, old(Current()).m, old(Registers()), target);
              Current() == State(e.cpu, Apply(old(Current()).m, e.write))
    {
      hide Load, Store, SetNZ, ToByte, FromByte, Low, High, Wrap8, Wrap16, StackAddress;
      match operation {
        case JMP => pc := target;
        case JSR =>
          var addr := Wrap16(pc + 2);
          pc := target;
          Write(StackAddress(sp - 1), [Low(addr), High(addr)]);
          sp := Wrap8(sp - 2);
        case RTS =>
          var pt := Read(StackAddress(sp + 1), 2);
          pc := Wrap16(Word(pt[0], pt[1]) + 1);
          sp := Wrap8(sp + 2);
        case RTI =>
          var pt := Read(StackAddress(sp + 1), 3);
          s := FromByte(pt[0]);
          pc := Word(pt[1], pt[2]);
          sp := Wrap8(sp + 3);
        case BRK =>
          pc := Wrap16(pc + 2);
          Write(StackAddress(sp - 2), [ToByte(s.(u := true, b := true)), Low(pc), High(pc)]);
          sp := Wrap8(sp - 3);
          var pt := Read(0xfffe, 2);
          pc := Word(pt[0], pt[1]);
          s := s.(i := true);
        case PHA =>
          Write(256 + sp, [a]);
          sp := Wrap8(sp - 1);
          pc := Wrap16(pc + 1);
        case PHP =>
          Write(256 + sp, [ToByte(s.(u := true, b := true))]);
          sp := Wrap8(sp - 1);
          pc := Wrap16(pc + 1);
        case PLA =>
          a := PullByte();
          s := SetNZ(s, a);
          pc := Wrap16(pc + 1);
        case PLP =>
          var b := PullByte();
          s := FromByte(b);
          pc := Wrap16(pc + 1);
      }
    }

    /** `vm_exec` */
    method Exec() returns (on: bool)
      requires Valid()
      modifies this, ram
      ensures Stepped(on, Current()) == Step(old(Current()))
    {
      hide Decode, Load, Store, Address, Reads, Implieds, Jump, KindOf, Taken, Signed, Modify;
      var f := Read(pc, 3);
      match Decode(f[0]) {
        case Unknown => return false;
        case Instruction(operation, mode) =>
          var addr := Resolve(mode, f);
          match KindOf(operation) {
            case Branching =>
              var offset := if Taken(operation, s) then Signed(f[1]) else 0;
              pc := Wrap16(pc + 2 + offset);
            case Jumping => Leave(operation, addr);
            case Stacking => Leave(operation, addr);
            case Reading =>
              var t := f[1];
              if mode == Accumulator {
                t := a;
              } else if mode != Immediate {
                var b := Read(addr, 1);
                t := b[0];
              }
              Take(operation, t);
              pc := Wrap16(pc + Length(mode));
            case Storing =>
              Write(addr, [Stored(operation, Registers())]);
              pc := Wrap16(pc + Length(mode));
            case Modifying =>
              ReadModifyWrite(operation, mode, addr);
              pc := Wrap16(pc + Length(mode));
            case Plain =>
              DoImplied(operation);
              pc := Wrap16(pc + Length(mode));
          }
          on := true;
      }
    }

    /** The loop around `vm_exec`, for at most `n` instructions: it tells whether the machine still goes on. */
    method ExecAll(n: nat) returns (on: bool)
      requires Valid()
      modifies this, ram
      ensures Current() == Run(old(Current()), n)
      ensures on <==> Lasts(old(Current()), n)
    {
      hide Step;
      on := true;
      var i := 0;
      while i < n && on
        invariant i <= n && Valid()
        invariant if on then Run(Current(), n - i) == Run(old(Current()), n)
                  else Current() == Run(old(Current()), n)
        invariant if on then Lasts(Current(), n - i) <==> Lasts(old(Current()), n) else !Lasts(old(Current()), n)
      {
        ghost var before := Current();
        on := Exec();
        StopsWhenUnknown(before);
        i := i + 1;
      }
    }
  }
}
