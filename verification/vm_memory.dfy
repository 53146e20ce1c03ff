/** The split memory of the AVR behaves like the flat memory of the test harness. */
module SplitMemory {
  import opened Bits
  import opened OpcodeTable
  import opened Machine
  import opened Execution

  /** The flat memory with the same contents. */
  function Flattened(m: memory): (r: memory) {
    Flat(View(m))
  }

  /** The access does not run over the end of the address space. */
  predicate Fits(addr: word, n: nat) {
    addr + n <= SIZE
  }

  lemma TakeIsSlice(cells: seq<byte>, addr: word, n: nat)
    requires |cells| == SIZE && Fits(addr, n)
    ensures Take(cells, addr, n) == cells[addr..addr + n]
  {
  }

  lemma PutIsSplice(cells: seq<byte>, addr: word, bytes: seq<byte>)
    requires |cells| == SIZE && Fits(addr, |bytes|)
    ensures Put(cells, addr, bytes) == cells[..addr] + bytes + cells[addr + |bytes|..]
  {
    var r := cells[..addr] + bytes + cells[addr + |bytes|..];
    forall k | 0 <= k < SIZE
      ensures Put(cells, addr, bytes)[k] == r[k]
    {
      if k < addr {
        assert (k - addr) % SIZE == k - addr + SIZE;
      } else {
        assert (k - addr) % SIZE == k - addr;
      }
    }
  }

  lemma SliceAcross(local: seq<byte>, sram: seq<byte>, addr: word, n: nat, part: nat)
    requires |local| == LOCAL && |sram| == SIZE && Fits(addr, n)
    requires 0 < part <= n && addr + part <= LOCAL && (part < n ==> addr + part == LOCAL)
    ensures local[addr..addr + part] + sram[addr + part..addr + n] == (local + sram[LOCAL..])[addr..addr + n]
  {
    var a, b := local[addr..addr + part] + sram[addr + part..addr + n], (local + sram[LOCAL..])[addr..addr + n];
    forall i | 0 <= i < n
      ensures a[i] == b[i]
    {
      if i >= part {
        assert a[i] == sram[addr + i];
      }
    }
  }

  /** A read that crosses from the local memory into the SRAM gives the same bytes as one array would. */
  lemma LoadIsFlat(m: memory, addr: word, n: nat)
    requires Fits(addr, n)
    ensures Load(m, addr, n) == Load(Flattened(m), addr, n)
  {
    hide Take;
    TakeIsSlice(View(m), addr, n);
    if m.Split? {
      var part := LocalPart(addr, n);
      if part == 0 {
        TakeIsSlice(m.sram, addr, n);
      } else {
        assert part == n || addr + part == LOCAL;
        TakeIsSlice(m.sram, addr + part, n - part);
        SliceAcross(m.local, m.sram, addr, n, part);
      }
    }
  }

  /** A read that wraps around goes on in the first bytes of the SRAM, which the program cannot see; it is right
      exactly when those happen to equal the first bytes of the local memory. */
  lemma WrappedLoad(m: memory, addr: word, n: nat)
    requires m.Split? && n <= 3 && !Fits(addr, n)
    ensures var over := addr + n - SIZE;
            Load(m, addr, n) == Load(Flattened(m), addr, n) <==> m.sram[..over] == m.local[..over]
  {
    var over := addr + n - SIZE;
    var split, flat := Load(m, addr, n), Load(Flattened(m), addr, n);
    forall i | 0 <= i < n
      ensures split[i] == if addr + i < SIZE then m.sram[addr + i] else m.sram[..over][addr + i - SIZE]
      ensures flat[i] == if addr + i < SIZE then m.sram[addr + i] else m.local[..over][addr + i - SIZE]
    {
    }
    if split == flat {
      forall k | 0 <= k < over
        ensures m.sram[..over][k] == m.local[..over][k]
      {
        assert split[k + SIZE - addr] == flat[k + SIZE - addr];
      }
    }
  }

  /** A write with the part of it that falls in local memory. */
  lemma SpliceSplit(local: seq<byte>, sram: seq<byte>, addr: word, bytes: seq<byte>, part: nat)
    requires |local| == LOCAL && |sram| == SIZE && Fits(addr, |bytes|) && part <= |bytes|
    requires 0 < part && addr + part <= LOCAL && (part < |bytes| ==> addr + part == LOCAL)
    ensures (local[..addr] + bytes[..part] + local[addr + part..])
            + (sram[..addr + part] + bytes[part..] + sram[addr + |bytes|..])[LOCAL..]
         == (local + sram[LOCAL..])[..addr] + bytes + (local + sram[LOCAL..])[addr + |bytes|..]
  {
  }

  lemma SpliceAbove(local: seq<byte>, sram: seq<byte>, addr: word, bytes: seq<byte>)
    requires |local| == LOCAL && |sram| == SIZE && Fits(addr, |bytes|) && (|bytes| == 0 || addr >= LOCAL)
    ensures local + (sram[..addr] + bytes + sram[addr + |bytes|..])[LOCAL..]
         == (local + sram[LOCAL..])[..addr] + bytes + (local + sram[LOCAL..])[addr + |bytes|..]
  {
  }

  lemma StoreIsFlat(m: memory, addr: word, bytes: seq<byte>)
    requires Fits(addr, |bytes|)
    ensures Flattened(Store(m, addr, bytes)) == Store(Flattened(m), addr, bytes)
  {
    hide Put;
    PutIsSplice(View(m), addr, bytes);
    if m.Split? {
      var part := LocalPart(addr, |bytes|);
      if part == 0 {
        PutIsSplice(m.sram, addr, bytes);
        SpliceAbove(m.local, m.sram, addr, bytes);
      } else {
        PutIsSplice(m.sram, addr + part, bytes[part..]);
        SpliceSplit(m.local, m.sram, addr, bytes, part);
      }
    }
  }

  /** A write that wraps around goes on in the hidden first bytes of the SRAM instead of the local memory; the visible
      64K are right exactly when it would have left the local memory as it is. */
  lemma WrappedStore(m: memory, addr: word, bytes: seq<byte>)
    requires m.Split? && |bytes| <= 3 && !Fits(addr, |bytes|)
    ensures var over := addr + |bytes| - SIZE;
            Flattened(Store(m, addr, bytes)) == Store(Flattened(m), addr, bytes)
            <==> bytes[|bytes| - over..] == m.local[..over]
  {
    var over := addr + |bytes| - SIZE;
    var split, flat := View(Store(m, addr, bytes)), Put(View(m), addr, bytes);
    assert Store(Flattened(m), addr, bytes) == Flat(flat);
    forall k | 0 <= k < SIZE
      ensures k < over ==> split[k] == m.local[..over][k] && flat[k] == bytes[|bytes| - over..][k]
      ensures k >= over ==> split[k] == flat[k]
    {
      WrappedPlace(k, addr, |bytes|);
    }
    hide View, Put, Store;
    if split == flat {
      forall k | 0 <= k < over
        ensures bytes[|bytes| - over..][k] == m.local[..over][k]
      {
        assert split[k] == flat[k];
      }
    }
  }

  /** Which byte of a write that wraps around goes to place `k`, if any. */
  lemma WrappedPlace(k: word, addr: word, n: nat)
    requires n <= 3 && !Fits(addr, n)
    ensures (k - addr) % SIZE == if k < addr then k - addr + SIZE else k - addr
    ensures (k - addr) % SIZE < n <==> k >= addr || k < addr + n - SIZE
  {
  }

  // --- Instructions -----------------------------------------------------------------

  /** No access of the next instruction runs over the end: neither the fetch, nor the pointer of an indirect
      jump, nor a push at the bottom of page 1. */
  predicate StepFits(st: State) {
    && Fits(st.cpu.pc, 3)
    && var f := Load(st.m, st.cpu.pc, 3);
       match Decode(f[0])
       case Unknown => true
       case Instruction(operation, mode) =>
         && (mode == IndirectAbsolute ==> Fits(Word(f[1], f[2]), 2))
         && (operation == JSR ==> st.cpu.sp >= 1)
         && (operation == BRK ==> st.cpu.sp >= 2)
  }

  lemma AddressIsFlat(m: memory, cpu: Cpu, mode: Mode, f: seq<byte>)
    requires |f| == 3 && (mode == IndirectAbsolute ==> Fits(Word(f[1], f[2]), 2))
    ensures Address(m, cpu, mode, f) == Address(Flattened(m), cpu, mode, f)
  {
    hide Load, Flattened;
    match mode {
      case IndexedIndirect => LoadIsFlat(m, (f[1] + cpu.x) % 256, 2);
      case IndirectIndexed => LoadIsFlat(m, f[1], 2);
      case IndirectAbsolute => LoadIsFlat(m, Word(f[1], f[2]), 2);
      case _ =>
    }
  }

  lemma OperandIsFlat(m: memory, cpu: Cpu, mode: Mode, f: seq<byte>)
    requires |f| == 3 && (mode == IndirectAbsolute ==> Fits(Word(f[1], f[2]), 2))
    ensures OperandOf(m, cpu, mode, f) == OperandOf(Flattened(m), cpu, mode, f)
  {
    hide Load, Flattened, Address;
    AddressIsFlat(m, cpu, mode, f);
    LoadIsFlat(m, Address(m, cpu, mode, f), 1);
  }

  /** The write of an effect does not run over the end. */
  predicate WriteFits(w: Write) {
    w.Write? ==> Fits(w.addr, |w.bytes|)
  }

  lemma ApplyIsFlat(m: memory, w: Write)
    requires WriteFits(w)
    ensures Flattened(Apply(m, w)) == Apply(Flattened(m), w)
  {
    hide Store, Flattened;
    if w.Write? {
      StoreIsFlat(m, w.addr, w.bytes);
    }
  }

  lemma BreakIsFlat(m: memory, cpu: Cpu)
    requires cpu.sp >= 2
    ensures Break(m, cpu) == Break(Flattened(m), cpu) && WriteFits(BreakFrame(cpu))
  {
    hide Load, Flattened, Store, ToByte;
    ApplyIsFlat(m, BreakFrame(cpu));
    hide BreakFrame;
    LoadIsFlat(Apply(m, BreakFrame(cpu)), 0xfffe, 2);
  }

  lemma PullsAreFlat(m: memory, cpu: Cpu)
    ensures Return(m, cpu) == Return(Flattened(m), cpu) && Return(m, cpu).write == NoWrite
    ensures ReturnFromInterrupt(m, cpu) == ReturnFromInterrupt(Flattened(m), cpu)
    ensures ReturnFromInterrupt(m, cpu).write == NoWrite
    ensures Pulled(m, cpu) == Pulled(Flattened(m), cpu)
  {
    hide Load, Flattened, FromByte;
    LoadIsFlat(m, StackAddress(cpu.sp + 1), 2);
    LoadIsFlat(m, StackAddress(cpu.sp + 1), 3);
    LoadIsFlat(m, 256 + Wrap8(cpu.sp + 1), 1);
  }

  lemma PushesFit(m: memory, cpu: Cpu, target: word, b: byte)
    ensures WriteFits(Push(cpu, b).write) && Break(m, cpu).write == BreakFrame(cpu)
    ensures cpu.sp >= 1 ==> WriteFits(Call(cpu, target).write)
  {
    hide Load, Store, ToByte;
  }

  lemma JumpIsFlat(operation: Mnemonic, m: memory, cpu: Cpu, target: word)
    requires operation == JSR ==> cpu.sp >= 1
    requires operation == BRK ==> cpu.sp >= 2
    ensures Jump(operation, m, cpu, target) == Jump(operation, Flattened(m), cpu, target)
    ensures WriteFits(Jump(operation, m, cpu, target).write)
  {
    hide Flattened, FromByte, ToByte, SetNZ, Break, BreakFrame, Return, ReturnFromInterrupt, Pulled, Push, Call;
    PullsAreFlat(m, cpu);
    PushesFit(m, cpu, target, cpu.a);
    PushesFit(m, cpu, target, ToByte(cpu.s.(u := true, b := true)));
    if operation == BRK {
      BreakIsFlat(m, cpu);
    }
  }

  lemma ExecuteIsFlat(ins: Instruction, m: memory, cpu: Cpu, f: seq<byte>)
    requires |f| == 3 && ins.Instruction?
    requires ins.mode == IndirectAbsolute ==> Fits(Word(f[1], f[2]), 2)
    requires ins.operation == JSR ==> cpu.sp >= 1
    requires ins.operation == BRK ==> cpu.sp >= 2
    ensures Execute(ins, m, cpu, f) == Execute(ins, Flattened(m), cpu, f)
    ensures WriteFits(Execute(ins, m, cpu, f).write)
  {
    hide Flattened, Address, OperandOf, Jump, Reads, Modify, Implieds, Taken, Stored;
    AddressIsFlat(m, cpu, ins.mode, f);
    OperandIsFlat(m, cpu, ins.mode, f);
    JumpIsFlat(ins.operation, m, cpu, Address(m, cpu, ins.mode, f));
  }

  function Flat64(st: State): State {
    State(st.cpu, Flattened(st.m))
  }

  /** One instruction on split memory is the same instruction on flat memory. */
  lemma StepIsFlat(st: State)
    requires StepFits(st)
    ensures Step(Flat64(st)) == Stepped(Step(st).on, Flat64(Step(st).state))
  {
    hide Flattened, Load, Decode, Execute, Apply, WriteFits;
    var f := Load(st.m, st.cpu.pc, 3);
    LoadIsFlat(st.m, st.cpu.pc, 3);
    if Decode(f[0]).Instruction? {
      ExecuteIsFlat(Decode(f[0]), st.m, st.cpu, f);
      ApplyIsFlat(st.m, Execute(Decode(f[0]), st.m, st.cpu, f).write);
    }
  }

  // --- Runs -------------------------------------------------------------------------

  /** `n` instructions, or fewer if the machine halts. */
  function Run(st: State, n: nat): State
    decreases n
  {
    hide Step;
    if n == 0 || !Step(st).on then st else Run(Step(st).state, n - 1)
  }

  /** None of the `n` instructions halts the machine. */
  predicate Lasts(st: State, n: nat)
    decreases n
  {
    hide Step;
    n == 0 || (Step(st).on && Lasts(Step(st).state, n - 1))
  }

  predicate RunFits(st: State, n: nat)
    decreases n
  {
    hide Step, StepFits;
    n == 0 || (StepFits(st) && (Step(st).on ==> RunFits(Step(st).state, n - 1)))
  }

  /** Over any run in which no single access runs over the end of the address space, registers, flags and the
      visible 64K are the same with split memory as with flat memory, after every number of steps. */
  lemma {:induction false} SplitRefinesFlat(st: State, n: nat)
    requires RunFits(st, n)
    ensures Flat64(Run(st, n)) == Run(Flat64(st), n)
    decreases n
  {
    hide Step, StepFits, Flat64;
    if n > 0 {
      StepIsFlat(st);
      if Step(st).on {
        SplitRefinesFlat(Step(st).state, n - 1);
      }
    }
  }

  // --- The two memories in place ----------------------------------------------------

  /** `sram_read`: the chip counts the address up by itself, and around. */
  method SramRead(sram: array<byte>, addr: word, dst: array<byte>, at: nat, size: nat)
    requires sram.Length == SIZE && at + size <= dst.Length && sram != dst
    modifies dst
    ensures dst[..] == old(dst[..at]) + Take(sram[..], addr, size) + old(dst[at + size..])
  {
    var pt := 0;
    while pt < size
      invariant pt <= size
      invariant forall k | 0 <= k < dst.Length ::
        dst[k] == if at <= k < at + pt then sram[(addr + (k - at)) % SIZE] else old(dst[k])
    {
      dst[at + pt] := sram[(addr + pt) % SIZE];
      pt := pt + 1;
    }
  }

  /** `sram_write` */
  method SramWrite(sram: array<byte>, addr: word, src: array<byte>, at: nat, size: nat)
    requires sram.Length == SIZE && at + size <= src.Length && sram != src && size <= 255
    modifies sram
    ensures sram[..] == Put(old(sram[..]), addr, src[at..at + size])
  {
    var pt := 0;
    while pt < size
      invariant pt <= size
      invariant sram[..] == Put(old(sram[..]), addr, src[at..at + pt])
    {
      ghost var before := sram[..];
      sram[(addr + pt) % SIZE] := src[at + pt];
      PutOneMore(old(sram[..]), addr, src[at..at + pt], src[at + pt]);
      assert src[at..at + pt + 1] == src[at..at + pt] + [src[at + pt]];
      assert sram[..] == before[(addr + pt) % SIZE := src[at + pt]];
      pt := pt + 1;
    }
    assert src[at..at + size] == src[at..at + pt];
  }

  lemma PutOneMore(cells: seq<byte>, addr: word, bytes: seq<byte>, b: byte)
    requires |cells| == SIZE && |bytes| < SIZE
    ensures Put(cells, addr, bytes + [b]) == Put(cells, addr, bytes)[(addr + |bytes|) % SIZE := b]
  {
    var r := Put(cells, addr, bytes)[(addr + |bytes|) % SIZE := b];
    forall k | 0 <= k < SIZE
      ensures Put(cells, addr, bytes + [b])[k] == r[k]
    {
      var d := (k - addr) % SIZE;
      if d == |bytes| {
        assert (addr + d) % SIZE == k;
      }
    }
  }

  /** The static array `local` and the chip. */
  class SplitRam {
    const local: array<byte>
    const sram: array<byte>

    ghost predicate Valid() {
      local.Length == LOCAL && sram.Length == SIZE && local != sram
    }

    ghost function Contents(): (m: memory)
      requires Valid()
      reads local, sram
    {
      Split(local[..], sram[..])
    }

    constructor (local: array<byte>, sram: array<byte>)
      requires local.Length == LOCAL && sram.Length == SIZE && local != sram
      ensures Valid() && this.local == local && this.sram == sram
    {
      this.local, this.sram := local, sram;
    }

    /** `vm_ram_read` */
    method Read(addr: word, dst: array<byte>, size: nat)
      requires Valid() && size <= dst.Length && size <= 255 && dst != local && dst != sram
      modifies dst
      ensures dst[..] == Load(Contents(), addr, size) + old(dst[size..])
    {
      hide Take;
      var part := 0;
      if size == 0 {
        return;
      }
      if addr < 512 {
        if size + addr > 512 {
          part := 512 - addr;
        } else {
          part := size;
        }
        Copy(local, addr, dst, 0, part);
      }
      ghost var before := dst[..];
      assert part == 0 || before[..part] == local[..][addr..addr + part];
      assert before[size..] == old(dst[size..]);
      SramRead(sram, addr + part, dst, part, size - part);
      assert part == 0 ==> before[..part] == [];
    }

    /** `vm_ram_write` */
    method Write(addr: word, src: array<byte>, size: nat)
      requires Valid() && size <= src.Length && size <= 255 && src != local && src != sram
      modifies local, sram
      ensures Contents() == Store(old(Contents()), addr, src[..size])
    {
      hide Put;
      var part := 0;
      if size == 0 {
        EmptyStore(Contents(), addr);
        return;
      }
      if addr < 512 {
        if size + addr > 512 {
          part := 512 - addr;
        } else {
          part := size;
        }
        Copy(src, 0, local, addr, part);
      }
      SramWrite(sram, addr + part, src, part, size - part);
      assert src[..size][..part] == src[..part] && src[..size][part..] == src[part..size];
    }
  }

  lemma EmptyStore(m: memory, addr: word)
    ensures Store(m, addr, []) == m
  {
  }

  /** `memcpy` between different buffers */
  method Copy(src: array<byte>, from: nat, dst: array<byte>, to: nat, n: nat)
    requires src != dst && from + n <= src.Length && to + n <= dst.Length
    modifies dst
    ensures dst[..] == old(dst[..to]) + src[from..from + n] + old(dst[to + n..])
  {
    var i := 0;
    while i < n
      invariant i <= n
      invariant forall k | 0 <= k < dst.Length ::
        dst[k] == if to <= k < to + i then src[from + (k - to)] else old(dst[k])
    {
      dst[to + i] := src[from + i];
      i := i + 1;
    }
  }
}
